// Decoding of one JSON Pointer segment (RFC 6901) as `decode_json_pointer`
// does it: one pass over the characters with one character of lookahead.
module JsonPointer {

  // The one-pass decoder, by recursion on the text still to be read.
  function Decode(segment: string): string {
    if segment == [] then []
    else if segment[0] == '~' && 1 < |segment| && segment[1] == '0' then ['~'] + Decode(segment[2..])
    else if segment[0] == '~' && 1 < |segment| && segment[1] == '1' then ['/'] + Decode(segment[2..])
    else [segment[0]] + Decode(segment[1..])
  }

  // Leftmost non-overlapping replacement of the pair `a b` by `c`: the
  // substitution that section 4 of RFC 6901 speaks of.
  function Substitute(s: string, a: char, b: char, c: char): string {
    if s == [] then []
    else if 1 < |s| && s[0] == a && s[1] == b then [c] + Substitute(s[2..], a, b, c)
    else [s[0]] + Substitute(s[1..], a, b, c)
  }

  // Section 4 of RFC 6901: first every "~1" becomes "/", then every "~0" becomes "~".
  function DecodeInTwoSteps(segment: string): string {
    Substitute(Substitute(segment, '~', '1', '/'), '~', '0', '~')
  }

  // Section 3 of RFC 6901: "~" is written "~0" and "/" is written "~1".
  function Escape(name: string): string {
    if name == [] then []
    else (if name[0] == '~' then "~0" else if name[0] == '/' then "~1" else [name[0]]) + Escape(name[1..])
  }

  // The first character that the first substitution leaves in front.
  lemma SubstituteFront(s: string)
    requires s != []
    ensures var r := Substitute(s, '~', '1', '/');
            r != [] && (s[0] != '~' ==> r[0] == s[0]) && (1 < |s| && s[0] == '~' && s[1] == '1' ==> r[0] == '/')
            && (s[0] == '~' && !(1 < |s| && s[1] == '1') ==> r[0] == '~')
  {
  }

  // The single pass computes the two-step substitution on every string, lone
  // and doubled tildes included.
  lemma {:induction false} DecodeIsTwoStep(s: string)
    ensures Decode(s) == DecodeInTwoSteps(s)
    decreases |s|
  {
    if s != [] {
      var one := Substitute(s, '~', '1', '/');
      if s[0] == '~' && 1 < |s| && s[1] == '1' {
        DecodeIsTwoStep(s[2..]);
        assert one[1..] == Substitute(s[2..], '~', '1', '/');
      } else {
        var rest := Substitute(s[1..], '~', '1', '/');
        assert one == [s[0]] + rest && one[1..] == rest;
        DecodeIsTwoStep(s[1..]);
        if 1 < |s| {
          SubstituteFront(s[1..]);
          if s[0] == '~' && s[1] == '0' {
            assert rest[1..] == Substitute(s[2..], '~', '1', '/') by {
              assert s[1..][1..] == s[2..];
            }
            assert one[2..] == rest[1..];
            DecodeIsTwoStep(s[2..]);
          } else {
            assert !(one[0] == '~' && 1 < |one| && one[1] == '0');
          }
        }
      }
    }
  }

  // Decoding undoes escaping, so every definition name has a reference that reaches it.
  lemma {:induction false} DecodeUndoesEscape(name: string)
    ensures Decode(Escape(name)) == name
  {
    if name != [] {
      DecodeUndoesEscape(name[1..]);
      var tail := Escape(name[1..]);
      if name[0] == '~' {
        assert Escape(name) == ['~', '0'] + tail && Escape(name)[2..] == tail;
      } else if name[0] == '/' {
        assert Escape(name) == ['~', '1'] + tail && Escape(name)[2..] == tail;
      } else {
        assert Escape(name) == [name[0]] + tail && Escape(name)[1..] == tail;
      }
    }
  }

  // Escaped names contain no "/", so an escaped name is a single segment.
  lemma {:induction false} EscapeHasNoSlash(name: string)
    ensures '/' !in Escape(name)
  {
    if name != [] {
      EscapeHasNoSlash(name[1..]);
    }
  }

  lemma {:induction false} DecodeWithoutTilde(s: string)
    requires '~' !in s
    ensures Decode(s) == s
  {
    if s != [] {
      DecodeWithoutTilde(s[1..]);
      assert s == [s[0]] + s[1..];
    }
  }

  // Position `i` starts one of the two escapes.
  predicate EscapeAt(segment: string, i: nat, digit: char)
    requires i < |segment|
  {
    segment[i] == '~' && i + 1 < |segment| && segment[i + 1] == digit
  }

  // One unfolding of the decoder at a position inside the segment.
  lemma DecodeAt(segment: string, i: nat, pushed: char, next: nat)
    requires i < |segment|
    requires if EscapeAt(segment, i, '0') then pushed == '~' && next == i + 2
             else if EscapeAt(segment, i, '1') then pushed == '/' && next == i + 2
             else pushed == segment[i] && next == i + 1
    ensures Decode(segment[i..]) == [pushed] + Decode(segment[next..])
  {
    var rest := segment[i..];
    assert rest[next - i..] == segment[next..];
  }

  lemma PushAssociates(front: string, c: char, back: string)
    ensures front + ([c] + back) == (front + [c]) + back
  {
  }

  // `decode_json_pointer`: the early return for segments without a tilde, then
  // the loop over a peekable character iterator.
  method DecodeSegment(segment: string) returns (decoded: string)
    ensures decoded == Decode(segment)
  {
    if '~' !in segment {
      DecodeWithoutTilde(segment);
      return segment;
    }
    decoded := [];
    var i := 0;
    while i < |segment|
      invariant 0 <= i <= |segment|
      invariant Decode(segment) == decoded + Decode(segment[i..])
    {
      ghost var start := i;
      var pushed := segment[i];
      i := i + 1;
      if pushed == '~' {
        if i < |segment| && segment[i] == '0' {
          i := i + 1;
        } else if i < |segment| && segment[i] == '1' {
          i := i + 1;
          pushed := '/';
        }
      }
      DecodeAt(segment, start, pushed, i);
      PushAssociates(decoded, pushed, Decode(segment[i..]));
      decoded := decoded + [pushed];
    }
    assert segment[i..] == "";
  }
}
