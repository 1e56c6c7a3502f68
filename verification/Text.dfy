// String operations of the Rust standard library that the parsers use.
// Texts are sequences of code points; where the source returns byte offsets,
// ByteLength converts.
module Text {
  import opened Wrappers

  // The White_Space property, which `char::is_whitespace` and the trim methods use.
  predicate IsWhitespace(c: char) {
    || '\t' <= c <= '\r'
    || c == ' '
    || c == '\U{0085}'
    || c == '\U{00A0}'
    || c == '\U{1680}'
    || '\U{2000}' <= c <= '\U{200A}'
    || c == '\U{2028}'
    || c == '\U{2029}'
    || c == '\U{202F}'
    || c == '\U{205F}'
    || c == '\U{3000}'
  }

  function TrimStart(s: string): (r: string)
    ensures |r| <= |s| && r == s[|s| - |r|..]
    ensures r != [] ==> !IsWhitespace(r[0])
  {
    if s != [] && IsWhitespace(s[0]) then TrimStart(s[1..]) else s
  }

  function TrimEnd(s: string): (r: string)
    ensures |r| <= |s| && r == s[..|r|]
    ensures r != [] ==> !IsWhitespace(r[|r| - 1])
  {
    if s != [] && IsWhitespace(s[|s| - 1]) then TrimEnd(s[..|s| - 1]) else s
  }

  function Trim(s: string): string {
    TrimEnd(TrimStart(s))
  }

  predicate Blank(s: string) {
    forall i | 0 <= i < |s| :: IsWhitespace(s[i])
  }

  lemma {:induction false} TrimStartSkipsBlank(blank: string, s: string)
    requires Blank(blank)
    ensures TrimStart(blank + s) == TrimStart(s)
  {
    if blank == [] {
      assert blank + s == s;
    } else {
      assert (blank + s)[1..] == blank[1..] + s;
      TrimStartSkipsBlank(blank[1..], s);
    }
  }

  // Trimming takes off blanks at both ends and nothing else.
  lemma {:induction false} TrimStartTakesBlanks(s: string)
    ensures Blank(s[..|s| - |TrimStart(s)|])
  {
    if s != [] && IsWhitespace(s[0]) {
      TrimStartTakesBlanks(s[1..]);
      var n := |s| - |TrimStart(s)|;
      assert s[..n] == [s[0]] + s[1..][..n - 1];
    }
  }

  lemma {:induction false} TrimEndTakesBlanks(s: string)
    ensures Blank(s[|TrimEnd(s)|..])
  {
    if s != [] && IsWhitespace(s[|s| - 1]) {
      TrimEndTakesBlanks(s[..|s| - 1]);
      var n := |TrimEnd(s)|;
      assert s[n..] == s[..|s| - 1][n..] + [s[|s| - 1]];
    }
  }

  lemma TrimTakesBlanks(s: string)
    ensures var start := |s| - |TrimStart(s)|;
            && start + |Trim(s)| <= |s| && s[start..start + |Trim(s)|] == Trim(s)
            && Blank(s[..start]) && Blank(s[start + |Trim(s)|..])
    ensures Trim(s) != "" ==> !IsWhitespace(Trim(s)[0]) && !IsWhitespace(Trim(s)[|Trim(s)| - 1])
  {
    TrimStartTakesBlanks(s);
    TrimEndTakesBlanks(TrimStart(s));
    SliceOfSuffix(s, TrimStart(s), Trim(s));
  }

  lemma SliceOfSuffix(s: string, t: string, r: string)
    requires IsSuffix(t, s) && |r| <= |t| && r == t[..|r|]
    ensures s[|s| - |t|..|s| - |t| + |r|] == r && s[|s| - |t| + |r|..] == t[|r|..]
  {
  }

  lemma TrimIsEmptyIff(s: string)
    ensures Trim(s) == "" <==> Blank(s)
  {
    TrimTakesBlanks(s);
    var start := |s| - |TrimStart(s)|;
    if Trim(s) == "" {
      assert s == s[..start] + s[start..];
    } else {
      assert s[start] == Trim(s)[0];
    }
  }

  lemma Associative<T>(a: seq<T>, b: seq<T>, c: seq<T>)
    ensures a + (b + c) == (a + b) + c
  {
  }

  lemma Bracketed(open: string, body: string, close: string, rest: string)
    ensures (open + (body + close)) + rest == open + (body + (close + rest))
  {
    Associative(open, body + close, rest);
    Associative(body, close, rest);
  }

  lemma SplitAt(s: string, i: nat)
    requires i <= |s|
    ensures s == s[..i] + s[i..]
  {
  }

  lemma PrefixOfSplit(s: string, i: nat, n: nat)
    requires i + n <= |s|
    ensures s[..i + n] == s[..i] + s[i..][..n]
  {
  }

  predicate IsSuffix(r: string, s: string) {
    |r| <= |s| && r == s[|s| - |r|..]
  }

  lemma SuffixTransitive(a: string, b: string, c: string)
    requires IsSuffix(a, b) && IsSuffix(b, c)
    ensures IsSuffix(a, c)
  {
  }

  lemma DropIsSuffix(s: string, n: nat)
    requires n <= |s|
    ensures IsSuffix(s[n..], s)
  {
  }

  // ------------------------------------------------------------------ search

  predicate OccursAt(s: string, pattern: string, i: nat) {
    i + |pattern| <= |s| && s[i..i + |pattern|] == pattern
  }

  lemma Mismatch(s: string, pattern: string, i: nat, k: nat)
    requires k < |pattern| && i + k < |s| && s[i + k] != pattern[k]
    ensures !OccursAt(s, pattern, i)
  {
    if i + |pattern| <= |s| {
      assert s[i..i + |pattern|][k] == s[i + k];
    }
  }

  // Index of the first occurrence (`str::find`).
  function Find(s: string, pattern: string): (r: Option<nat>)
    ensures r.Some? ==> OccursAt(s, pattern, r.value) && forall i: nat | i < r.value :: !OccursAt(s, pattern, i)
    ensures r.None? ==> forall i: nat :: !OccursAt(s, pattern, i)
  {
    FindFrom(s, pattern, 0)
  }

  function FindFrom(s: string, pattern: string, start: nat): (r: Option<nat>)
    requires start <= |s| + 1
    ensures r.Some? ==> start <= r.value && OccursAt(s, pattern, r.value)
    ensures r.Some? ==> forall i: nat | start <= i < r.value :: !OccursAt(s, pattern, i)
    ensures r.None? ==> forall i: nat | start <= i :: !OccursAt(s, pattern, i)
    decreases |s| + 1 - start
  {
    if start > |s| then None
    else if OccursAt(s, pattern, start) then Some(start)
    else FindFrom(s, pattern, start + 1)
  }

  predicate Contains(s: string, pattern: string) {
    Find(s, pattern).Some?
  }

  lemma FindIs(s: string, pattern: string, i: nat)
    requires OccursAt(s, pattern, i) && forall k: nat | k < i :: !OccursAt(s, pattern, k)
    ensures Find(s, pattern) == Some(i)
  {
  }

  // ------------------------------------------------------------ UTF-8 offsets

  function Utf8Length(c: char): nat {
    if c < '\U{0080}' then 1 else if c < '\U{0800}' then 2 else if c < '\U{10000}' then 3 else 4
  }

  function ByteLength(s: string): nat {
    if s == [] then 0 else Utf8Length(s[0]) + ByteLength(s[1..])
  }

  lemma {:induction false} ByteLengthAppend(a: string, b: string)
    ensures ByteLength(a + b) == ByteLength(a) + ByteLength(b)
  {
    if a == [] {
      assert a + b == b;
    } else {
      assert (a + b)[1..] == a[1..] + b;
      ByteLengthAppend(a[1..], b);
    }
  }

  // The bytes of a character after section 3 of RFC 3629.
  function Utf8(c: char): seq<int> {
    var n := c as int;
    if n < 0x80 then [n]
    else if n < 0x800 then [0xC0 + n / 0x40, Continuation(n)]
    else if n < 0x1_0000 then [0xE0 + n / 0x1000, Continuation(n / 0x40), Continuation(n)]
    else [0xF0 + n / 0x4_0000, Continuation(n / 0x1000), Continuation(n / 0x40), Continuation(n)]
  }

  function Continuation(n: int): int {
    0x80 + n % 0x40
  }

  function Utf8Text(s: string): seq<int> {
    if s == [] then [] else Utf8(s[0]) + Utf8Text(s[1..])
  }

  // The number that the first character of a byte text stands for, and how many
  // bytes it takes: its first byte tells.
  function FirstCharacter(bytes: seq<int>): (int, nat)
    requires bytes != []
  {
    var lead := bytes[0];
    if lead >= 0xF0 && |bytes| >= 4 then
      ((lead - 0xF0) * 0x4_0000 + (bytes[1] - 0x80) * 0x1000 + (bytes[2] - 0x80) * 0x40 + (bytes[3] - 0x80), 4)
    else if lead >= 0xE0 && |bytes| >= 3 then ((lead - 0xE0) * 0x1000 + (bytes[1] - 0x80) * 0x40 + (bytes[2] - 0x80), 3)
    else if lead >= 0xC0 && |bytes| >= 2 then ((lead - 0xC0) * 0x40 + (bytes[1] - 0x80), 2)
    else (lead, 1)
  }

  lemma Utf8IsRead(c: char, rest: seq<int>)
    ensures FirstCharacter(Utf8(c) + rest) == (c as int, Utf8Length(c))
  {
    var n := c as int;
    SixBits(n);
    SixBits(n / 0x40);
    SixBits(n / 0x1000);
    var bytes := Utf8(c) + rest;
    assert forall i | 0 <= i < |Utf8(c)| :: bytes[i] == Utf8(c)[i];
    LeadTells(n);
  }

  lemma SixBits(n: nat)
    ensures n == n / 0x40 * 0x40 + (Continuation(n) - 0x80)
    ensures n / 0x40 / 0x40 == n / 0x1000 && n / 0x1000 / 0x40 == n / 0x4_0000
  {
  }

  lemma LeadTells(n: nat)
    requires n < 0x11_0000
    ensures n < 0x800 ==> n / 0x40 < 0x20
    ensures n < 0x1_0000 ==> n / 0x1000 < 0x10
    ensures n / 0x4_0000 < 8
  {
  }

  lemma {:induction false} ByteLengthIsUtf8(s: string)
    ensures ByteLength(s) == |Utf8Text(s)|
  {
    if s != [] {
      ByteLengthIsUtf8(s[1..]);
    }
  }
}
