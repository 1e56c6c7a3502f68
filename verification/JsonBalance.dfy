// The scanner `find_json_end` on any text, well-formed or not: braces outside
// strings are counted, and the first one that balances is the end.
module JsonBalance {
  import opened Wrappers
  import opened Text
  import opened JsonScanner

  datatype Piece = Brace(open: bool) | Quoted(chars: seq<StringChar>) | Other(c: char)

  // A character of a string, or a backslash and whatever follows it.
  predicate Scannable(ch: StringChar) {
    match ch
    case Plain(c) => c != '"' && c != '\\'
    case Escaped(_) => true
    case Unicode(_, _, _, _) => false
  }

  predicate AllScannable(chars: seq<StringChar>) {
    forall i | 0 <= i < |chars| :: Scannable(chars[i])
  }

  predicate IsPiece(p: Piece) {
    match p
    case Brace(_) => true
    case Quoted(chars) => AllScannable(chars)
    case Other(c) => c != '{' && c != '}' && c != '"'
  }

  predicate ArePieces(ps: seq<Piece>) {
    forall i | 0 <= i < |ps| :: IsPiece(ps[i])
  }

  function PieceText(p: Piece): string {
    match p
    case Brace(open) => if open then "{" else "}"
    case Quoted(chars) => StringText(chars)
    case Other(c) => [c]
  }

  function PiecesText(ps: seq<Piece>): string {
    if ps == [] then "" else PieceText(ps[0]) + PiecesText(ps[1..])
  }

  // A string that does not end, the last backslash of which may stand alone.
  predicate IsOpenString(tail: string, chars: seq<StringChar>, slash: bool) {
    AllScannable(chars) && tail == "\"" + (CharsText(chars) + if slash then "\\" else "")
  }

  ghost predicate IsTail(tail: string) {
    tail == "" || exists chars, slash :: IsOpenString(tail, chars, slash)
  }

  // Opening braces less closing ones.
  function Rise(p: Piece): int {
    if p.Brace? then (if p.open then 1 else -1) else 0
  }

  function Balance(ps: seq<Piece>): int {
    if ps == [] then 0 else Rise(ps[0]) + Balance(ps[1..])
  }

  predicate PositiveUpTo(ps: seq<Piece>, n: nat, depth: int)
    requires n <= |ps|
  {
    forall i | 1 <= i <= n :: depth + Balance(ps[..i]) > 0
  }

  // ------------------------------------------------------- piece by piece

  lemma {:induction false} ScannableCharsPass(chars: seq<StringChar>, depth: int)
    requires AllScannable(chars)
    ensures Passes(CharsText(chars), Inside(depth))
  {
    if chars == [] {
      QuietPasses("", Inside(depth));
    } else {
      match chars[0] {
        case Plain(c) => QuietPasses([c], Inside(depth));
        case Escaped(c) => EscapePasses(c, depth);
        case Unicode(_, _, _, _) => assert false;
      }
      ScannableCharsPass(chars[1..], depth);
      PassesConcat(CharText(chars[0]), CharsText(chars[1..]), Inside(depth));
    }
  }

  lemma PieceMoves(p: Piece, depth: int)
    requires IsPiece(p) && depth + Rise(p) > 0
    ensures Moves(PieceText(p), Outside(depth), Outside(depth + Rise(p)))
  {
    match p
    case Brace(open) => MovesChar(PieceText(p), Outside(depth));
    case Other(c) => MovesChar([c], Outside(depth));
    case Quoted(chars) =>
      ScannableCharsPass(chars, depth);
      MovesChar("\"", Outside(depth));
      MovesChar("\"", Inside(depth));
      MovesConcat(CharsText(chars), "\"", Inside(depth), Inside(depth), Outside(depth));
      MovesConcat("\"", CharsText(chars) + "\"", Outside(depth), Inside(depth), Outside(depth));
  }

  lemma PositiveTail(ps: seq<Piece>, depth: int)
    requires ps != [] && PositiveUpTo(ps, |ps|, depth)
    ensures depth + Rise(ps[0]) > 0 && PositiveUpTo(ps[1..], |ps| - 1, depth + Rise(ps[0]))
  {
    assert ps[..1] == [ps[0]] && Balance(ps[..1]) == Rise(ps[0]) + Balance(ps[..1][1..]);
    forall i | 1 <= i <= |ps| - 1
      ensures depth + Rise(ps[0]) + Balance(ps[1..][..i]) > 0
    {
      assert ps[..i + 1][1..] == ps[1..][..i];
      assert depth + Balance(ps[..i + 1]) > 0;
    }
  }

  lemma {:induction false} PiecesMove(ps: seq<Piece>, depth: int)
    requires ArePieces(ps) && PositiveUpTo(ps, |ps|, depth)
    ensures Moves(PiecesText(ps), Outside(depth), Outside(depth + Balance(ps)))
  {
    if ps != [] {
      PositiveTail(ps, depth);
      PieceMoves(ps[0], depth);
      PiecesMove(ps[1..], depth + Rise(ps[0]));
      MovesConcat(PieceText(ps[0]), PiecesText(ps[1..]),
                  Outside(depth), Outside(depth + Rise(ps[0])), Outside(depth + Balance(ps)));
    }
  }

  lemma {:induction false} LastPiece(ps: seq<Piece>, p: Piece)
    ensures PiecesText(ps + [p]) == PiecesText(ps) + PieceText(p)
    ensures Balance(ps + [p]) == Balance(ps) + Rise(p)
  {
    if ps == [] {
      assert ps + [p] == [p];
    } else {
      assert (ps + [p])[1..] == ps[1..] + [p];
      LastPiece(ps[1..], p);
      Associative(PieceText(ps[0]), PiecesText(ps[1..]), PieceText(p));
    }
  }

  // -------------------------------------------------------- the three cases

  lemma StartsWithBrace(ps: seq<Piece>, rest: string)
    requires ps != [] && ps[0] == Brace(true)
    ensures "{" <= PiecesText(ps) + rest
  {
  }

  // The end is behind the first brace with as many opening as closing ones up to
  // it.
  lemma FirstBalanceIsTheEnd(blank: string, ps: seq<Piece>, rest: string)
    requires Blank(blank) && ArePieces(ps) && ps != [] && ps[0] == Brace(true)
    requires PositiveUpTo(ps, |ps| - 1, 0) && Balance(ps) == 0
    ensures JsonEnd(blank + (PiecesText(ps) + rest)) == Some(|blank| + |PiecesText(ps)|)
  {
    ScanFindsBalance(ps, rest);
    StartsWithBrace(ps, rest);
    ObjectAfterBlank(blank, PiecesText(ps) + rest);
  }

  lemma ScanFindsBalance(ps: seq<Piece>, rest: string)
    requires ArePieces(ps) && ps != [] && ps[0] == Brace(true) && PositiveUpTo(ps, |ps| - 1, 0) && Balance(ps) == 0
    ensures ScanEnd(PiecesText(ps) + rest, Outside(0)) == Some(|PiecesText(ps)|)
  {
    var init := BeforeLast(ps);
    PiecesMove(init, 0);
    LastPiece(init, Brace(false));
    ClosesAtBrace(PiecesText(init), Outside(0), rest);
    Associative(PiecesText(init), "}", rest);
  }

  lemma BeforeLast(ps: seq<Piece>) returns (init: seq<Piece>)
    requires ArePieces(ps) && ps != [] && ps[0] == Brace(true) && PositiveUpTo(ps, |ps| - 1, 0) && Balance(ps) == 0
    ensures ArePieces(init) && ps == init + [Brace(false)] && PositiveUpTo(init, |init|, 0) && Balance(init) == 1
  {
    var n := |ps| - 1;
    init := ps[..n];
    assert ps == init + [ps[n]];
    LastPiece(init, ps[n]);
    PositivePrefix(ps, n);
  }

  lemma PositivePrefix(ps: seq<Piece>, n: nat)
    requires n <= |ps| && PositiveUpTo(ps, n, 0)
    ensures PositiveUpTo(ps[..n], n, 0) && (n > 0 ==> Balance(ps[..n]) > 0)
  {
    assert forall i | 1 <= i <= n :: ps[..n][..i] == ps[..i];
  }

  // Without such a brace there is no end.
  lemma NoBalanceNoEnd(blank: string, ps: seq<Piece>, tail: string)
    requires Blank(blank) && ArePieces(ps) && ps != [] && ps[0] == Brace(true)
    requires PositiveUpTo(ps, |ps|, 0) && IsTail(tail)
    ensures JsonEnd(blank + (PiecesText(ps) + tail)) == None
  {
    ScanFindsNothing(ps, tail);
    StartsWithBrace(ps, tail);
    ObjectAfterBlank(blank, PiecesText(ps) + tail);
  }

  lemma ScanFindsNothing(ps: seq<Piece>, tail: string)
    requires ArePieces(ps) && PositiveUpTo(ps, |ps|, 0) && IsTail(tail)
    ensures ScanEnd(PiecesText(ps) + tail, Outside(0)) == None
  {
    PiecesMove(ps, 0);
    var end := TailMoves(tail, Balance(ps));
    MovesConcat(PiecesText(ps), tail, Outside(0), Outside(Balance(ps)), end);
    OpenAtEnd(PiecesText(ps) + tail, Outside(0), end);
  }

  lemma TailMoves(tail: string, depth: int) returns (end: State)
    requires IsTail(tail)
    ensures Moves(tail, Outside(depth), end)
  {
    if tail == "" {
      end := Outside(depth);
    } else {
      var chars, slash :| IsOpenString(tail, chars, slash);
      OpenStringMoves(tail, chars, slash, depth);
      end := Inside(depth).(escapeNext := slash);
    }
  }

  lemma OpenStringMoves(tail: string, chars: seq<StringChar>, slash: bool, depth: int)
    requires IsOpenString(tail, chars, slash)
    ensures Moves(tail, Outside(depth), Inside(depth).(escapeNext := slash))
  {
    var end := Inside(depth).(escapeNext := slash);
    ScannableCharsPass(chars, depth);
    MovesChar("\"", Outside(depth));
    if slash {
      MovesChar("\\", Inside(depth));
      MovesConcat(CharsText(chars), "\\", Inside(depth), Inside(depth), end);
      MovesConcat("\"", CharsText(chars) + "\\", Outside(depth), Inside(depth), end);
    } else {
      assert CharsText(chars) + "" == CharsText(chars);
      MovesConcat("\"", CharsText(chars), Outside(depth), Inside(depth), end);
    }
  }

  // Text that starts with anything else has no end either.
  lemma OnlyBracesStart(blank: string, rest: string)
    requires Blank(blank) && (rest == "" || (!IsWhitespace(rest[0]) && rest[0] != '{'))
    ensures JsonEnd(blank + rest) == None
  {
    TrimStartSkipsBlank(blank, rest);
    assert TrimStart(rest) == rest && !("{" <= rest);
  }

  // ------------------------------------------- every text is covered by these

  lemma {:induction false} StringPart(s: string) returns (chars: seq<StringChar>, closed: bool, slash: bool, rest: string)
    ensures AllScannable(chars)
    ensures s == CharsText(chars) + if closed then "\"" + rest else if slash then "\\" else ""
    ensures |rest| <= |s|
    decreases |s|
  {
    if s == "" {
      chars, closed, slash, rest := [], false, false, "";
    } else if s[0] == '"' {
      chars, closed, slash, rest := [], true, false, s[1..];
    } else if s == "\\" {
      chars, closed, slash, rest := [], false, true, "";
    } else {
      var (ch, n) := if s[0] == '\\' then (Escaped(s[1]), 2) else (Plain(s[0]), 1);
      assert s == CharText(ch) + s[n..];
      var more;
      more, closed, slash, rest := StringPart(s[n..]);
      chars := [ch] + more;
      Associative(CharText(ch), CharsText(more), if closed then "\"" + rest else if slash then "\\" else "");
    }
  }

  lemma {:induction false} EveryTextIsPieces(s: string) returns (ps: seq<Piece>, tail: string)
    ensures ArePieces(ps) && IsTail(tail) && s == PiecesText(ps) + tail
    decreases |s|
  {
    if s == "" {
      ps, tail := [], "";
    } else if s[0] == '"' {
      var chars, closed, slash, rest := StringPart(s[1..]);
      if closed {
        var more;
        more, tail := EveryTextIsPieces(rest);
        ps := [Quoted(chars)] + more;
        Bracketed("\"", CharsText(chars), "\"", PiecesText(more) + tail);
        Associative(StringText(chars), PiecesText(more), tail);
        assert s == "\"" + s[1..];
      } else {
        ps, tail := [], s;
        assert IsOpenString(tail, chars, slash);
        assert PiecesText([]) + s == s;
      }
    } else {
      var p := if s[0] == '{' then Brace(true) else if s[0] == '}' then Brace(false) else Other(s[0]);
      var more;
      more, tail := EveryTextIsPieces(s[1..]);
      ps := [p] + more;
      assert s == PieceText(p) + s[1..];
      Associative(PieceText(p), PiecesText(more), tail);
    }
  }
}
