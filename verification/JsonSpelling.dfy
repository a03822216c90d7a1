/** The strings that the parser takes, as spellings: every spelling is read as
    what it means, and whatever is read has a spelling (src/cJSON.c:150-207). */
module JsonSpelling {
  import opened JsonText
  import opened JsonParse
  import opened JsonRoundTrip
  import opened JsonEscapes

  // ----- strings

  /** A piece of a string: a plain byte, an escaped letter, or a code unit in hexadecimal. */
  datatype Piece = Raw(c: char) | Letter(c: char) | Unit(u: nat, upper: seq<bool>)

  predicate PieceOk(p: Piece) {
    match p
    case Raw(c) => c != '\0' && c != '\"' && c != '\\'
    case Letter(c) => c != '\0' && c != 'u'
    case Unit(u, upper) => u < 0x10000 && |upper| == 4
  }

  function PieceText(p: Piece): string
    requires PieceOk(p)
  {
    match p
    case Raw(c) => [c]
    case Letter(c) => "\\" + [c]
    case Unit(u, upper) => "\\u" + HexText(u, upper)
  }

  predicate PiecesOk(ps: seq<Piece>) {
    forall i :: 0 <= i < |ps| ==> PieceOk(ps[i])
  }

  function PiecesText(ps: seq<Piece>): string
    requires PiecesOk(ps)
  {
    if ps == [] then "" else PieceText(ps[0]) + PiecesText(ps[1..])
  }

  /** A high half takes the code unit behind it. */
  predicate Paired(ps: seq<Piece>) {
    |ps| >= 2 && ps[0].Unit? && IsHigh(ps[0].u) && ps[1].Unit?
  }

  /** The bytes of one piece that is not the first of a pair. */
  function PieceBytes(p: Piece): string
    requires PieceOk(p)
  {
    match p
    case Raw(c) => [c]
    case Letter(c) => [LetterByte(c)]
    case Unit(u, _) => if u == 0 || IsLow(u) || IsHigh(u) then "" else Utf8(u)
  }

  /** The bytes a string means. */
  function Bytes(ps: seq<Piece>): string
    requires PiecesOk(ps)
  {
    if ps == [] then ""
    else if Paired(ps) then (if IsLow(ps[1].u) then Utf8(Join(ps[0].u, ps[1].u)) else "") + Bytes(ps[2..])
    else PieceBytes(ps[0]) + Bytes(ps[1..])
  }

  lemma NoEscapeBehind(ps: seq<Piece>, rest: string)
    requires PiecesOk(ps) && !("\\u" <= rest)
    ensures (|ps| >= 1 && ps[0].Unit?) || !("\\u" <= PiecesText(ps) + rest)
  {
    var t := PiecesText(ps) + rest;
    if ps == [] {
      assert t == rest;
    } else if !ps[0].Unit? {
      assert t[0] == PieceText(ps[0])[0];
      assert ps[0].Letter? ==> t[1] == ps[0].c;
    }
  }

  /** One turn of the decoding loop reads one piece. */
  lemma PieceRead(p: Piece, rest: string)
    requires PieceOk(p) && (p.Unit? && IsHigh(p.u) ==> !("\\u" <= rest))
    ensures DecodeOne(PieceText(p) + rest) == Ok(PieceBytes(p), rest)
    ensures Head(PieceText(p) + rest) != '\0' && Head(PieceText(p) + rest) != '\"'
  {
    var t := PieceText(p) + rest;
    match p {
      case Raw(c) => assert t[1..] == rest;
      case Letter(c) => LetterText(c, rest);
      case Unit(u, upper) =>
        if u == 0 || IsLow(u) || IsHigh(u) {
          DroppedText(u, upper, rest);
        } else {
          assert t[2..] == HexText(u, upper) + rest;
          HexTextRead(u, upper, rest);
          hide HexText, Hex4, HasHex4;
        }
    }
  }

  lemma PairRead(p: Piece, q: Piece, rest: string)
    requires PieceOk(p) && PieceOk(q) && Paired([p, q])
    ensures var t := PieceText(p) + (PieceText(q) + rest);
      && DecodeOne(t) == Ok(if IsLow(q.u) then Utf8(Join(p.u, q.u)) else "", rest)
      && Head(t) == '\\'
  {
    var h, l := HexText(p.u, p.upper), HexText(q.u, q.upper);
    var v := "\\u" + (l + rest);
    HexTextRead(p.u, p.upper, v);
    HexTextRead(q.u, q.upper, rest);
    assert PieceText(p) == "\\u" + h && PieceText(q) == "\\u" + l;
    hide *;
    Regroup("\\u", l, rest);
    Regroup("\\u", h, v);
    PairDecode(h + v, v, l + rest);
    EscapeHead(h + v);
  }

  lemma EscapeHead(t: string)
    ensures Head("\\u" + t) == '\\'
  {
  }

  /** A spelling: the pieces, and whether the closing quote is there. */
  datatype Spelling = Spelling(pieces: seq<Piece>, closed: bool)

  predicate SpellingOk(s: Spelling) {
    PiecesOk(s.pieces)
  }

  function SpellingText(s: Spelling): string
    requires SpellingOk(s)
  {
    "\"" + PiecesText(s.pieces) + Quote(s.closed)
  }

  function Quote(closed: bool): string {
    if closed then "\"" else ""
  }

  lemma OneThen(ps: seq<Piece>, end: string)
    requires PiecesOk(ps) && ps != []
    ensures PiecesText(ps) + end == PieceText(ps[0]) + (PiecesText(ps[1..]) + end)
  {
    hide PieceText;
    Regroup(PieceText(ps[0]), PiecesText(ps[1..]), end);
  }

  lemma TurnThen(t: string, one: string, more: string)
    requires Head(t) != '\0' && Head(t) != '\"' && DecodeOne(t) == Ok(one, more) && DecodeBody(more).Ok?
    ensures DecodeBody(t) == Ok(one + DecodeBody(more).value, DecodeBody(more).rest)
  {
    hide DecodeOne;
  }

  lemma PairStep(ps: seq<Piece>, end: string)
    requires PiecesOk(ps) && Paired(ps) && DecodeBody(PiecesText(ps[2..]) + end).Ok?
    requires DecodeBody(PiecesText(ps[2..]) + end).value == Bytes(ps[2..])
    ensures DecodeBody(PiecesText(ps) + end) == Ok(Bytes(ps), DecodeBody(PiecesText(ps[2..]) + end).rest)
  {
    var more := PiecesText(ps[2..]) + end;
    assert ps[1..][1..] == ps[2..] && ps[1..][0] == ps[1];
    OneThen(ps, end);
    OneThen(ps[1..], end);
    PairRead(ps[0], ps[1], more);
    var t := PieceText(ps[0]) + (PieceText(ps[1]) + more);
    hide PieceText, PiecesText, DecodeOne, DecodeBody, Join, Utf8;
    TurnThen(t, if IsLow(ps[1].u) then Utf8(Join(ps[0].u, ps[1].u)) else "", more);
  }

  lemma PieceStep(ps: seq<Piece>, end: string)
    requires PiecesOk(ps) && ps != [] && !Paired(ps) && !("\\u" <= end) && DecodeBody(PiecesText(ps[1..]) + end).Ok?
    requires DecodeBody(PiecesText(ps[1..]) + end).value == Bytes(ps[1..])
    ensures DecodeBody(PiecesText(ps) + end) == Ok(Bytes(ps), DecodeBody(PiecesText(ps[1..]) + end).rest)
  {
    var more := PiecesText(ps[1..]) + end;
    OneThen(ps, end);
    NoEscapeBehind(ps[1..], end);
    assert |ps| > 1 ==> ps[1..][0] == ps[1];
    PieceRead(ps[0], more);
    var t := PieceText(ps[0]) + more;
    hide PieceText, PiecesText, DecodeOne, DecodeBody, PieceBytes;
    TurnThen(t, PieceBytes(ps[0]), more);
  }

  lemma {:induction false} PiecesRead(ps: seq<Piece>, closed: bool, rest: string)
    requires PiecesOk(ps) && (closed || Head(rest) == '\0')
    ensures DecodeBody(PiecesText(ps) + (Quote(closed) + rest)) == Ok(Bytes(ps), rest)
    decreases |ps|
  {
    var end := Quote(closed) + rest;
    if ps == [] {
      assert PiecesText(ps) + end == end;
      assert closed ==> end[1..] == rest;
      assert !closed ==> end == rest;
    } else if Paired(ps) {
      PiecesRead(ps[2..], closed, rest);
      hide PiecesText, DecodeBody, Bytes;
      PairStep(ps, end);
    } else {
      PiecesRead(ps[1..], closed, rest);
      assert closed ==> end[0] == '\"';
      assert !closed ==> end == rest;
      hide PiecesText, DecodeBody, Bytes;
      PieceStep(ps, end);
    }
  }

  lemma SpellingSplit(s: Spelling, rest: string)
    requires SpellingOk(s)
    ensures SpellingText(s) + rest == "\"" + (PiecesText(s.pieces) + (Quote(s.closed) + rest))
  {
    var text := PiecesText(s.pieces);
    assert SpellingText(s) == "\"" + text + Quote(s.closed);
    hide *;
    Regroup("\"" + text, Quote(s.closed), rest);
    Regroup("\"", text, Quote(s.closed) + rest);
  }

  lemma BodyRead(body: string, bytes: string, rest: string)
    requires DecodeBody(body) == Ok(bytes, rest) && Count(body).Ok?
    ensures ParseString("\"" + body) == Ok(bytes, rest)
  {
    hide DecodeBody, Count;
    assert ("\"" + body)[1..] == body;
  }

  /** Every spelling is read as the bytes it means, and reading stops behind it. */
  lemma SpellingRead(s: Spelling, rest: string)
    requires SpellingOk(s) && (s.closed || Head(rest) == '\0')
    ensures ParseString(SpellingText(s) + rest) == Ok(Bytes(s.pieces), rest)
  {
    var body := PiecesText(s.pieces) + (Quote(s.closed) + rest);
    PiecesRead(s.pieces, s.closed, rest);
    EscapesDecide(body);
    PassesAgree(body);
    hide *;
    SpellingSplit(s, rest);
    BodyRead(body, Bytes(s.pieces), rest);
  }

  // ----- whatever is read is spelled

  /** What one turn of the decoding loop consumes is one piece, or a pair. */
  lemma OnePiece(t: string) returns (ps: seq<Piece>)
    requires Head(t) != '\0' && t[0] != '\"' && DecodeOne(t).Ok?
    ensures PiecesOk(ps) && 1 <= |ps| <= 2 && t == PiecesText(ps) + DecodeOne(t).rest
    ensures |ps| == 2 ==> Paired(ps)
    ensures |ps| == 1 && ps[0].Unit? && IsHigh(ps[0].u) ==> !("\\u" <= DecodeOne(t).rest)
  {
    if t[0] != '\\' {
      ps := [Raw(t[0])];
      OneText(ps);
    } else if t[1] != 'u' {
      ps := [Letter(t[1])];
      OneText(ps);
    } else {
      ps := UnicodePiece(t);
    }
  }

  lemma UnicodePiece(t: string) returns (ps: seq<Piece>)
    requires |t| > 1 && t[0] == '\\' && t[1] == 'u' && DecodeOne(t).Ok?
    ensures PiecesOk(ps) && 1 <= |ps| <= 2 && t == PiecesText(ps) + DecodeOne(t).rest
    ensures |ps| == 2 ==> Paired(ps)
    ensures |ps| == 1 && ps[0].Unit? && IsHigh(ps[0].u) ==> !("\\u" <= DecodeOne(t).rest)
  {
    var w := t[2..];
    var upper := HexTextOf(w);
    var u, rest := Hex4(w), w[4..];
    var p := Unit(u, upper);
    assert t == "\\u" + w && PieceText(p) == "\\u" + HexText(u, upper);
    Regroup("\\u", HexText(u, upper), rest);
    if IsHigh(u) && Head(rest) == '\\' && Head(rest[1..]) == 'u' {
      var w2 := rest[2..];
      var upper2 := HexTextOf(w2);
      var q := Unit(Hex4(w2), upper2);
      assert rest == "\\u" + w2 && w2[4..] == rest[6..] && PieceText(q) == "\\u" + HexText(Hex4(w2), upper2);
      assert DecodeOne(t).rest == w2[4..];
      hide HexText, Hex4, HasHex4, DecodeOne, PiecesText;
      ps := [p, q];
      TwoText(p, q);
      Regroup("\\u", HexText(Hex4(w2), upper2), w2[4..]);
      Regroup(PieceText(p), PieceText(q), w2[4..]);
    } else {
      assert DecodeOne(t).rest == rest;
      hide HexText, Hex4, HasHex4, DecodeOne, PiecesText;
      ps := [p];
      OneText(ps);
    }
  }

  lemma OneText(ps: seq<Piece>)
    requires PiecesOk(ps) && |ps| == 1
    ensures PiecesText(ps) == PieceText(ps[0])
  {
    assert ps[1..] == [];
  }

  lemma TwoText(p: Piece, q: Piece)
    requires PieceOk(p) && PieceOk(q)
    ensures PiecesText([p, q]) == PieceText(p) + PieceText(q)
  {
    assert [p, q][1..] == [q];
    OneText([q]);
  }

  lemma {:induction false} TextAppend(a: seq<Piece>, b: seq<Piece>)
    requires PiecesOk(a) && PiecesOk(b)
    ensures PiecesOk(a + b) && PiecesText(a + b) == PiecesText(a) + PiecesText(b)
  {
    if a == [] {
      assert a + b == b;
    } else {
      assert (a + b)[1..] == a[1..] + b;
      TextAppend(a[1..], b);
    }
  }

  /** Whatever is read as a string body is spelled, up to the closing quote or the terminator. */
  lemma {:induction false} BodyIsSpelled(t: string) returns (ps: seq<Piece>, closed: bool)
    requires DecodeBody(t).Ok?
    ensures PiecesOk(ps) && t == PiecesText(ps) + (Quote(closed) + DecodeBody(t).rest)
    ensures closed || Head(DecodeBody(t).rest) == '\0'
    decreases |t|
  {
    if Head(t) == '\0' {
      ps, closed := [], false;
    } else if t[0] == '\"' {
      ps, closed := [], true;
    } else {
      var rest := DecodeOne(t).rest;
      assert DecodeOne(t).Ok? && DecodeBody(rest).Ok? && DecodeBody(t).rest == DecodeBody(rest).rest;
      hide *;
      var one := OnePiece(t);
      var more;
      more, closed := BodyIsSpelled(rest);
      ps := one + more;
      TextAppend(one, more);
      Regroup(PiecesText(one), PiecesText(more), Quote(closed) + DecodeBody(rest).rest);
    }
  }

  /** Whatever is read as a string is a spelling of it. */
  lemma StringIsSpelled(t: string) returns (s: Spelling)
    requires ParseString(t).Ok?
    ensures SpellingOk(s) && (s.closed || Head(ParseString(t).rest) == '\0')
    ensures t == SpellingText(s) + ParseString(t).rest && ParseString(t).value == Bytes(s.pieces)
  {
    var ps, closed := BodyIsSpelled(t[1..]);
    s := Spelling(ps, closed);
    var rest := DecodeBody(t[1..]).rest;
    assert t == "\"" + t[1..] && ParseString(t) == DecodeBody(t[1..]);
    assert SpellingOk(s);
    hide *;
    SpellingSplit(s, rest);
    SpellingRead(s, rest);
  }
}
