/** What the text of an escape stands for (src/cJSON.c:161-201), with the text
    written from the number: section 7 of RFC 8259. */
module JsonEscapes {
  import opened JsonText
  import opened JsonParse
  import opened JsonRoundTrip
  import opened JsonUnicode

  // ----- four hexadecimal digits

  function HexChar(n: nat, upper: bool): char
    requires n < 16
  {
    if upper then "0123456789ABCDEF"[n] else "0123456789abcdef"[n]
  }

  /** A code unit in four digits, each in either case. */
  function HexText(u: nat, upper: seq<bool>): string
    requires u < 0x10000 && |upper| == 4
  {
    [HexChar(u / 4096, upper[0]), HexChar(u / 256 % 16, upper[1]), HexChar(u / 16 % 16, upper[2]), HexChar(u % 16, upper[3])]
  }

  lemma HexCharValue(n: nat, upper: bool)
    requires n < 16
    ensures HexValue(HexChar(n, upper)) == n
  {
    if n < 8 {
      if n < 4 { assert n == 0 || n == 1 || n == 2 || n == 3; } else { assert n == 4 || n == 5 || n == 6 || n == 7; }
    } else {
      if n < 12 { assert n == 8 || n == 9 || n == 10 || n == 11; } else { assert n == 12 || n == 13 || n == 14 || n == 15; }
    }
  }

  lemma Base16(u: nat)
    requires u < 0x10000
    ensures u / 4096 < 16 && u == u / 4096 * 4096 + u / 256 % 16 * 256 + u / 16 % 16 * 16 + u % 16
  {
    var v, w := u / 16, u / 256;
    assert u == 16 * v + u % 16 && v == 16 * (v / 16) + v % 16 && v / 16 == w;
    assert w == 16 * (w / 16) + w % 16 && w / 16 == u / 4096;
  }

  /** Four digits are read as the number they are written from. */
  lemma HexTextRead(u: nat, upper: seq<bool>, rest: string)
    requires u < 0x10000 && |upper| == 4
    ensures var t := HexText(u, upper) + rest;
      HasHex4(t) && Hex4(t) == u && t[4..] == rest
  {
    var t := HexText(u, upper) + rest;
    Base16(u);
    HexCharValue(u / 4096, upper[0]);
    HexCharValue(u / 256 % 16, upper[1]);
    HexCharValue(u / 16 % 16, upper[2]);
    HexCharValue(u % 16, upper[3]);
    hide HexValue, HexChar;
    assert t[0] == HexChar(u / 4096, upper[0]) && t[1] == HexChar(u / 256 % 16, upper[1]);
    assert t[2] == HexChar(u / 16 % 16, upper[2]) && t[3] == HexChar(u % 16, upper[3]);
    assert t[4..] == rest;
  }

  /** Every digit the parser takes is one of the table. */
  lemma HexCharOf(c: char) returns (upper: bool)
    requires HexValue(c) >= 0
    ensures HexValue(c) < 16 && c == HexChar(HexValue(c), upper)
  {
    upper := 'A' <= c <= 'F';
    var n := HexValue(c);
    if n < 8 {
      if n < 4 { assert n == 0 || n == 1 || n == 2 || n == 3; } else { assert n == 4 || n == 5 || n == 6 || n == 7; }
    } else {
      if n < 12 { assert n == 8 || n == 9 || n == 10 || n == 11; } else { assert n == 12 || n == 13 || n == 14 || n == 15; }
    }
  }

  /** Four digits taken are the text of the number read. */
  lemma HexTextOf(t: string) returns (upper: seq<bool>)
    requires HasHex4(t)
    ensures |upper| == 4 && t == HexText(Hex4(t), upper) + t[4..]
  {
    var a := HexCharOf(t[0]);
    var b := HexCharOf(t[1]);
    var c := HexCharOf(t[2]);
    var d := HexCharOf(t[3]);
    upper := [a, b, c, d];
    HexDigitsOf(HexValue(t[0]), HexValue(t[1]), HexValue(t[2]), HexValue(t[3]), Hex4(t));
    hide HexValue, HexChar;
  }

  lemma HexDigitsOf(a: nat, b: nat, c: nat, d: nat, u: nat)
    requires a < 16 && b < 16 && c < 16 && d < 16 && u == a * 4096 + b * 256 + c * 16 + d
    ensures u / 4096 == a && u / 256 % 16 == b && u / 16 % 16 == c && u % 16 == d
  {
    assert u / 16 == a * 256 + b * 16 + c;
    assert u / 256 == a * 16 + b;
  }

  // ----- escapes

  /** "\\uXXXX" of a code point outside the surrogates is read as its UTF-8. */
  lemma UnicodeText(u: nat, upper: seq<bool>, rest: string)
    requires 0 < u < 0x10000 && |upper| == 4 && !IsHigh(u) && !IsLow(u)
    ensures var one := DecodeOne("\\u" + HexText(u, upper) + rest);
      one.Ok? && one.rest == rest && Utf8Decode(one.value) == (u, |one.value|)
  {
    var t := "\\u" + HexText(u, upper) + rest;
    assert t[2..] == HexText(u, upper) + rest;
    HexTextRead(u, upper, rest);
    BmpEscape(t[2..]);
    hide HexText, Hex4, HasHex4, Utf8Decode;
  }

  /** The halves of a code point beyond the basic plane: section 2.1 of RFC 2781. */
  function High(point: nat): nat
    requires 0x10000 <= point < 0x110000
  {
    0xD800 + (point - 0x10000) / 0x400
  }

  function Low(point: nat): nat
    requires 0x10000 <= point < 0x110000
  {
    0xDC00 + (point - 0x10000) % 0x400
  }

  lemma PairDecode(t: string, v: string, w: string)
    requires HasHex4(t) && IsHigh(Hex4(t)) && t[4..] == v && v == "\\u" + w && HasHex4(w)
    ensures DecodeOne("\\u" + t) == Ok(if IsLow(Hex4(w)) then Utf8(Join(Hex4(t), Hex4(w))) else "", w[4..])
  {
    assert |t| >= 4 && |w| >= 4;
    hide Hex4, HasHex4, Join, Utf8;
    assert ("\\u" + t)[2..] == t;
    assert v[2..] == w && v[6..] == w[4..];
  }

  /** A surrogate pair is read as the UTF-8 of its code point if the code point lies
      in an odd plane; otherwise as that of the code point one plane below. */
  lemma PairText(point: nat, upper: seq<bool>, upper2: seq<bool>, rest: string)
    requires 0x10000 <= point < 0x110000 && |upper| == |upper2| == 4
    ensures High(point) < 0x10000 && Low(point) < 0x10000
    ensures var one := DecodeOne("\\u" + HexText(High(point), upper) + "\\u" + HexText(Low(point), upper2) + rest);
      && one.Ok? && one.rest == rest
      && Utf8Decode(one.value) == (if point / 0x10000 % 2 == 1 then point else point - 0x10000, 4)
  {
    hide *;
    PairJoin(point);
    var h, l := HexText(High(point), upper), HexText(Low(point), upper2);
    var v := if point / 0x10000 % 2 == 1 then point else point - 0x10000;
    var u := "\\u" + (l + rest);
    HexTextRead(High(point), upper, u);
    HexTextRead(Low(point), upper2, rest);
    Regroup("\\u" + h + "\\u", l, rest);
    Regroup("\\u" + h, "\\u", l + rest);
    Regroup("\\u", h, u);
    PairDecode(h + u, u, l + rest);
    Utf8IsRfc3629(v, "");
    assert Utf8(v) + "" == Utf8(v);
    Utf8Long(v);
  }

  lemma Utf8Long(u: nat)
    requires 0x10000 <= u < 0x200000
    ensures |Utf8(u)| == 4
  {
  }

  lemma PairJoin(point: nat)
    requires 0x10000 <= point < 0x110000
    ensures IsHigh(High(point)) && IsLow(Low(point)) && High(point) < 0x10000 && Low(point) < 0x10000
    ensures point / 0x10000 % 2 == 0 ==> point >= 0x20000
    ensures !IsHigh(point) && !IsLow(point)
    ensures Join(High(point), Low(point)) == if point / 0x10000 % 2 == 1 then point else point - 0x10000
  {
    var x := point - 0x10000;
    assert x == x / 0x400 * 0x400 + x % 0x400 && x / 0x400 < 0x400;
    assert High(point) % 1024 == x / 0x400 && Low(point) % 1024 == x % 0x400;
    assert x / 0x10000 + 1 == point / 0x10000;
  }

  /** What is dropped: a null, a low half, a high half on its own, and a high half with what follows it. */
  lemma DroppedText(u: nat, upper: seq<bool>, rest: string)
    requires u < 0x10000 && |upper| == 4
    requires u == 0 || IsLow(u) || (IsHigh(u) && !("\\u" <= rest))
    ensures DecodeOne("\\u" + HexText(u, upper) + rest) == Ok("", rest)
  {
    var t := "\\u" + HexText(u, upper) + rest;
    assert t[2..] == HexText(u, upper) + rest;
    HexTextRead(u, upper, rest);
    assert Head(rest) == '\\' && Head(rest[1..]) == 'u' ==> rest == "\\u" + rest[2..];
    hide HexText, Hex4, HasHex4;
  }

  lemma DroppedPair(u: nat, upper: seq<bool>, u2: nat, upper2: seq<bool>, rest: string)
    requires u < 0x10000 && u2 < 0x10000 && |upper| == |upper2| == 4 && IsHigh(u) && !IsLow(u2)
    ensures DecodeOne("\\u" + HexText(u, upper) + "\\u" + HexText(u2, upper2) + rest) == Ok("", rest)
  {
    hide *;
    var h, l := HexText(u, upper), HexText(u2, upper2);
    var v := "\\u" + (l + rest);
    HexTextRead(u, upper, v);
    HexTextRead(u2, upper2, rest);
    Regroup("\\u" + h + "\\u", l, rest);
    Regroup("\\u" + h, "\\u", l + rest);
    Regroup("\\u", h, v);
    PairDecode(h + v, v, l + rest);
  }

  /** The two-character escapes, as bytes: section 7 of RFC 8259; any other letter stands for itself. */
  function LetterByte(c: char): char {
    if c == 'b' then 8 as char
    else if c == 't' then 9 as char
    else if c == 'n' then 10 as char
    else if c == 'f' then 12 as char
    else if c == 'r' then 13 as char
    else c
  }

  lemma LetterText(c: char, rest: string)
    requires c != '\0' && c != 'u'
    ensures DecodeOne("\\" + [c] + rest) == Ok([LetterByte(c)], rest)
  {
    var t := "\\" + [c] + rest;
    assert t[2..] == rest;
  }

  /** The escapes of a quote, a backslash and a solidus. */
  lemma PunctuationText(rest: string)
    ensures DecodeOne("\\\"" + rest) == Ok("\"", rest) && DecodeOne("\\\\" + rest) == Ok("\\", rest)
    ensures DecodeOne("\\/" + rest) == Ok("/", rest)
  {
    assert ("\\\"" + rest)[2..] == rest && ("\\\\" + rest)[2..] == rest && ("\\/" + rest)[2..] == rest;
  }
}
