/** The \u escapes of parse_string against UTF-8 (section 3 of RFC 3629) and
    UTF-16 surrogates (section 2.2 of RFC 2781). */
module JsonUnicode {
  import opened JsonText
  import opened JsonParse

  // ----- RFC 3629

  predicate IsTail(c: char) {
    0x80 <= c as int <= 0xBF
  }

  function Bits(c: char): nat {
    c as int % 64
  }

  /** The code point of the UTF-8 sequence at the head of a text, with its
      length; 0 bytes if there is none.  Only shortest forms count. */
  function Utf8Decode(t: string): (nat, nat) {
    if t == "" then (0, 0)
    else
      var c := t[0] as int;
      if c < 0x80 then (c, 1)
      else if 0xC2 <= c <= 0xDF && |t| >= 2 && IsTail(t[1]) then
        ((c - 0xC0) * 64 + Bits(t[1]), 2)
      else if 0xE0 <= c <= 0xEF && |t| >= 3 && IsTail(t[1]) && IsTail(t[2]) then
        var u := (c - 0xE0) * 4096 + Bits(t[1]) * 64 + Bits(t[2]);
        if u >= 0x800 && !(0xD800 <= u <= 0xDFFF) then (u, 3) else (0, 0)
      else if 0xF0 <= c <= 0xF4 && |t| >= 4 && IsTail(t[1]) && IsTail(t[2]) && IsTail(t[3]) then
        var u := (c - 0xF0) * 0x40000 + Bits(t[1]) * 4096 + Bits(t[2]) * 64 + Bits(t[3]);
        if 0x10000 <= u <= 0x10FFFF then (u, 4) else (0, 0)
      else (0, 0)
  }

  lemma TailBits(u: nat)
    ensures IsTail(Continuation(u)) && Bits(Continuation(u)) == u % 64
  {
  }

  /** Base-64 digits of a number. */
  lemma Base64(u: nat)
    ensures u == u / 64 * 64 + u % 64
    ensures u == u / 4096 * 4096 + u / 64 % 64 * 64 + u % 64
    ensures u == u / 0x40000 * 0x40000 + u / 4096 % 64 * 4096 + u / 64 % 64 * 64 + u % 64
  {
    var v := u / 64;
    var w := v / 64;
    assert u == 64 * v + u % 64 && v == 64 * w + v % 64 && w == 64 * (w / 64) + w % 64;
    assert w == u / 4096;
    assert w / 64 == u / 0x40000;
  }

  /** Every Unicode scalar value is encoded as RFC 3629 decodes it. */
  lemma Utf8IsRfc3629(u: nat, rest: string)
    requires u <= 0x10FFFF && !(0xD800 <= u <= 0xDFFF)
    ensures Utf8Decode(Utf8(u) + rest) == (u, |Utf8(u)|)
  {
    var b, t := Utf8(u), Utf8(u) + rest;
    assert forall i :: 0 <= i < |b| ==> t[i] == b[i];
    Base64(u);
    TailBits(u);
    TailBits(u / 64);
    TailBits(u / 4096);
    hide Continuation, IsTail, Bits;
    if u < 0x80 {
      assert t[0] == u as char;
    } else if u < 0x800 {
      assert t[0] as int == 0xC0 + u / 64 && t[1] == Continuation(u);
    } else if u < 0x10000 {
      assert t[0] as int == 0xE0 + u / 4096 && t[1] == Continuation(u / 64) && t[2] == Continuation(u);
    } else {
      assert t[0] as int == 0xF0 + u / 0x40000;
      assert t[1] == Continuation(u / 4096) && t[2] == Continuation(u / 64) && t[3] == Continuation(u);
    }
  }

  /** Each complete escape of a non-zero code point outside the surrogates
      yields the UTF-8 of that code point and stops after its four digits. */
  lemma BmpEscape(t: string)
    requires HasHex4(t) && Hex4(t) != 0 && !IsHigh(Hex4(t)) && !IsLow(Hex4(t))
    ensures DecodeUnicode(t).Ok? && DecodeUnicode(t).rest == t[4..]
    ensures Utf8Decode(DecodeUnicode(t).value) == (Hex4(t), |DecodeUnicode(t).value|)
  {
    hide Hex4;
    Utf8IsRfc3629(Hex4(t), "");
    assert Utf8(Hex4(t)) + "" == Utf8(Hex4(t));
  }

  // ----- RFC 2781

  function SurrogateValue(hi: nat, lo: nat): int {
    0x10000 + (hi - 0xD800) * 0x400 + (lo - 0xDC00)
  }

  /** The code joins a surrogate pair correctly exactly when bit 0x40 of the
      high half is clear: it sets bit 16 where it should add 0x10000. */
  lemma JoinIsRfc2781(hi: nat, lo: nat)
    requires IsHigh(hi) && IsLow(lo)
    ensures Join(hi, lo) == SurrogateValue(hi, lo) <==> hi / 0x40 % 2 == 0
  {
  }

  /** U+20000 is written D840 DC00 and comes out as U+10000. */
  lemma JoinLosesPlane2()
    ensures SurrogateValue(0xD840, 0xDC00) == 0x20000 && Join(0xD840, 0xDC00) == 0x10000
  {
  }

  /** A surrogate pair with bit 0x40 of the high half clear yields the UTF-8 of its code point. */
  lemma PairEscape(t: string)
    requires HasHex4(t) && IsHigh(Hex4(t)) && |t| >= 12 && t[4] == '\\' && t[5] == 'u'
    requires HasHex4(t[6..]) && IsLow(Hex4(t[6..])) && Hex4(t) / 0x40 % 2 == 0
    ensures DecodeUnicode(t).Ok? && DecodeUnicode(t).rest == t[10..]
    ensures Utf8Decode(DecodeUnicode(t).value) == (SurrogateValue(Hex4(t), Hex4(t[6..])), 4)
  {
    hide Hex4, Utf8Decode;
    var hi, lo := Hex4(t), Hex4(t[6..]);
    assert t[4..][2..] == t[6..] && t[4..][6..] == t[10..];
    JoinIsRfc2781(hi, lo);
    Utf8IsRfc3629(Join(hi, lo), "");
    assert Utf8(Join(hi, lo)) + "" == Utf8(Join(hi, lo));
  }
}
