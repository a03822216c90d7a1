/** The loops of parse_string and print_string_ptr, with their buffers
    (src/cJSON.c:150-207, :210-243).  Every array write is checked against the
    length that the counting loop computed. */
module JsonStrings {
  import opened JsonText
  import opened JsonParse
  import opened JsonRoundTrip

  /** firstByteMark */
  function FirstByteMark(len: nat): (m: nat)
    requires 1 <= len <= 4
    ensures m <= 0xF0
  {
    if len == 1 then 0 else if len == 2 then 0xC0 else if len == 3 then 0xE0 else 0xF0
  }

  lemma Quotients(u: nat)
    ensures u / 64 / 64 == u / 4096 && u / 64 / 64 / 64 == u / 0x40000
  {
  }

  /** Lines 189-194: the bytes are written from the last one back to the first. */
  method WriteBack(out: array<char>, p: nat, uc: nat) returns (q: nat)
    requires uc < 0x200000 && p + Utf8Length(uc) <= out.Length
    modifies out
    ensures q == p + Utf8Length(uc)
    ensures forall i :: 0 <= i < p ==> out[i] == old(out[i])
    ensures forall i :: 0 <= i < |Utf8(uc)| ==> out[p + i] == Utf8(uc)[i]
  {
    Quotients(uc);
    hide Continuation;
    var len, u := Utf8Length(uc), uc;
    q := p + len;
    if len >= 4 {
      q := q - 1;
      out[q] := Continuation(u);
      u := u / 64;
    }
    if len >= 3 {
      q := q - 1;
      out[q] := Continuation(u);
      u := u / 64;
    }
    if len >= 2 {
      q := q - 1;
      out[q] := Continuation(u);
      u := u / 64;
    }
    q := q - 1;
    out[q] := (u + FirstByteMark(len)) as char;
    q := q + len;
  }

  method WriteUtf8(out: array<char>, p: nat, uc: nat) returns (q: nat)
    requires uc < 0x200000 && p + Utf8Length(uc) <= out.Length
    modifies out
    ensures q == p + Utf8Length(uc) && out[..q] == old(out[..p]) + Utf8(uc)
  {
    hide Utf8;
    q := WriteBack(out, p, uc);
  }

  /** The counting loop: line 155. */
  method CountPass(t: string) returns (r: Parsed<nat>)
    ensures r == Count(t)
  {
    var ptr, len := t, 0;
    while Head(ptr) != '\"' && Head(ptr) != '\0'
      invariant match (Count(t), Count(ptr))
                case (Ok(a, s), Ok(b, s')) => a == len + b && s == s'
                case (Incomplete, Incomplete) => true
                case _ => false
      decreases |ptr|
    {
      len := len + 1;
      if ptr[0] == '\\' {
        if Head(ptr[1..]) == '\0' {
          return Incomplete;
        }
        ptr := ptr[2..];
      } else {
        ptr := ptr[1..];
      }
    }
    return Ok(len, ptr);
  }

  /** One escape: lines 166-199. */
  method DecodeEscape(out: array<char>, p: nat, t: string) returns (q: nat, rest: string, ok: bool)
    requires Head(t) == '\\' && (DecodeOne(t).Ok? ==> p + |DecodeOne(t).value| <= out.Length)
    modifies out
    ensures ok == DecodeOne(t).Ok?
    ensures ok ==> rest == DecodeOne(t).rest && q == p + |DecodeOne(t).value| && out[..q] == old(out[..p]) + DecodeOne(t).value
  {
    q, rest, ok := p, t, true;
    if Head(t[1..]) == '\0' {
      ok := false;
    } else if t[1] != 'u' {
      out[q] := DecodeLetter(t[1]);
      q, rest := q + 1, t[2..];
    } else if !HasHex4(t[2..]) {
      ok := false;
    } else {
      var uc := Hex4(t[2..]);
      rest := t[2..][4..];
      if IsLow(uc) || uc == 0 {
        // dropped
      } else if !IsHigh(uc) {
        q := WriteUtf8(out, q, uc);
      } else if Head(rest) != '\\' || Head(rest[1..]) != 'u' {
        // missing second half of a pair: dropped
      } else if !HasHex4(rest[2..]) {
        ok := false;
      } else {
        var uc2 := Hex4(rest[2..]);
        rest := rest[6..];
        if IsLow(uc2) {
          q := WriteUtf8(out, q, Join(uc, uc2));
        }
      }
    }
  }

  /** The text `t` decodes to `done` followed by what `rest` decodes to. */
  predicate Continues(t: string, done: string, rest: string) {
    match (DecodeBody(t), DecodeBody(rest))
    case (Ok(a, s), Ok(b, s')) => a == done + b && s == s'
    case (Incomplete, Incomplete) => true
    case _ => false
  }

  /** What one turn of the decoding loop does to both passes. */
  lemma OneTurn(t: string, done: string, ptr: string)
    requires Continues(t, done, ptr) && Head(ptr) != '\0' && Head(ptr) != '\"' && Count(ptr).Ok?
    ensures var one := DecodeOne(ptr);
      && (one.Ok? ==> Count(one.rest).Ok? && Count(one.rest).value + |one.value| <= Count(ptr).value)
      && (one.Ok? ==> Continues(t, done + one.value, one.rest))
      && (one.Incomplete? ==> DecodeBody(t).Incomplete?)
  {
    var one := DecodeOne(ptr);
    if one.Ok? {
      OneAgrees(ptr);
      hide Count, DecodeOne;
      var more := DecodeBody(one.rest);
      if more.Ok? {
        assert done + (one.value + more.value) == done + one.value + more.value;
      }
    }
  }

  lemma LastTurn(t: string, done: string, ptr: string)
    requires Continues(t, done, ptr) && (Head(ptr) == '\0' || Head(ptr) == '\"')
    ensures DecodeBody(t) == Ok(done, if Head(ptr) == '\"' then ptr[1..] else ptr)
  {
    assert done + "" == done;
  }

  /** One turn: a byte is copied or an escape is decoded (lines 163-200). */
  method Turn(out: array<char>, p: nat, t: string) returns (q: nat, rest: string, ok: bool)
    requires t != "" && (DecodeOne(t).Ok? ==> p + |DecodeOne(t).value| <= out.Length)
    modifies out
    ensures ok == DecodeOne(t).Ok?
    ensures ok ==> rest == DecodeOne(t).rest && q == p + |DecodeOne(t).value|
    ensures ok ==> out[..q] == old(out[..p]) + DecodeOne(t).value
  {
    if t[0] != '\\' {
      out[p] := t[0];
      q, rest, ok := p + 1, t[1..], true;
    } else {
      q, rest, ok := DecodeEscape(out, p, t);
    }
  }

  /** parse_string, with its two passes. */
  method ParseStringInto(str: string) returns (r: Parsed<string>)
    ensures r == ParseString(str)
  {
    if Head(str) != '\"' {
      return Fail;
    }
    ghost var t := str[1..];
    var counted := CountPass(str[1..]);
    if counted.Incomplete? {
      return Incomplete;
    }
    var out := new char[counted.value + 1];
    var ptr := str[1..];
    var p: nat := 0;
    assert Continues(t, out[..p], ptr);
    assert ParseString(str) == DecodeBody(t);
    hide *;
    while Head(ptr) != '\"' && Head(ptr) != '\0'
      invariant Count(ptr).Ok? && p + Count(ptr).value < out.Length
      invariant Continues(t, out[..p], ptr)
      decreases |ptr|
    {
      OneTurn(t, out[..p], ptr);
      var q, rest, ok := Turn(out, p, ptr);
      if !ok {
        return Incomplete;
      }
      p, ptr := q, rest;
    }
    LastTurn(t, out[..p], ptr);
    out[p] := '\0';
    if Head(ptr) == '\"' {
      ptr := ptr[1..];
    }
    return Ok(out[..p], ptr);
  }
}
