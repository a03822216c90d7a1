/** The reference definition of the parser (src/cJSON.c:99-123, :150-207,
    :372-384, :405-430, :484-517). */
module JsonParse {
  import opened JsonText

  /** How a call ends: a value and the rest of the text; the null pointer; or at
      an escape that is not complete (a backslash before the terminator, or
      fewer than four hexadecimal digits after \\u), past which the model does
      not follow the code. */
  datatype Parsed<T> =
    | Ok(value: T, rest: string)
    | Fail
    | Incomplete

  // ----- numbers

  /** The digits at the head of a text, as a number after `n`, with their count. */
  function Digits(t: string, n: int): (r: (int, nat))
    ensures r.1 <= |t|
    ensures forall i :: 0 <= i < r.1 ==> IsDigit(t[i])
    ensures r.1 < |t| ==> !IsDigit(t[r.1])
  {
    if t != "" && IsDigit(t[0]) then
      var (v, k) := Digits(t[1..], n * 10 + (t[0] as int - '0' as int));
      (v, k + 1)
    else (n, 0)
  }

  function Pow10(e: int): real
    decreases if e < 0 then -e else e
  {
    if e == 0 then 1.0 else if e > 0 then 10.0 * Pow10(e - 1) else Pow10(e + 1) / 10.0
  }

  /** The digits before the point (lines 106-107). */
  function Whole(t: string): (r: (int, string))
    ensures |r.1| <= |t| && (IsDigit(Head(t)) ==> |r.1| < |t|)
  {
    var t := if Head(t) == '0' then t[1..] else t;
    if '1' <= Head(t) <= '9' then
      var (n, k) := Digits(t, 0);
      (n, t[k..])
    else (0, t)
  }

  /** The digits behind a point, read on after `n`; their number is taken off the scale (line 108). */
  function Fraction(t: string, n: int): (r: (int, int, string))
    ensures |r.2| <= |t|
  {
    if Head(t) == '.' && |t| > 1 && IsDigit(t[1]) then
      var (m, k) := Digits(t[1..], n);
      (m, 0 - k, t[1..][k..])
    else (n, 0, t)
  }

  /** The exponent (lines 109-112). */
  function Exponent(t: string): (r: (int, string))
    ensures |r.1| <= |t|
  {
    if Head(t) != 'e' && Head(t) != 'E' then (0, t)
    else
      var u := if Head(t[1..]) == '+' || Head(t[1..]) == '-' then t[2..] else t[1..];
      var (e, k) := Digits(u, 0);
      (if Head(t[1..]) == '-' then -e else e, u[k..])
  }

  /** `sign*n*pow(10.0,...)` */
  function Scaled(neg: bool, n: int, e: int): real {
    (if neg then -1.0 else 1.0) * (n as real) * Pow10(e)
  }

  /** parse_number, with exact arithmetic. */
  function ParseNumber(t: string): (r: Parsed<Json>)
    requires Head(t) == '-' || IsDigit(Head(t))
    ensures r.Ok? && |r.rest| < |t|
  {
    var neg := Head(t) == '-';
    var (n, t2) := Whole(if neg then t[1..] else t);
    var (m, scale, t3) := Fraction(t2, n);
    var (e, t4) := Exponent(t3);
    Ok(Number(Scaled(neg, m, scale + e)), t4)
  }

  // ----- strings

  function HexValue(c: char): int {
    if IsDigit(c) then c as int - '0' as int
    else if 'a' <= c <= 'f' then c as int - 'a' as int + 10
    else if 'A' <= c <= 'F' then c as int - 'A' as int + 10
    else -1
  }

  /** Four hexadecimal digits. */
  predicate HasHex4(t: string) {
    |t| >= 4 && HexValue(t[0]) >= 0 && HexValue(t[1]) >= 0 && HexValue(t[2]) >= 0 && HexValue(t[3]) >= 0
  }

  function Hex4(t: string): (n: nat)
    requires HasHex4(t)
    ensures n < 0x10000
  {
    HexValue(t[0]) * 4096 + HexValue(t[1]) * 256 + HexValue(t[2]) * 16 + HexValue(t[3])
  }

  predicate IsHigh(u: int) { 0xD800 <= u <= 0xDBFF }
  predicate IsLow(u: int) { 0xDC00 <= u <= 0xDFFF }

  /** 0x10000 | ((hi & 0x3FF) << 10) | (lo & 0x3FF): an OR, so bit 16 is not added but set. */
  function Join(hi: nat, lo: nat): (u: nat)
    ensures 0x10000 <= u < 0x100000
  {
    var x := hi % 1024 * 1024 + lo % 1024;
    if x / 0x10000 % 2 == 1 then x else x + 0x10000
  }

  /** The number of bytes chosen for a code point. */
  function Utf8Length(u: nat): (n: nat)
    ensures 1 <= n <= 4
  {
    if u < 0x80 then 1 else if u < 0x800 then 2 else if u < 0x10000 then 3 else 4
  }

  /** ((u | 0x80) & 0xBF), stored in a byte. */
  function Continuation(u: nat): char {
    (0x80 + u % 64) as char
  }

  function Utf8(u: nat): (t: string)
    requires u < 0x200000
    ensures |t| == Utf8Length(u)
  {
    if u < 0x80 then [u as char]
    else if u < 0x800 then [(0xC0 + u / 64) as char, Continuation(u)]
    else if u < 0x10000 then [(0xE0 + u / 4096) as char, Continuation(u / 64), Continuation(u)]
    else [(0xF0 + u / 0x40000) as char, Continuation(u / 4096), Continuation(u / 64), Continuation(u)]
  }

  /** The text after "\u" of an escape: the bytes it stands for, and what follows. */
  function DecodeUnicode(t: string): (r: Parsed<string>)
    ensures r.Ok? ==> |r.rest| < |t|
    ensures !r.Fail?
  {
    if !HasHex4(t) then Incomplete
    else
      var u, rest := Hex4(t), t[4..];
      if IsLow(u) || u == 0 then Ok("", rest)
      else if !IsHigh(u) then Ok(Utf8(u), rest)
      else if Head(rest) != '\\' || Head(rest[1..]) != 'u' then Ok("", rest)
      else if !HasHex4(rest[2..]) then Incomplete
      else
        var u2, rest2 := Hex4(rest[2..]), rest[6..];
        if IsLow(u2) then Ok(Utf8(Join(u, u2)), rest2) else Ok("", rest2)
  }

  /** The byte for a one-letter escape. */
  function DecodeLetter(c: char): char {
    match c
    case 'b' => '\U{8}'
    case 'f' => '\U{C}'
    case 'n' => '\n'
    case 'r' => '\r'
    case 't' => '\t'
    case _ => c
  }

  /** One turn of the decoding loop, at a byte that does not end it. */
  function DecodeOne(t: string): (r: Parsed<string>)
    requires t != ""
    ensures r.Ok? ==> |r.rest| < |t|
    ensures !r.Fail?
  {
    if t[0] != '\\' then Ok([t[0]], t[1..])
    else if Head(t[1..]) == '\0' then Incomplete
    else if t[1] == 'u' then DecodeUnicode(t[2..])
    else Ok([DecodeLetter(t[1])], t[2..])
  }

  /** The decoding loop from `t` on, and the closing quote if there is one. */
  function DecodeBody(t: string): (r: Parsed<string>)
    ensures r.Ok? ==> |r.rest| <= |t|
    ensures !r.Fail?
  {
    if Head(t) == '\0' then Ok("", t)
    else if t[0] == '\"' then Ok("", t[1..])
    else
      var one := DecodeOne(t);
      if one.Incomplete? then Incomplete
      else
        var more := DecodeBody(one.rest);
        if more.Ok? then Ok(one.value + more.value, more.rest) else Incomplete
  }

  /** The counting loop: the bytes it counts, and where it stops. */
  function Count(t: string): (r: Parsed<nat>)
    ensures r.Ok? ==> |r.rest| <= |t|
    ensures !r.Fail?
  {
    if Head(t) == '\0' || t[0] == '\"' then Ok(0, t)
    else if t[0] == '\\' && Head(t[1..]) == '\0' then Incomplete
    else
      var more := Count(if t[0] == '\\' then t[2..] else t[1..]);
      if more.Ok? then Ok(more.value + 1, more.rest) else Incomplete
  }

  function ParseString(t: string): (r: Parsed<string>)
    ensures r.Ok? ==> |r.rest| < |t|
  {
    if Head(t) != '\"' then Fail
    else if Count(t[1..]).Incomplete? then Incomplete
    else DecodeBody(t[1..])
  }

  // ----- values

  function ParseValue(t: string): (r: Parsed<Json>)
    ensures r.Ok? ==> |r.rest| < |t|
    decreases |t|, 1
  {
    if "null" <= t then Ok(Null, t[4..])
    else if "false" <= t then Ok(False, t[5..])
    else if "true" <= t then Ok(True, t[4..])
    else if Head(t) == '\"' then
      match ParseString(t)
      case Ok(s, rest) => Ok(String(s), rest)
      case Fail => Fail
      case Incomplete => Incomplete
    else if Head(t) == '-' || IsDigit(Head(t)) then ParseNumber(t)
    else if Head(t) == '[' then
      var v := Skip(t[1..]);
      if Head(v) == ']' then Ok(Array(NoItems), v[1..])
      else
        match ParseItems(v)
        case Ok(items, rest) => Ok(Array(items), rest)
        case Fail => Fail
        case Incomplete => Incomplete
    else if Head(t) == '{' then
      var v := Skip(t[1..]);
      if Head(v) == '}' then Ok(Object(NoMembers), v[1..])
      else
        match ParseMembers(v)
        case Ok(members, rest) => Ok(Object(members), rest)
        case Fail => Fail
        case Incomplete => Incomplete
    else Fail
  }

  /** The items of an array up to and including the closing bracket. */
  function ParseItems(t: string): (r: Parsed<Items>)
    ensures r.Ok? ==> |r.rest| < |t|
    decreases |t|, 2
  {
    match ParseValue(Skip(t))
    case Fail => Fail
    case Incomplete => Incomplete
    case Ok(head, rest) =>
      var v := Skip(rest);
      if Head(v) == ']' then Ok(Item(head, NoItems), v[1..])
      else if Head(v) != ',' then Fail
      else
        match ParseItems(v[1..])
        case Ok(tail, rest) => Ok(Item(head, tail), rest)
        case Fail => Fail
        case Incomplete => Incomplete
  }

  /** The members of an object up to and including the closing brace. */
  function ParseMembers(t: string): (r: Parsed<Members>)
    ensures r.Ok? ==> |r.rest| < |t|
    decreases |t|, 2
  {
    match ParseString(Skip(t))
    case Fail => Fail
    case Incomplete => Incomplete
    case Ok(name, rest) =>
      var u := Skip(rest);
      if Head(u) != ':' then Fail
      else
        match ParseValue(Skip(u[1..]))
        case Fail => Fail
        case Incomplete => Incomplete
        case Ok(value, rest) =>
          var v := Skip(rest);
          if Head(v) == '}' then Ok(Member(name, value, NoMembers), v[1..])
          else if Head(v) != ',' then Fail
          else
            match ParseMembers(v[1..])
            case Ok(tail, rest) => Ok(Member(name, value, tail), rest)
            case Fail => Fail
            case Incomplete => Incomplete
  }

  /** cJSON_Parse */
  function Parse(t: string): Parsed<Json> {
    ParseValue(Skip(t))
  }
}
