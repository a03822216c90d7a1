/** The numbers that the parser takes, as numerals with a sign, a fraction and an
    exponent: every numeral is read as its value, and whatever is read is a
    numeral (src/cJSON.c:99-123, with exact arithmetic). */
module JsonNumerals {
  import opened JsonText
  import opened JsonParse
  import opened JsonRoundTrip

  datatype Sign = NoSign | PlusSign | MinusSign

  datatype Exp = NoExp | Exp(capital: bool, sign: Sign, digits: string)

  /** `zero` is one leading zero; more digits may follow it. */
  datatype Numeral = Numeral(neg: bool, zero: bool, whole: string, fraction: string, exp: Exp)

  predicate AllDigits(s: string) {
    forall i :: 0 <= i < |s| ==> IsDigit(s[i])
  }

  predicate NumeralOk(n: Numeral) {
    && AllDigits(n.whole) && AllDigits(n.fraction) && (n.exp.Exp? ==> AllDigits(n.exp.digits))
    && (n.whole != "" ==> n.whole[0] != '0')
    && (n.neg || n.zero || n.whole != "")
  }

  function SignText(s: Sign): string {
    match s
    case NoSign => ""
    case PlusSign => "+"
    case MinusSign => "-"
  }

  function WholeText(zero: bool, whole: string): string {
    (if zero then "0" else "") + whole
  }

  function FractionText(fraction: string): string {
    if fraction == "" then "" else "." + fraction
  }

  function ExpText(e: Exp): string {
    if e.NoExp? then "" else (if e.capital then "E" else "e") + SignText(e.sign) + e.digits
  }

  function NumeralText(n: Numeral): string {
    (if n.neg then "-" else "") + (WholeText(n.zero, n.whole) + (FractionText(n.fraction) + ExpText(n.exp)))
  }

  // ----- where a numeral ends

  predicate WholeEnds(zero: bool, whole: string, rest: string) {
    !IsDigit(Head(rest)) || (zero && whole == "" && Head(rest) == '0')
  }

  predicate FractionEnds(fraction: string, rest: string) {
    if fraction == "" then !(Head(rest) == '.' && |rest| > 1 && IsDigit(rest[1])) else !IsDigit(Head(rest))
  }

  predicate ExpEnds(e: Exp, rest: string) {
    if e.NoExp? then Head(rest) != 'e' && Head(rest) != 'E'
    else !IsDigit(Head(rest)) && (e.sign == NoSign && e.digits == "" ==> Head(rest) != '+' && Head(rest) != '-')
  }

  /** The text cannot continue the numeral. */
  predicate NumeralEnds(n: Numeral, rest: string) {
    && ExpEnds(n.exp, rest)
    && (n.exp.NoExp? ==> FractionEnds(n.fraction, rest))
    && (n.exp.NoExp? && n.fraction == "" ==> WholeEnds(n.zero, n.whole, rest))
  }

  // ----- the value

  /** A digit string as a number, the last digit counting least. */
  function Decimal(s: string): nat
    requires AllDigits(s)
  {
    if s == "" then 0 else Decimal(s[..|s| - 1]) * 10 + (s[|s| - 1] as int - '0' as int)
  }

  function Ten(n: nat): (t: int)
    ensures t > 0
  {
    if n == 0 then 1 else 10 * Ten(n - 1)
  }

  /** The value of the digits before and behind the point. */
  function Mantissa(n: Numeral): real
    requires NumeralOk(n)
  {
    Decimal(n.whole) as real + Decimal(n.fraction) as real / Ten(|n.fraction|) as real
  }

  function ExpValue(e: Exp): int
    requires e.Exp? ==> AllDigits(e.digits)
  {
    if e.NoExp? then 0 else if e.sign == MinusSign then 0 - Decimal(e.digits) else Decimal(e.digits)
  }

  /** The exponent moves the point. */
  function Moved(m: real, e: Exp): real
    requires e.Exp? ==> AllDigits(e.digits)
  {
    if e.NoExp? then m
    else if e.sign == MinusSign then m / Ten(Decimal(e.digits)) as real
    else m * Ten(Decimal(e.digits)) as real
  }

  function NumeralValue(n: Numeral): real
    requires NumeralOk(n)
  {
    Moved(if n.neg then -Mantissa(n) else Mantissa(n), n.exp)
  }

  /** The digits of the fraction read on after the whole part. */
  function Onward(whole: int, fraction: string): int
    requires AllDigits(fraction)
  {
    whole * Ten(|fraction|) + Decimal(fraction)
  }

  function Times(x: real, y: real): real {
    x * y
  }

  // ----- digit strings and powers of ten

  lemma {:induction false} ValueIsDecimal(s: string)
    requires AllDigits(s)
    ensures Value(s, 0) == Decimal(s)
    decreases |s|
  {
    if s != "" {
      var init, last := s[..|s| - 1], s[|s| - 1];
      assert s == init + [last];
      ValueIsDecimal(init);
      ValueSnoc(init, last, 0);
    }
  }

  lemma {:induction false} ValueShift(a: string, n: int)
    ensures Value(a, n) == n * Ten(|a|) + Value(a, 0)
    decreases |a|
  {
    if a != "" {
      var d, k := a[0] as int - '0' as int, Ten(|a| - 1);
      ValueShift(a[1..], n * 10 + d);
      ValueShift(a[1..], d);
      assert (n * 10 + d) * k == n * (10 * k) + d * k;
    }
  }

  lemma PowNext(x: int)
    ensures Pow10(x + 1) == 10.0 * Pow10(x)
  {
  }

  lemma {:induction false} PowUp(n: nat)
    ensures Pow10(n) == Ten(n) as real
  {
    if n > 0 {
      PowUp(n - 1);
      PowNext(n - 1);
    }
  }

  lemma {:induction false} PowAdd(a: int, n: nat)
    ensures Pow10(a + n) == Pow10(a) * Ten(n) as real
  {
    if n > 0 {
      PowAdd(a, n - 1);
      PowNext(a + n - 1);
      var x, y := Pow10(a), Ten(n - 1) as real;
      assert 10.0 * (x * y) == x * (10.0 * y);
      assert (10 * Ten(n - 1)) as real == 10.0 * y;
    }
  }

  lemma DivideBack(x: real, y: real, z: real)
    requires z == x * y && y != 0.0
    ensures z / y == x
  {
  }

  /** Taking n off the exponent divides by the n-th power of ten. */
  lemma PowDown(a: int, n: nat)
    ensures Pow10(a - n) == Pow10(a) / Ten(n) as real
  {
    PowAdd(a - n, n);
    hide *;
    assert a - n + n == a;
    DivideBack(Pow10(a - n), Ten(n) as real, Pow10(a));
  }

  // ----- reading a numeral

  lemma WholeRead(zero: bool, whole: string, rest: string)
    requires AllDigits(whole) && (whole != "" ==> whole[0] != '0')
    requires WholeEnds(zero, whole, rest)
    ensures Whole(WholeText(zero, whole) + rest) == (Decimal(whole), rest)
  {
    var t := WholeText(zero, whole) + rest;
    var u := if Head(t) == '0' then t[1..] else t;
    assert u == whole + rest;
    ValueIsDecimal(whole);
    if whole != "" {
      DigitsReadAll(whole, rest, 0);
      assert u[|whole|..] == rest;
    } else {
      assert u == rest;
    }
  }

  lemma FractionRead(fraction: string, rest: string, n: int)
    requires AllDigits(fraction) && FractionEnds(fraction, rest)
    ensures Fraction(FractionText(fraction) + rest, n) == (Onward(n, fraction), 0 - |fraction|, rest)
  {
    var t := FractionText(fraction) + rest;
    OnwardIsValue(n, fraction);
    hide Onward, Value;
    if fraction == "" {
      assert t == rest;
    } else {
      assert t[0] == '.' && t[1..] == fraction + rest && (fraction + rest)[|fraction|..] == rest && t[1] == fraction[0];
      DigitsReadAll(fraction, rest, n);
      FractionDigits(t, n, Value(fraction, n), |fraction|, rest);
    }
  }

  lemma OnwardIsValue(n: int, fraction: string)
    requires AllDigits(fraction)
    ensures Onward(n, fraction) == Value(fraction, n) && (fraction == "" ==> Onward(n, fraction) == n)
  {
    ValueShift(fraction, n);
    ValueIsDecimal(fraction);
  }

  lemma FractionDigits(t: string, n: int, m: int, k: nat, rest: string)
    requires |t| > 1 && t[0] == '.' && IsDigit(t[1]) && Digits(t[1..], n) == (m, k) && t[1..][k..] == rest
    ensures Fraction(t, n) == (m, 0 - k, rest)
  {
  }

  lemma SignThen(sign: Sign, body: string)
    requires sign == NoSign ==> Head(body) != '+' && Head(body) != '-'
    ensures var u := SignText(sign) + body;
      && (Head(u) == '-' <==> sign == MinusSign)
      && (if Head(u) == '+' || Head(u) == '-' then u[1..] else u) == body
  {
    var u := SignText(sign) + body;
    assert sign == NoSign ==> u == body;
    assert sign != NoSign ==> u[1..] == body;
  }

  lemma DigitsThen(digits: string, rest: string)
    requires AllDigits(digits) && !IsDigit(Head(rest))
    requires digits == "" ==> Head(rest) != '+' && Head(rest) != '-'
    ensures Head(digits + rest) != '+' && Head(digits + rest) != '-'
  {
    if digits == "" {
      assert digits + rest == rest;
    } else {
      assert IsDigit((digits + rest)[0]);
    }
  }

  lemma ExponentParts(t: string, u: string, body: string, neg: bool, v: int, k: nat, rest: string)
    requires (Head(t) == 'e' || Head(t) == 'E') && u == t[1..]
    requires neg == (Head(u) == '-') && (if Head(u) == '+' || Head(u) == '-' then u[1..] else u) == body
    requires Digits(body, 0) == (v, k) && body[k..] == rest
    ensures Exponent(t) == (if neg then 0 - v else v, rest)
  {
    assert u != "" ==> t[2..] == u[1..];
  }

  lemma ExpRead(e: Exp, rest: string)
    requires ExpEnds(e, rest) && (e.Exp? ==> AllDigits(e.digits))
    ensures Exponent(ExpText(e) + rest) == (ExpValue(e), rest)
  {
    if e.NoExp? {
      assert ExpText(e) + rest == rest;
    } else {
      hide Decimal, AllDigits, IsDigit, Exponent;
      ExpTextParts(e, rest);
      ExpBodyRead(e, rest);
    }
  }

  lemma ExpTextParts(e: Exp, rest: string)
    requires e.Exp?
    ensures var t := ExpText(e) + rest;
      (Head(t) == 'e' || Head(t) == 'E') && t[1..] == SignText(e.sign) + (e.digits + rest)
  {
    hide SignText;
    assert ExpText(e) + rest == (if e.capital then "E" else "e") + (SignText(e.sign) + (e.digits + rest));
  }

  lemma ExpBodyRead(e: Exp, rest: string)
    requires e.Exp? && ExpEnds(e, rest) && AllDigits(e.digits)
    requires var t := ExpText(e) + rest; (Head(t) == 'e' || Head(t) == 'E') && t[1..] == SignText(e.sign) + (e.digits + rest)
    ensures Exponent(ExpText(e) + rest) == (if e.sign == MinusSign then 0 - Decimal(e.digits) else Decimal(e.digits), rest)
  {
    var body := e.digits + rest;
    assert !IsDigit(Head(rest)) && (e.sign == NoSign && e.digits == "" ==> Head(rest) != '+' && Head(rest) != '-');
    assert forall i :: 0 <= i < |e.digits| ==> IsDigit(e.digits[i]);
    hide *;
    DigitsReadAll(e.digits, rest, 0);
    ValueIsDecimal(e.digits);
    if e.sign == NoSign { DigitsThen(e.digits, rest); }
    SignThen(e.sign, body);
    assert body[|e.digits|..] == rest;
    ExponentParts(ExpText(e) + rest, (ExpText(e) + rest)[1..], body, e.sign == MinusSign, Decimal(e.digits), |e.digits|, rest);
  }

  /** What stands behind the whole part, and behind the fraction, ends it. */
  lemma PartsEnd(n: Numeral, rest: string)
    requires NumeralOk(n) && NumeralEnds(n, rest)
    ensures FractionEnds(n.fraction, ExpText(n.exp) + rest)
    ensures WholeEnds(n.zero, n.whole, FractionText(n.fraction) + (ExpText(n.exp) + rest))
  {
    var t := ExpText(n.exp) + rest;
    assert n.exp.NoExp? ==> t == rest;
    assert n.fraction == "" ==> FractionText(n.fraction) + t == t;
  }

  lemma ExpScales(e: Exp, m: real)
    requires e.Exp? ==> AllDigits(e.digits)
    ensures Times(m, Pow10(ExpValue(e))) == Moved(m, e)
  {
    if e.Exp? {
      var d := Decimal(e.digits);
      PowUp(d);
      PowDown(0, d);
      hide Decimal, Ten;
      assert m * (1.0 / Ten(d) as real) == m / Ten(d) as real;
    }
  }

  /** The scaled digits are the value. */
  lemma ScaledValue(n: Numeral)
    requires NumeralOk(n)
    ensures Scaled(n.neg, Onward(Decimal(n.whole), n.fraction), 0 - |n.fraction| + ExpValue(n.exp)) == NumeralValue(n)
  {
    MantissaScaled(n, ExpValue(n.exp));
    ExpScales(n.exp, if n.neg then -Mantissa(n) else Mantissa(n));
    hide Mantissa, Scaled, Onward, ExpValue, Moved, Times, Decimal;
  }

  lemma MantissaScaled(n: Numeral, e: int)
    requires NumeralOk(n)
    ensures Scaled(n.neg, Onward(Decimal(n.whole), n.fraction), 0 - |n.fraction| + e)
      == Times(if n.neg then -Mantissa(n) else Mantissa(n), Pow10(e))
  {
    var k := |n.fraction|;
    hide Decimal, Ten, Pow10, AllDigits;
    PowDown(e, k);
    Scale(n.neg, Decimal(n.whole), Decimal(n.fraction), Ten(k), Pow10(e), Pow10(0 - k + e));
  }

  lemma Scale(neg: bool, w: nat, f: nat, t: int, p: real, q: real)
    requires t > 0 && q == p / t as real
    ensures (if neg then -1.0 else 1.0) * (w * t + f) as real * q
      == (if neg then -(w as real + f as real / t as real) else w as real + f as real / t as real) * p
  {
    var x, y, z := w as real, f as real, t as real;
    assert (w * t + f) as real == x * z + y;
    assert q * z == p;
    assert y == y / z * z;
    assert (x * z + y) * q == x * (z * q) + y / z * (z * q);
  }

  lemma NumberParts(t: string, neg: bool, t1: string, w: int, t2: string, m: int, k: int, t3: string, e: int, rest: string)
    requires (Head(t) == '-' || IsDigit(Head(t))) && neg == (Head(t) == '-') && t1 == if neg then t[1..] else t
    requires Whole(t1) == (w, t2) && Fraction(t2, w) == (m, k, t3) && Exponent(t3) == (e, rest)
    ensures ParseNumber(t) == Ok(Number(Scaled(neg, m, k + e)), rest)
  {
    hide Whole, Fraction, Exponent, Scaled;
  }

  /** The text of a numeral without its sign, and `rest`. */
  function Unsigned(n: Numeral, rest: string): string {
    WholeText(n.zero, n.whole) + (FractionText(n.fraction) + (ExpText(n.exp) + rest))
  }

  lemma SignRead(n: Numeral, rest: string)
    requires NumeralOk(n)
    ensures var t1 := Unsigned(n, rest); var t := (if n.neg then "-" else "") + t1;
      && (Head(t) == '-' || IsDigit(Head(t)))
      && n.neg == (Head(t) == '-') && (if n.neg then t[1..] else t) == t1
  {
    var t1 := Unsigned(n, rest);
    assert !n.neg ==> "" + t1 == t1;
    assert ("-" + t1)[1..] == t1;
    if !n.neg {
      assert Head(t1) == WholeText(n.zero, n.whole)[0];
    }
  }

  lemma NumeralFacts(n: Numeral, rest: string)
    requires NumeralOk(n) && NumeralEnds(n, rest)
    ensures AllDigits(n.whole) && AllDigits(n.fraction) && (n.exp.Exp? ==> AllDigits(n.exp.digits))
    ensures (n.whole != "" ==> n.whole[0] != '0') && ExpEnds(n.exp, rest)
    ensures Unsigned(n, rest) == WholeText(n.zero, n.whole) + (FractionText(n.fraction) + (ExpText(n.exp) + rest))
  {
    hide AllDigits, ExpEnds, WholeText, FractionText, ExpText;
  }

  lemma UnsignedRead(n: Numeral, rest: string) returns (t2: string, t3: string)
    requires NumeralOk(n) && NumeralEnds(n, rest)
    ensures Whole(Unsigned(n, rest)) == (Decimal(n.whole), t2)
    ensures Fraction(t2, Decimal(n.whole)) == (Onward(Decimal(n.whole), n.fraction), 0 - |n.fraction|, t3)
    ensures Exponent(t3) == (ExpValue(n.exp), rest)
  {
    hide *;
    NumeralFacts(n, rest);
    t3 := ExpText(n.exp) + rest;
    t2 := FractionText(n.fraction) + t3;
    PartsEnd(n, rest);
    WholeRead(n.zero, n.whole, t2);
    FractionRead(n.fraction, t3, Decimal(n.whole));
    ExpRead(n.exp, rest);
  }

  /** Every numeral is read as its value, and reading stops behind it. */
  lemma NumeralRead(n: Numeral, rest: string)
    requires NumeralOk(n) && NumeralEnds(n, rest)
    ensures var t := NumeralText(n) + rest;
      && (Head(t) == '-' || IsDigit(Head(t)))
      && ParseNumber(t) == Ok(Number(NumeralValue(n)), rest)
  {
    hide *;
    NumeralFacts(n, rest);
    var t2, t3 := UnsignedRead(n, rest);
    SignRead(n, rest);
    ScaledValue(n);
    NumeralTextSplit(n, rest);
    NumberParts(NumeralText(n) + rest, n.neg, Unsigned(n, rest), Decimal(n.whole), t2,
      Onward(Decimal(n.whole), n.fraction), 0 - |n.fraction|, t3, ExpValue(n.exp), rest);
  }

  lemma NumeralTextSplit(n: Numeral, rest: string)
    ensures NumeralText(n) + rest == (if n.neg then "-" else "") + Unsigned(n, rest)
  {
    var sign, whole, fraction, exp := if n.neg then "-" else "", WholeText(n.zero, n.whole), FractionText(n.fraction), ExpText(n.exp);
    assert NumeralText(n) == sign + (whole + (fraction + exp));
    assert Unsigned(n, rest) == whole + (fraction + (exp + rest));
    hide *;
    Regroup(sign, whole + (fraction + exp), rest);
    Regroup(whole, fraction + exp, rest);
    Regroup(fraction, exp, rest);
  }

  // ----- whatever is read is a numeral

  lemma DigitsSplit(t: string, n: int)
    ensures var k := Digits(t, n).1;
      AllDigits(t[..k]) && t == t[..k] + t[k..] && !IsDigit(Head(t[k..])) && (k == 0 <==> !IsDigit(Head(t)))
  {
    var k := Digits(t, n).1;
    assert k < |t| ==> t[k..][0] == t[k];
  }

  lemma WholeOf(t: string) returns (zero: bool, whole: string)
    ensures AllDigits(whole) && (whole != "" ==> whole[0] != '0')
    ensures t == WholeText(zero, whole) + Whole(t).1 && WholeEnds(zero, whole, Whole(t).1)
    ensures IsDigit(Head(t)) ==> zero || whole != ""
  {
    zero := Head(t) == '0';
    var u := if zero then t[1..] else t;
    assert t == (if zero then "0" else "") + u;
    if '1' <= Head(u) <= '9' {
      var k := Digits(u, 0).1;
      DigitsSplit(u, 0);
      whole := u[..k];
      hide Digits, AllDigits;
      Regroup(if zero then "0" else "", whole, u[k..]);
    } else {
      whole := "";
      assert WholeText(zero, whole) + u == t;
    }
  }

  lemma FractionOf(t: string, n: int) returns (fraction: string)
    ensures AllDigits(fraction)
    ensures t == FractionText(fraction) + Fraction(t, n).2 && FractionEnds(fraction, Fraction(t, n).2)
  {
    if Head(t) == '.' && |t| > 1 && IsDigit(t[1]) {
      var u := t[1..];
      var k := Digits(u, n).1;
      DigitsSplit(u, n);
      fraction := u[..k];
      hide Digits, AllDigits;
      assert t == "." + u && fraction != "";
      Regroup(".", fraction, u[k..]);
    } else {
      fraction := "";
    }
  }

  lemma SignOf(u: string) returns (sign: Sign, body: string)
    ensures u == SignText(sign) + body && body == (if Head(u) == '+' || Head(u) == '-' then u[1..] else u)
    ensures sign == NoSign ==> Head(u) != '+' && Head(u) != '-'
  {
    if Head(u) == '+' {
      sign, body := PlusSign, u[1..];
    } else if Head(u) == '-' {
      sign, body := MinusSign, u[1..];
    } else {
      sign, body := NoSign, u;
      assert "" + u == u;
    }
  }

  lemma ExpOf(t: string) returns (e: Exp)
    ensures e.Exp? ==> AllDigits(e.digits)
    ensures t == ExpText(e) + Exponent(t).1 && ExpEnds(e, Exponent(t).1)
  {
    if Head(t) == 'e' || Head(t) == 'E' {
      e := MadeExp(t);
    } else {
      e := NoExp;
    }
  }

  lemma MadeExp(t: string) returns (e: Exp)
    requires Head(t) == 'e' || Head(t) == 'E'
    ensures e.Exp? && AllDigits(e.digits) && t == ExpText(e) + Exponent(t).1 && ExpEnds(e, Exponent(t).1)
  {
    var u := t[1..];
    var sign, body := SignOf(u);
    var v, k := Digits(body, 0).0, Digits(body, 0).1;
    DigitsSplit(body, 0);
    hide Digits, AllDigits;
    var letter := if Head(t) == 'E' then "E" else "e";
    assert t == letter + u;
    assert k == 0 ==> body[k..] == body;
    e := Exp(Head(t) == 'E', sign, body[..k]);
    assert ExpText(e) == letter + SignText(sign) + body[..k];
    assert ExpEnds(e, body[k..]);
    assert (Head(u) == '-') == (sign == MinusSign) by { assert u == SignText(sign) + body; }
    hide SignText, ExpText, Exponent, ExpEnds;
    ExponentParts(t, u, body, Head(u) == '-', v, k, body[k..]);
    ExpJoin(letter, SignText(sign), body[..k], body[k..], t, u, body);
  }

  lemma ExpJoin(letter: string, sign: string, digits: string, rest: string, t: string, u: string, body: string)
    requires t == letter + u && u == sign + body && body == digits + rest
    ensures t == letter + sign + digits + rest
  {
    Regroup(letter + sign, digits, rest);
    Regroup(letter, sign, body);
  }

  lemma PartsEndNumeral(n: Numeral, t2: string, t3: string, rest: string)
    requires WholeEnds(n.zero, n.whole, t2) && FractionEnds(n.fraction, t3) && ExpEnds(n.exp, rest)
    requires t2 == FractionText(n.fraction) + t3 && t3 == ExpText(n.exp) + rest
    ensures NumeralEnds(n, rest)
  {
    assert n.exp.NoExp? ==> t3 == rest;
    assert n.fraction == "" ==> t2 == t3;
  }

  /** Whatever is read as a number is a numeral of that value. */
  lemma NumberIsNumeral(t: string) returns (n: Numeral)
    requires Head(t) == '-' || IsDigit(Head(t))
    ensures NumeralOk(n) && NumeralEnds(n, ParseNumber(t).rest)
    ensures t == NumeralText(n) + ParseNumber(t).rest && ParseNumber(t).value == Number(NumeralValue(n))
  {
    var neg := Head(t) == '-';
    var t1 := if neg then t[1..] else t;
    var t2 := Whole(t1).1;
    var t3 := Fraction(t2, Whole(t1).0).2;
    var rest := Exponent(t3).1;
    assert ParseNumber(t).rest == rest && t == (if neg then "-" else "") + t1;
    hide Whole, Fraction, Exponent, ParseNumber;
    var zero, whole := WholeOf(t1);
    var fraction := FractionOf(t2, Whole(t1).0);
    var e := ExpOf(t3);
    n := Numeral(neg, zero, whole, fraction, e);
    assert NumeralOk(n) by { hide AllDigits; }
    hide AllDigits, NumeralOk;
    PartsEndNumeral(n, t2, t3, rest);
    assert Unsigned(n, rest) == t1;
    NumeralTextSplit(n, rest);
    hide Unsigned, WholeText, FractionText, ExpText, NumeralEnds, WholeEnds, FractionEnds, ExpEnds, NumeralText, NumeralValue;
    NumeralRead(n, rest);
  }
}
