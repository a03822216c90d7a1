/** Printing and parsing back (sections 2 to 7 of RFC 8259, for int32 numbers). */
module JsonRoundTrip {
  import opened JsonText
  import opened JsonParse

  // ----- white space

  lemma {:induction false} SkipBlanks(blanks: string, t: string)
    requires forall i :: 0 <= i < |blanks| ==> '\0' < blanks[i] <= ' '
    ensures Skip(blanks + t) == Skip(t)
  {
    if blanks == "" {
      assert blanks + t == t;
    } else {
      assert (blanks + t)[1..] == blanks[1..] + t;
      SkipBlanks(blanks[1..], t);
    }
  }

  /** Lists start by skipping, so leading blanks make no difference. */
  lemma SameAfterSkip(t: string, u: string)
    requires Skip(t) == Skip(u)
    ensures ParseItems(t) == ParseItems(u)
    ensures ParseMembers(t) == ParseMembers(u)
  {
    hide ParseString, ParseValue;
  }

  // ----- numbers

  /** The value of a digit string read after `n`. */
  function Value(a: string, n: int): int
    decreases a
  {
    if a == "" then n else Value(a[1..], n * 10 + (a[0] as int - '0' as int))
  }

  lemma {:induction false} ValueSnoc(a: string, c: char, n: int)
    ensures Value(a + [c], n) == Value(a, n) * 10 + (c as int - '0' as int)
    decreases a
  {
    if a == "" {
      assert a + [c] == [c] && [c][1..] == "";
    } else {
      assert (a + [c])[1..] == a[1..] + [c];
      ValueSnoc(a[1..], c, n * 10 + (a[0] as int - '0' as int));
    }
  }

  lemma {:induction false} DigitsReadAll(a: string, rest: string, n: int)
    requires (forall i :: 0 <= i < |a| ==> IsDigit(a[i])) && !IsDigit(Head(rest))
    ensures Digits(a + rest, n) == (Value(a, n), |a|)
    decreases a
  {
    if a == "" {
      assert a + rest == rest;
    } else {
      assert (a + rest)[1..] == a[1..] + rest;
      DigitsReadAll(a[1..], rest, n * 10 + (a[0] as int - '0' as int));
    }
  }

  lemma {:induction false} NatTextValue(n: nat)
    ensures Value(NatText(n), 0) == n
    ensures n > 0 ==> '1' <= NatText(n)[0] <= '9'
  {
    if n < 10 {
      assert [Digit(n)][1..] == "";
    } else {
      NatTextValue(n / 10);
      ValueSnoc(NatText(n / 10), Digit(n % 10), 0);
    }
  }

  /** The text cannot continue a number that ends just before it. */
  predicate EndsNumber(t: string) {
    !IsDigit(Head(t)) && Head(t) != 'e' && Head(t) != 'E' && !(Head(t) == '.' && |t| > 1 && IsDigit(t[1]))
  }

  lemma WholePlain(digits: string, rest: string)
    requires digits != "" && (digits == "0" || '1' <= digits[0] <= '9')
    requires (forall i :: 0 <= i < |digits| ==> IsDigit(digits[i])) && EndsNumber(rest)
    ensures Whole(digits + rest) == (Value(digits, 0), rest)
  {
    var t := digits + rest;
    if digits == "0" {
      assert t[1..] == rest;
      assert Value("0", 0) == 0 by { assert "0"[1..] == ""; }
    } else {
      DigitsReadAll(digits, rest, 0);
      assert t[|digits|..] == rest;
    }
  }

  /** The sign and the digits of a number that nothing extends. */
  lemma ParsePlain(neg: bool, digits: string, rest: string)
    requires digits != "" && (digits == "0" || '1' <= digits[0] <= '9')
    requires (forall i :: 0 <= i < |digits| ==> IsDigit(digits[i])) && EndsNumber(rest)
    ensures var t := (if neg then "-" else "") + (digits + rest);
      && (Head(t) == '-' || IsDigit(Head(t)))
      && ParseNumber(t) == Ok(Number(Scaled(neg, Value(digits, 0), 0)), rest)
  {
    var t := (if neg then "-" else "") + (digits + rest);
    var t1 := if neg then t[1..] else t;
    assert t1 == digits + rest;
    WholePlain(digits, rest);
    NothingBehind(rest, Value(digits, 0));
    hide Value, Whole, Fraction, Exponent, Scaled;
  }

  lemma NothingBehind(rest: string, n: int)
    requires EndsNumber(rest)
    ensures Fraction(rest, n) == (n, 0, rest) && Exponent(rest) == (0, rest)
  {
  }

  lemma NumberRoundTrip(n: int, rest: string)
    requires EndsNumber(rest)
    ensures Head(IntText(n) + rest) == '-' || IsDigit(Head(IntText(n) + rest))
    ensures ParseNumber(IntText(n) + rest) == Ok(Number(n as real), rest)
  {
    var a := if n < 0 then -n else n;
    NatTextValue(a);
    hide ParseNumber, Value;
    assert IntText(n) + rest == (if n < 0 then "-" else "") + (NatText(a) + rest);
    ParsePlain(n < 0, NatText(a), rest);
  }

  // ----- strings

  /** One escaped byte decodes to that byte. */
  lemma EscapeDecodes(c: char, rest: string)
    requires c != '\0'
    ensures DecodeOne(EscapeChar(c) + rest) == Ok([c], rest)
    ensures EscapeChar(c) != "" && EscapeChar(c)[0] != '\"' && EscapeChar(c)[0] != '\0'
  {
    var t := EscapeChar(c) + rest;
    if c > '\U{1F}' && c != '\"' && c != '\\' {
      assert t[1..] == rest;
    } else if c == '\\' || c == '\"' || c == '\U{8}' || c == '\U{C}' || c == '\n' || c == '\r' || c == '\t' {
      assert t[2..] == rest;
    } else {
      var hi, lo := HexDigit(c as int / 16), HexDigit(c as int % 16);
      assert t[2..] == "00" + [hi, lo] + rest;
      assert HexValue(hi) == c as int / 16 && HexValue(lo) == c as int % 16;
      assert t[2..][4..] == rest;
    }
  }

  lemma {:induction false} BodyRoundTrip(s: string, rest: string)
    requires NulFree(s)
    ensures DecodeBody(Escape(s) + "\"" + rest) == Ok(s, rest)
  {
    var t := Escape(s) + "\"" + rest;
    if s == "" {
      assert t[1..] == rest;
    } else {
      var more := Escape(s[1..]) + "\"" + rest;
      assert t == EscapeChar(s[0]) + more;
      EscapeDecodes(s[0], more);
      BodyRoundTrip(s[1..], rest);
      assert s == [s[0]] + s[1..];
    }
  }

  /** Up to the closing quote or the terminator, every backslash is followed by
      a byte, and every \\u by four hexadecimal digits. */
  predicate EscapesComplete(t: string) {
    if Head(t) == '\0' || t[0] == '\"' then true
    else if t[0] != '\\' then EscapesComplete(t[1..])
    else if Head(t[1..]) == '\0' then false
    else if t[1] == 'u' then HasHex4(t[2..]) && EscapesComplete(t[6..])
    else EscapesComplete(t[2..])
  }

  /** The scan passes over what one turn of the decoding loop consumes. */
  lemma ScanOne(t: string)
    requires Head(t) != '\0' && t[0] != '\"'
    ensures EscapesComplete(t) <==> DecodeOne(t).Ok? && EscapesComplete(DecodeOne(t).rest)
  {
    hide Hex4, Join, Utf8, HexValue;
    if t[0] == '\\' && |t| > 1 && t[1] == 'u' && HasHex4(t[2..]) {
      var u := t[2..][4..];
      assert u == t[6..];
      if Head(u) == '\\' && Head(u[1..]) == 'u' && HasHex4(u[2..]) {
        assert u[2..][4..] == u[6..];
      }
    }
  }

  /** Decoding gets to the end of the string if and only if its escapes are complete. */
  lemma {:induction false} EscapesDecide(t: string)
    ensures DecodeBody(t).Ok? <==> EscapesComplete(t)
    decreases |t|
  {
    if Head(t) != '\0' && t[0] != '\"' {
      ScanOne(t);
      if DecodeOne(t).Ok? {
        EscapesDecide(DecodeOne(t).rest);
      }
    }
  }

  /** The counting loop and the decoding loop stop at the same quote, and the
      second writes no more bytes than the first has counted. */
  lemma {:induction false} PassesAgree(t: string)
    requires EscapesComplete(t)
    ensures DecodeBody(t).Ok? && Count(t).Ok? && |DecodeBody(t).value| <= Count(t).value
    ensures DecodeBody(t).rest == if Head(Count(t).rest) == '\"' then Count(t).rest[1..] else Count(t).rest
    decreases |t|
  {
    EscapesDecide(t);
    if Head(t) != '\0' && t[0] != '\"' {
      ScanOne(t);
      PassesAgree(DecodeOne(t).rest);
      OneAgrees(t);
    }
  }

  /** How parse_string ends, by the text alone. */
  lemma StringOutcome(t: string)
    ensures ParseString(t).Fail? <==> Head(t) != '\"'
    ensures ParseString(t).Ok? <==> Head(t) == '\"' && EscapesComplete(t[1..])
  {
    if Head(t) == '\"' {
      EscapesDecide(t[1..]);
      if EscapesComplete(t[1..]) {
        PassesAgree(t[1..]);
      }
    }
  }

  /** The counting loop gets from `t` to `rest` and counts at least `n` bytes on the way. */
  predicate Passes(t: string, rest: string, n: nat) {
    match (Count(t), Count(rest))
    case (Ok(a, s), Ok(b, s')) => s == s' && b + n <= a
    case (Incomplete, Incomplete) => true
    case _ => false
  }

  /** The counting loop passes over what one turn of the decoding loop consumes. */
  lemma OneAgrees(t: string)
    requires Head(t) != '\0' && t[0] != '\"' && DecodeOne(t).Ok?
    ensures Passes(t, DecodeOne(t).rest, |DecodeOne(t).value|)
  {
    if t[0] == '\\' && t[1] == 'u' {
      CountPair(t);
      UnicodeAgrees(t[2..]);
    }
  }

  lemma UnicodeAgrees(t: string)
    requires DecodeUnicode(t).Ok?
    ensures var one := DecodeUnicode(t);
      Passes(t, one.rest, if |one.value| == 0 then 0 else |one.value| - 1)
  {
    hide Count, Hex4, Join, Utf8, HexValue;
    var u := t[4..];
    CountHex(t);
    if DecodeUnicode(t).rest != u {
      assert Head(u) == '\\' && Head(u[1..]) == 'u' && HasHex4(u[2..]);
      assert u[2..][4..] == u[6..];
      CountHex(u[2..]);
      CountPair(u);
    }
  }

  lemma CountPair(u: string)
    requires Head(u) == '\\' && Head(u[1..]) != '\0'
    ensures Passes(u, u[2..], 1)
  {
  }

  lemma CountHex(t: string)
    requires HasHex4(t)
    ensures Passes(t, t[4..], 4)
  {
    CountPlain(t);
    CountPlain(t[1..]);
    CountPlain(t[2..]);
    CountPlain(t[3..]);
    assert t[1..][1..] == t[2..] && t[2..][1..] == t[3..] && t[3..][1..] == t[4..];
  }

  lemma CountPlain(t: string)
    requires t != "" && HexValue(t[0]) >= 0
    ensures Passes(t, t[1..], 1)
  {
  }

  lemma StringRoundTrip(s: string, rest: string)
    requires NulFree(s)
    ensures ParseString(Quoted(s) + rest) == Ok(s, rest)
  {
    var t := Quoted(s) + rest;
    assert t[1..] == Escape(s) + "\"" + rest;
    BodyRoundTrip(s, rest);
    EscapesDecide(t[1..]);
    PassesAgree(t[1..]);
  }

  // ----- trees

  /** A printed value starts with a byte that skip does not pass, and that closes nothing. */
  lemma PrintHead(j: Json, depth: nat, fmt: bool, rest: string)
    requires Plain(j)
    ensures var c := Head(Print(j, depth, fmt) + rest);
      c > ' ' && c != ']' && c != '}' && c != ',' && Print(j, depth, fmt) != ""
  {
  }

  lemma ItemsUnfold(t: string, head: Json, rest: string)
    requires ParseValue(Skip(t)) == Ok(head, rest)
    ensures Head(Skip(rest)) == ']' ==> ParseItems(t) == Ok(Item(head, NoItems), Skip(rest)[1..])
    ensures Head(Skip(rest)) == ',' && ParseItems(Skip(rest)[1..]).Ok? ==>
      var r := ParseItems(Skip(rest)[1..]); ParseItems(t) == Ok(Item(head, r.value), r.rest)
  {
    hide ParseValue, Skip;
  }

  lemma MembersUnfold(t: string, name: string, r1: string, value: Json, r2: string)
    requires ParseString(Skip(t)) == Ok(name, r1) && Head(Skip(r1)) == ':'
    requires ParseValue(Skip(Skip(r1)[1..])) == Ok(value, r2)
    ensures Head(Skip(r2)) == '}' ==> ParseMembers(t) == Ok(Member(name, value, NoMembers), Skip(r2)[1..])
    ensures Head(Skip(r2)) == ',' && ParseMembers(Skip(r2)[1..]).Ok? ==>
      var r := ParseMembers(Skip(r2)[1..]); ParseMembers(t) == Ok(Member(name, value, r.value), r.rest)
  {
    hide ParseValue, ParseString, Skip;
  }

  lemma ArrayUnfold(t: string)
    requires Head(t) == '['
    ensures var v := Skip(t[1..]);
      && (Head(v) == ']' ==> ParseValue(t) == Ok(Array(NoItems), v[1..]))
      && (Head(v) != ']' && ParseItems(v).Ok? ==> ParseValue(t) == Ok(Array(ParseItems(v).value), ParseItems(v).rest))
  {
    hide ParseItems, ParseMembers, ParseString, ParseNumber, Skip;
    assert t[0] == '[';
  }

  lemma ObjectUnfold(t: string)
    requires Head(t) == '{'
    ensures var v := Skip(t[1..]);
      && (Head(v) == '}' ==> ParseValue(t) == Ok(Object(NoMembers), v[1..]))
      && (Head(v) != '}' && ParseMembers(v).Ok? ==> ParseValue(t) == Ok(Object(ParseMembers(v).value), ParseMembers(v).rest))
  {
    hide ParseItems, ParseMembers, ParseString, ParseNumber, Skip;
    assert t[0] == '{';
  }

  lemma StringUnfold(t: string)
    requires Head(t) == '\"' && ParseString(t).Ok?
    ensures ParseValue(t) == Ok(String(ParseString(t).value), ParseString(t).rest)
  {
    hide ParseString, ParseNumber, ParseItems, ParseMembers;
    assert t[0] == '\"';
  }

  /** Printing at any depth, formatted or not, and parsing back gives the same
      tree and stops exactly at the text that follows. */
  lemma {:induction false} ValueRoundTrip(j: Json, depth: nat, fmt: bool, rest: string)
    requires Plain(j) && (j.Number? ==> EndsNumber(rest))
    ensures ParseValue(Print(j, depth, fmt) + rest) == Ok(j, rest)
    decreases j
  {
    hide ParseString, ParseNumber, ParseItems, ParseMembers;
    var t := Print(j, depth, fmt) + rest;
    match j {
      case Null => assert "null" <= t && t[4..] == rest;
      case False => assert t[0] == 'f' && "false" <= t && t[5..] == rest;
      case True => assert t[0] == 't' && "true" <= t && t[4..] == rest;
      case Number(v) => NumberRoundTrip(v.Floor, rest);
      case String(s) =>
        StringRoundTrip(s, rest);
        assert t[0] == '\"';
        StringUnfold(t);
      case Array(items) => ArrayRoundTrip(items, depth, fmt, rest);
      case Object(members) => ObjectRoundTrip(members, depth, fmt, rest);
    }
  }

  lemma ArrayText(items: Items, depth: nat, fmt: bool, rest: string)
    requires PlainItems(items)
    ensures var t := Print(Array(items), depth, fmt) + rest;
      t != "" && t[0] == '[' && t[1..] == PrintItems(items, depth + 1, fmt) + "]" + rest
  {
    hide PrintItems;
    assert Print(Array(items), depth, fmt) + rest == "[" + (PrintItems(items, depth + 1, fmt) + "]" + rest);
  }

  lemma {:induction false} ArrayRoundTrip(items: Items, depth: nat, fmt: bool, rest: string)
    requires PlainItems(items)
    ensures ParseValue(Print(Array(items), depth, fmt) + rest) == Ok(Array(items), rest)
    decreases items, 1
  {
    hide ParseItems, ParseValue, Print, PrintItems;
    var t, inner := Print(Array(items), depth, fmt) + rest, PrintItems(items, depth + 1, fmt) + "]" + rest;
    ArrayText(items, depth, fmt, rest);
    ArrayUnfold(t);
    if items == NoItems {
      ItemTextNone(depth + 1, fmt);
      assert inner == "]" + rest && inner[1..] == rest;
    } else {
      ItemsRoundTrip(items, depth + 1, fmt, rest);
    }
  }

  lemma ItemTextNone(depth: nat, fmt: bool)
    ensures PrintItems(NoItems, depth, fmt) == ""
  {
  }

  /** The text of an item, taken apart. */
  function AfterItem(tail: Items, depth: nat, fmt: bool, close: string): string
    requires PlainItems(tail)
  {
    (if tail == NoItems then "" else if fmt then ", " else ",") + (PrintItems(tail, depth, fmt) + close)
  }

  lemma ItemText(items: Items, depth: nat, fmt: bool, close: string)
    requires PlainItems(items) && items.Item?
    ensures PrintItems(items, depth, fmt) + close == Print(items.head, depth, fmt) + AfterItem(items.tail, depth, fmt, close)
  {
    hide Print;
  }

  lemma {:induction false} ItemsRoundTrip(items: Items, depth: nat, fmt: bool, rest: string)
    requires PlainItems(items) && items.Item?
    ensures var t := PrintItems(items, depth, fmt) + "]" + rest;
      Skip(t) == t && Head(t) != ']' && ParseItems(t) == Ok(items, rest)
    decreases items, 0
  {
    hide ParseValue, ParseItems, Print, PrintItems;
    var Item(head, tail) := items;
    var close := "]" + rest;
    var t := PrintItems(items, depth, fmt) + close;
    assert PrintItems(items, depth, fmt) + "]" + rest == t;
    var after := AfterItem(tail, depth, fmt, close);
    ItemText(items, depth, fmt, close);
    PrintHead(head, depth, fmt, after);
    if tail == NoItems {
      ItemTextNone(depth, fmt);
      assert after == close;
      ValueRoundTrip(head, depth, fmt, after);
      ItemsUnfold(t, head, after);
      assert close[1..] == rest;
    } else {
      var blank := if fmt then " " else "";
      var more := PrintItems(tail, depth, fmt) + close;
      assert after[0] == ',' && after[1..] == blank + more;
      assert more == PrintItems(tail, depth, fmt) + "]" + rest;
      ValueRoundTrip(head, depth, fmt, after);
      ItemsRoundTrip(tail, depth, fmt, rest);
      SkipBlanks(blank, more);
      SameAfterSkip(blank + more, more);
      ItemsUnfold(t, head, after);
    }
  }

  /** The end of an object, after its members. */
  function Close(depth: nat, fmt: bool): string {
    (if fmt then Tabs(depth) else "") + "}"
  }

  lemma SkipClose(newline: string, depth: nat, fmt: bool, rest: string)
    requires newline == "" || newline == "\n"
    ensures Skip(newline + (Close(depth, fmt) + rest)) == "}" + rest
  {
    var tabs := if fmt then Tabs(depth) else "";
    assert Close(depth, fmt) + rest == tabs + ("}" + rest);
    SkipBlanks(newline, Close(depth, fmt) + rest);
    SkipBlanks(tabs, "}" + rest);
  }

  lemma ObjectText(members: Members, depth: nat, fmt: bool, rest: string)
    requires PlainMembers(members)
    ensures Print(Object(members), depth, fmt) + rest ==
      "{" + ((if fmt then "\n" else "") + (PrintMembers(members, depth + 1, fmt) + (Close(depth, fmt) + rest)))
  {
    hide PrintMembers;
  }

  lemma {:induction false} ObjectRoundTrip(members: Members, depth: nat, fmt: bool, rest: string)
    requires PlainMembers(members)
    ensures ParseValue(Print(Object(members), depth, fmt) + rest) == Ok(Object(members), rest)
    decreases members, 1
  {
    hide ParseMembers, ParseValue, Skip, Print, PrintMembers, Close;
    var t := Print(Object(members), depth, fmt) + rest;
    var newline := if fmt then "\n" else "";
    var inner := PrintMembers(members, depth + 1, fmt) + (Close(depth, fmt) + rest);
    ObjectText(members, depth, fmt, rest);
    ObjectUnfold(t);
    assert t[0] == '{' && t[1..] == newline + inner;
    if members == NoMembers {
      NoMoreMembers(depth + 1, fmt);
      assert inner == Close(depth, fmt) + rest;
      SkipClose(newline, depth, fmt, rest);
      assert ("}" + rest)[1..] == rest;
    } else {
      SkipBlanks(newline, inner);
      MembersRoundTrip(members, depth + 1, fmt, rest);
      SkipTwice(inner);
      SameAfterSkip(Skip(inner), inner);
    }
  }

  lemma SkipTwice(t: string)
    ensures Skip(Skip(t)) == Skip(t)
  {
  }

  /** The text of a member, taken apart. */
  function After(tail: Members, depth: nat, fmt: bool, close: string): string
    requires PlainMembers(tail)
  {
    (if tail == NoMembers then "" else ",") + ((if fmt then "\n" else "") + (PrintMembers(tail, depth, fmt) + close))
  }

  lemma Regroup(a: string, b: string, c: string)
    ensures (a + b) + c == a + (b + c)
  {
  }

  lemma MemberText(members: Members, depth: nat, fmt: bool, close: string)
    requires PlainMembers(members) && members.Member?
    ensures PrintMembers(members, depth, fmt) + close ==
      (if fmt then Tabs(depth) else "") + (Quoted(members.name) + ((if fmt then ":\t" else ":")
        + (Print(members.value, depth, fmt) + After(members.tail, depth, fmt, close))))
  {
    var tabs := if fmt then Tabs(depth) else "";
    var name, colon := Quoted(members.name), if fmt then ":\t" else ":";
    var value := Print(members.value, depth, fmt);
    var comma, newline := if members.tail == NoMembers then "" else ",", if fmt then "\n" else "";
    var more := PrintMembers(members.tail, depth, fmt);
    assert PrintMembers(members, depth, fmt) == tabs + name + colon + value + comma + newline + more;
    assert After(members.tail, depth, fmt, close) == comma + (newline + (more + close));
    hide Print, Quoted, PrintMembers, After, Tabs, PlainMembers;
    Regroup(tabs + name + colon + value + comma + newline, more, close);
    Regroup(tabs + name + colon + value + comma, newline, more + close);
    Regroup(tabs + name + colon + value, comma, newline + (more + close));
    Regroup(tabs + name + colon, value, comma + (newline + (more + close)));
    Regroup(tabs + name, colon, value + (comma + (newline + (more + close))));
    Regroup(tabs, name, colon + (value + (comma + (newline + (more + close)))));
  }

  lemma {:induction false} MembersRoundTrip(members: Members, depth: nat, fmt: bool, rest: string)
    requires PlainMembers(members) && members.Member? && depth > 0
    ensures var t := PrintMembers(members, depth, fmt) + (Close(depth - 1, fmt) + rest);
      Head(Skip(t)) == '\"' && ParseMembers(t) == Ok(members, rest)
    decreases members, 0
  {
    hide ParseValue, ParseString, ParseMembers, Print, PrintMembers;
    var Member(name, value, tail) := members;
    var tabs := if fmt then Tabs(depth) else "";
    var close := Close(depth - 1, fmt) + rest;
    var newline := if fmt then "\n" else "";
    var colon := if fmt then ":\t" else ":";
    var after := After(tail, depth, fmt, close);
    var body := Print(value, depth, fmt) + after;
    var t := PrintMembers(members, depth, fmt) + close;
    var t1 := Quoted(name) + (colon + body);
    MemberText(members, depth, fmt, close);
    SkipBlanks(tabs, t1);
    StringRoundTrip(name, colon + body);
    assert Skip(t) == t1;
    PrintHead(value, depth, fmt, after);
    assert (colon + body)[1..] == colon[1..] + body;
    SkipBlanks(colon[1..], body);
    AfterEndsNumber(tail, depth, fmt, rest);
    ValueRoundTrip(value, depth, fmt, after);
    MembersUnfold(t, name, colon + body, value, after);
    if tail == NoMembers {
      assert after == newline + close by { NoMoreMembers(depth, fmt); }
      SkipClose(newline, depth - 1, fmt, rest);
      assert ("}" + rest)[1..] == rest;
    } else {
      var more := PrintMembers(tail, depth, fmt) + close;
      assert after[1..] == newline + more;
      SkipBlanks(newline, more);
      SameAfterSkip(newline + more, more);
      MembersRoundTrip(tail, depth, fmt, rest);
    }
  }

  lemma NoMoreMembers(depth: nat, fmt: bool)
    ensures PrintMembers(NoMembers, depth, fmt) == ""
  {
  }

  lemma AfterEndsNumber(tail: Members, depth: nat, fmt: bool, rest: string)
    requires PlainMembers(tail) && depth > 0
    ensures EndsNumber(After(tail, depth, fmt, Close(depth - 1, fmt) + rest))
  {
  }

  /** cJSON_Parse of cJSON_Print and of cJSON_PrintUnformatted, behind any blanks
      and before any text. */
  lemma DocumentRoundTrip(blanks: string, j: Json, fmt: bool, rest: string)
    requires Plain(j) && (j.Number? ==> EndsNumber(rest))
    requires forall i :: 0 <= i < |blanks| ==> '\0' < blanks[i] <= ' '
    ensures Parse(blanks + (Print(j, 0, fmt) + rest)) == Ok(j, rest)
  {
    PrintHead(j, 0, fmt, rest);
    SkipBlanks(blanks, Print(j, 0, fmt) + rest);
    ValueRoundTrip(j, 0, fmt, rest);
    hide ParseValue, Print;
  }

  /** Printing is injective: two different trees never have the same text. */
  lemma PrintInjective(a: Json, b: Json, fmt: bool)
    requires Plain(a) && Plain(b) && Print(a, 0, fmt) == Print(b, 0, fmt)
    ensures a == b
  {
    DocumentRoundTrip("", a, fmt, "");
    DocumentRoundTrip("", b, fmt, "");
  }
}
