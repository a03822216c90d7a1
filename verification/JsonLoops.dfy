/** The loops of the parser (src/cJSON.c:99-123, :256, :372-384, :405-430,
    :484-517), each proved to compute its reference definition. */
module JsonLoops {
  import opened JsonText
  import opened JsonParse
  import opened JsonStrings

  /** skip */
  method SkipBlanks(t: string) returns (r: string)
    ensures r == Skip(t)
  {
    r := t;
    while Head(r) != '\0' && Head(r) <= ' '
      invariant Skip(r) == Skip(t)
      decreases |r|
    {
      r := r[1..];
    }
  }

  // ----- numbers

  /** One digit loop of parse_number. */
  method ReadDigits(t: string, start: int) returns (n: int, k: nat, rest: string)
    ensures (n, k) == Digits(t, start) && rest == t[k..]
  {
    n, k, rest := start, 0, t;
    while IsDigit(Head(rest))
      invariant k <= |t| && rest == t[k..]
      invariant Digits(t, start) == (Digits(rest, n).0, k + Digits(rest, n).1)
      decreases |rest|
    {
      n := n * 10 + (rest[0] as int - '0' as int);
      rest := rest[1..];
      k := k + 1;
    }
  }

  /** parse_number: its three digit loops are calls. */
  method ReadNumber(t: string) returns (r: Parsed<Json>)
    requires Head(t) == '-' || IsDigit(Head(t))
    ensures r == ParseNumber(t)
  {
    hide Whole, Fraction, Exponent, Scaled;
    var num, neg := t, false;
    if Head(num) == '-' {
      neg, num := true, num[1..];
    }
    var n, scale, subscale: int;
    n, num := ReadWhole(num);
    n, scale, num := ReadFraction(num, n);
    subscale, num := ReadExponent(num);
    r := Ok(Number(Scaled(neg, n, scale + subscale)), num);
  }

  method ReadWhole(t: string) returns (n: int, num: string)
    ensures (n, num) == Whole(t)
  {
    n, num := 0, t;
    if Head(num) == '0' {
      num := num[1..];
    }
    if '1' <= Head(num) <= '9' {
      var k;
      n, k, num := ReadDigits(num, n);
    }
  }

  method ReadFraction(t: string, start: int) returns (n: int, scale: int, num: string)
    ensures (n, scale, num) == Fraction(t, start)
  {
    n, scale, num := start, 0, t;
    if Head(num) == '.' && |num| > 1 && IsDigit(num[1]) {
      var k: int;
      n, k, num := ReadDigits(num[1..], n);
      scale := 0 - k;
    }
  }

  /** `subscale` times `signsubscale`, and the rest. */
  method ReadExponent(t: string) returns (e: int, num: string)
    ensures (e, num) == Exponent(t)
  {
    e, num := 0, t;
    if Head(num) == 'e' || Head(num) == 'E' {
      num := num[1..];
      var negative := false;
      if Head(num) == '+' {
        num := num[1..];
      } else if Head(num) == '-' {
        negative, num := true, num[1..];
      }
      var k;
      e, k, num := ReadDigits(num, 0);
      if negative {
        e := -e;
      }
    }
  }

  // ----- arrays

  /** The items read so far, followed by the rest of the chain. */
  function Chain(heads: seq<Json>, tail: Items): Items {
    if heads == [] then tail else Item(heads[0], Chain(heads[1..], tail))
  }

  lemma {:induction false} ChainSnoc(heads: seq<Json>, j: Json, tail: Items)
    ensures Chain(heads + [j], tail) == Chain(heads, Item(j, tail))
  {
    if heads == [] {
      assert (heads + [j])[1..] == [];
    } else {
      assert (heads + [j])[1..] == heads[1..] + [j];
      ChainSnoc(heads[1..], j, tail);
    }
  }

  /** What is left to parse after an item, at the byte behind it. */
  function ItemsBehind(v: string): Parsed<Items> {
    if Head(v) == ']' then Ok(NoItems, v[1..])
    else if Head(v) == ',' then ParseItems(v[1..])
    else Fail
  }

  /** ItemsBehind, with the items already read in front. */
  function Resume(heads: seq<Json>, v: string): Parsed<Items> {
    match ItemsBehind(v)
    case Ok(tail, rest) => Ok(Chain(heads, tail), rest)
    case Fail => Fail
    case Incomplete => Incomplete
  }

  lemma ItemsStart(t: string)
    ensures match ParseValue(Skip(t))
            case Ok(j, rest) => ParseItems(t) == Resume([j], Skip(rest))
            case Fail => ParseItems(t) == Fail
            case Incomplete => ParseItems(t) == Incomplete
  {
    hide ParseValue, Skip;
    match ParseValue(Skip(t)) {
      case Ok(j, rest) =>
        if ItemsBehind(Skip(rest)).Ok? {
          ChainSnoc([], j, ItemsBehind(Skip(rest)).value);
          assert [] + [j] == [j];
        }
      case _ =>
    }
  }

  /** One more item: the loop of parse_array is right to append it. */
  lemma ItemsStep(heads: seq<Json>, v: string)
    requires Head(v) == ','
    ensures match ParseValue(Skip(v[1..]))
            case Ok(j, rest) => Resume(heads, v) == Resume(heads + [j], Skip(rest))
            case Fail => Resume(heads, v) == Fail
            case Incomplete => Resume(heads, v) == Incomplete
  {
    ItemsStart(v[1..]);
    match ParseValue(Skip(v[1..])) {
      case Ok(j, rest) =>
        hide ParseValue, Skip, ParseItems;
        var behind := ItemsBehind(Skip(rest));
        if behind.Ok? {
          ChainSnoc(heads, j, behind.value);
          ChainSnoc([], j, behind.value);
          assert [] + [j] == [j];
        }
      case _ =>
    }
  }

  lemma ItemsEnd(heads: seq<Json>, v: string)
    requires Head(v) != ','
    ensures Resume(heads, v) == if Head(v) == ']' then Ok(Chain(heads, NoItems), v[1..]) else Fail
  {
  }

  function MadeArray(r: Parsed<Items>): Parsed<Json> {
    match r
    case Ok(items, rest) => Ok(Array(items), rest)
    case Fail => Fail
    case Incomplete => Incomplete
  }

  lemma ArrayCases(t: string)
    requires Head(t) == '['
    ensures var v := Skip(t[1..]);
      ParseValue(t) == if Head(v) == ']' then Ok(Array(NoItems), v[1..]) else MadeArray(ParseItems(v))
  {
    hide ParseItems, ParseMembers, ParseString, ParseNumber, Skip;
    assert t[0] == '[';
  }

  /** parse_array */
  method ReadArray(t: string) returns (r: Parsed<Json>)
    requires Head(t) == '['
    ensures r == ParseValue(t)
    decreases |t|, 1
  {
    var v := SkipBlanks(t[1..]);
    ArrayCases(t);
    if Head(v) == ']' {
      return Ok(Array(NoItems), v[1..]);
    }
    ghost var all := ParseItems(v);
    ItemsStart(v);
    hide ParseItems, ParseValue, Skip, Resume, Chain;
    var start := SkipBlanks(v);
    var child := ReadValue(start);
    if !child.Ok? {
      return if child.Fail? then Fail else Incomplete;
    }
    var heads := [child.value];
    v := SkipBlanks(child.rest);
    while Head(v) == ','
      invariant |v| < |t| && Resume(heads, v) == all
      decreases |v|
    {
      ItemsStep(heads, v);
      start := SkipBlanks(v[1..]);
      child := ReadValue(start);
      if !child.Ok? {
        return if child.Fail? then Fail else Incomplete;
      }
      heads := heads + [child.value];
      v := SkipBlanks(child.rest);
    }
    ItemsEnd(heads, v);
    if Head(v) == ']' {
      return Ok(Array(Chain(heads, NoItems)), v[1..]);
    }
    return Fail;
  }

  // ----- objects

  function ChainMembers(heads: seq<(string, Json)>, tail: Members): Members {
    if heads == [] then tail else Member(heads[0].0, heads[0].1, ChainMembers(heads[1..], tail))
  }

  lemma {:induction false} ChainMembersSnoc(heads: seq<(string, Json)>, name: string, j: Json, tail: Members)
    ensures ChainMembers(heads + [(name, j)], tail) == ChainMembers(heads, Member(name, j, tail))
  {
    if heads == [] {
      assert (heads + [(name, j)])[1..] == [];
    } else {
      assert (heads + [(name, j)])[1..] == heads[1..] + [(name, j)];
      ChainMembersSnoc(heads[1..], name, j, tail);
    }
  }

  /** One name, its colon and its value. */
  function ParseMember(t: string): (r: Parsed<(string, Json)>)
    ensures r.Ok? ==> |r.rest| < |t|
  {
    match ParseString(Skip(t))
    case Fail => Fail
    case Incomplete => Incomplete
    case Ok(name, rest) =>
      var u := Skip(rest);
      if Head(u) != ':' then Fail
      else
        match ParseValue(Skip(u[1..]))
        case Fail => Fail
        case Incomplete => Incomplete
        case Ok(value, rest) => Ok((name, value), rest)
  }

  function MembersBehind(v: string): Parsed<Members> {
    if Head(v) == '}' then Ok(NoMembers, v[1..])
    else if Head(v) == ',' then ParseMembers(v[1..])
    else Fail
  }

  function ResumeMembers(heads: seq<(string, Json)>, v: string): Parsed<Members> {
    match MembersBehind(v)
    case Ok(tail, rest) => Ok(ChainMembers(heads, tail), rest)
    case Fail => Fail
    case Incomplete => Incomplete
  }

  lemma MembersStart(t: string)
    ensures match ParseMember(t)
            case Ok(m, rest) => ParseMembers(t) == ResumeMembers([m], Skip(rest))
            case Fail => ParseMembers(t) == Fail
            case Incomplete => ParseMembers(t) == Incomplete
  {
    hide ParseValue, ParseString, Skip;
    match ParseMember(t) {
      case Ok(m, rest) =>
        if MembersBehind(Skip(rest)).Ok? {
          ChainMembersSnoc([], m.0, m.1, MembersBehind(Skip(rest)).value);
          assert [] + [m] == [m];
        }
      case _ =>
    }
  }

  lemma MembersStep(heads: seq<(string, Json)>, v: string)
    requires Head(v) == ','
    ensures match ParseMember(v[1..])
            case Ok(m, rest) => ResumeMembers(heads, v) == ResumeMembers(heads + [m], Skip(rest))
            case Fail => ResumeMembers(heads, v) == Fail
            case Incomplete => ResumeMembers(heads, v) == Incomplete
  {
    MembersStart(v[1..]);
    hide ParseMember, Skip, ParseMembers;
    match ParseMember(v[1..]) {
      case Ok(m, rest) =>
        var behind := MembersBehind(Skip(rest));
        if behind.Ok? {
          ChainMembersSnoc(heads, m.0, m.1, behind.value);
          ChainMembersSnoc([], m.0, m.1, behind.value);
          assert [] + [m] == [m];
        }
      case _ =>
    }
  }

  lemma MembersEnd(heads: seq<(string, Json)>, v: string)
    requires Head(v) != ','
    ensures ResumeMembers(heads, v) == if Head(v) == '}' then Ok(ChainMembers(heads, NoMembers), v[1..]) else Fail
  {
  }

  function MadeObject(r: Parsed<Members>): Parsed<Json> {
    match r
    case Ok(members, rest) => Ok(Object(members), rest)
    case Fail => Fail
    case Incomplete => Incomplete
  }

  lemma ObjectCases(t: string)
    requires Head(t) == '{'
    ensures var v := Skip(t[1..]);
      ParseValue(t) == if Head(v) == '}' then Ok(Object(NoMembers), v[1..]) else MadeObject(ParseMembers(v))
  {
    hide ParseItems, ParseMembers, ParseString, ParseNumber, Skip;
    assert t[0] == '{';
  }

  /** Lines 495-500 and 507-512. */
  method ReadMember(t: string) returns (r: Parsed<(string, Json)>)
    ensures r == ParseMember(t)
    decreases |t|, 2
  {
    hide ParseValue, ParseString, Skip;
    var start := SkipBlanks(t);
    var name := ParseStringInto(start);
    if !name.Ok? {
      return if name.Fail? then Fail else Incomplete;
    }
    var u := SkipBlanks(name.rest);
    if Head(u) != ':' {
      return Fail;
    }
    u := SkipBlanks(u[1..]);
    var value := ReadValue(u);
    if !value.Ok? {
      return if value.Fail? then Fail else Incomplete;
    }
    return Ok((name.value, value.value), value.rest);
  }

  /** parse_object */
  method ReadObject(t: string) returns (r: Parsed<Json>)
    requires Head(t) == '{'
    ensures r == ParseValue(t)
    decreases |t|, 1
  {
    var v := SkipBlanks(t[1..]);
    ObjectCases(t);
    if Head(v) == '}' {
      return Ok(Object(NoMembers), v[1..]);
    }
    ghost var all := ParseMembers(v);
    MembersStart(v);
    hide ParseMembers, ParseMember, ParseValue, Skip, ResumeMembers, ChainMembers;
    var child := ReadMember(v);
    if !child.Ok? {
      return if child.Fail? then Fail else Incomplete;
    }
    var heads := [child.value];
    v := SkipBlanks(child.rest);
    while Head(v) == ','
      invariant |v| < |t| && ResumeMembers(heads, v) == all
      decreases |v|
    {
      MembersStep(heads, v);
      child := ReadMember(v[1..]);
      if !child.Ok? {
        return if child.Fail? then Fail else Incomplete;
      }
      heads := heads + [child.value];
      v := SkipBlanks(child.rest);
    }
    MembersEnd(heads, v);
    if Head(v) == '}' {
      return Ok(Object(ChainMembers(heads, NoMembers)), v[1..]);
    }
    return Fail;
  }

  // ----- values

  /** parse_value */
  method ReadValue(t: string) returns (r: Parsed<Json>)
    ensures r == ParseValue(t)
    decreases |t|, 2
  {
    hide ParseItems, ParseMembers, ParseString, ParseNumber, Skip;
    if "null" <= t {
      return Ok(Null, t[4..]);
    } else if "false" <= t {
      return Ok(False, t[5..]);
    } else if "true" <= t {
      return Ok(True, t[4..]);
    } else if Head(t) == '\"' {
      var s := ParseStringInto(t);
      return match s case Ok(v, rest) => Ok(String(v), rest) case Fail => Fail case Incomplete => Incomplete;
    } else if Head(t) == '-' || IsDigit(Head(t)) {
      r := ReadNumber(t);
    } else if Head(t) == '[' {
      r := ReadArray(t);
    } else if Head(t) == '{' {
      r := ReadObject(t);
    } else {
      return Fail;
    }
  }

  /** cJSON_Parse: src/cJSON.c:259-267. */
  method ParseDocument(t: string) returns (r: Parsed<Json>)
    ensures r == Parse(t)
  {
    hide ParseValue, Skip;
    var value := SkipBlanks(t);
    r := ReadValue(value);
  }
}
