/** The language of cJSON_Parse (src/cJSON.c:256-267, :372-384, :405-430, :484-517):
    texts laid out with any blanks, in any spelling.  Every laid-out text is read
    as the tree it means, and whatever is read is laid out. */
module JsonGrammar {
  import opened JsonText
  import opened JsonParse
  import opened JsonRoundTrip
  import opened JsonNumerals
  import opened JsonSpelling

  /** A value with its spelling and the blanks inside it. */
  datatype Layout =
    | NullWord
    | FalseWord
    | TrueWord
    | Numeric(n: Numeral)
    | Text(s: Spelling)
    | List(gap: string, cells: Cells)
    | Table(gap: string, fields: Fields)

  datatype Cells = NoCells | Cell(before: string, value: Layout, after: string, tail: Cells)

  datatype Fields = NoFields
    | Field(before: string, name: Spelling, beforeColon: string, afterColon: string, value: Layout, after: string, tail: Fields)

  predicate Blank(s: string) {
    forall i :: 0 <= i < |s| ==> '\0' < s[i] <= ' '
  }

  /** A string inside an array or an object has its closing quote. */
  predicate Closed(l: Layout) {
    l.Text? ==> l.s.closed
  }

  predicate LayoutOk(l: Layout) {
    match l
    case Numeric(n) => NumeralOk(n)
    case Text(s) => SpellingOk(s)
    case List(gap, cells) => Blank(gap) && CellsOk(cells)
    case Table(gap, fields) => Blank(gap) && FieldsOk(fields)
    case _ => true
  }

  predicate CellsOk(cells: Cells) {
    match cells
    case NoCells => true
    case Cell(before, value, after, tail) => Blank(before) && LayoutOk(value) && Closed(value) && Blank(after) && CellsOk(tail)
  }

  predicate FieldsOk(fields: Fields) {
    match fields
    case NoFields => true
    case Field(before, name, beforeColon, afterColon, value, after, tail) =>
      && Blank(before) && SpellingOk(name) && name.closed && Blank(beforeColon) && Blank(afterColon)
      && LayoutOk(value) && Closed(value) && Blank(after) && FieldsOk(tail)
  }

  /** The text behind a value does not belong to it. */
  predicate LayoutEnds(l: Layout, rest: string) {
    match l
    case Numeric(n) => NumeralEnds(n, rest)
    case Text(s) => s.closed || Head(rest) == '\0'
    case _ => true
  }

  function LayoutText(l: Layout): string
    requires LayoutOk(l)
    decreases l
  {
    match l
    case NullWord => "null"
    case FalseWord => "false"
    case TrueWord => "true"
    case Numeric(n) => NumeralText(n)
    case Text(s) => SpellingText(s)
    case List(gap, cells) => "[" + (gap + CellsText(cells))
    case Table(gap, fields) => "{" + (gap + FieldsText(fields))
  }

  /** The cells with their separators and the closing bracket. */
  function CellsText(cells: Cells): string
    requires CellsOk(cells)
    decreases cells
  {
    match cells
    case NoCells => "]"
    case Cell(before, value, after, tail) =>
      before + (LayoutText(value) + (after + ((if tail == NoCells then "" else ",") + CellsText(tail))))
  }

  function FieldsText(fields: Fields): string
    requires FieldsOk(fields)
    decreases fields
  {
    match fields
    case NoFields => "}"
    case Field(before, name, beforeColon, afterColon, value, after, tail) =>
      before + (SpellingText(name) + (beforeColon + (":" + (afterColon
        + (LayoutText(value) + (after + ((if tail == NoFields then "" else ",") + FieldsText(tail))))))))
  }

  function Meaning(l: Layout): Json
    requires LayoutOk(l)
    decreases l
  {
    match l
    case NullWord => Null
    case FalseWord => False
    case TrueWord => True
    case Numeric(n) => Number(NumeralValue(n))
    case Text(s) => String(Bytes(s.pieces))
    case List(_, cells) => Array(CellsMeaning(cells))
    case Table(_, fields) => Object(FieldsMeaning(fields))
  }

  function CellsMeaning(cells: Cells): Items
    requires CellsOk(cells)
    decreases cells
  {
    match cells
    case NoCells => NoItems
    case Cell(_, value, _, tail) => Item(Meaning(value), CellsMeaning(tail))
  }

  function FieldsMeaning(fields: Fields): Members
    requires FieldsOk(fields)
    decreases fields
  {
    match fields
    case NoFields => NoMembers
    case Field(_, name, _, _, value, _, tail) => Member(Bytes(name.pieces), Meaning(value), FieldsMeaning(tail))
  }

  // ----- every laid-out text is read as what it means

  /** A byte that ends an item or a member. */
  predicate Separates(t: string) {
    Head(t) == ',' || Head(t) == ']' || Head(t) == '}'
  }

  lemma NestedEnds(l: Layout, after: string, end: string)
    requires Closed(l) && Blank(after) && Separates(end)
    ensures LayoutEnds(l, after + end)
  {
    if after == "" {
      assert after + end == end;
    } else {
      assert Head(after + end) == after[0];
    }
  }

  lemma SkipTo(blank: string, t: string)
    requires Blank(blank) && Head(t) > ' '
    ensures Skip(blank + t) == t
  {
    SkipBlanks(blank, t);
  }

  lemma LayoutHead(l: Layout, rest: string)
    requires LayoutOk(l)
    ensures var c := Head(LayoutText(l) + rest); c > ' ' && c != ']' && c != '}' && c != ',' && c != ':'
  {
    match l {
      case Numeric(n) =>
        NumeralTextSplit(n, rest);
        hide NumeralText, NumeralOk;
        NumeralHead(n, rest);
      case Text(s) => assert LayoutText(l)[0] == '\"';
      case _ =>
    }
  }

  lemma NumeralHead(n: Numeral, rest: string)
    requires NumeralOk(n)
    ensures Head(NumeralText(n) + rest) == '-' || IsDigit(Head(NumeralText(n) + rest))
  {
    SignRead(n, rest);
    NumeralTextSplit(n, rest);
  }

  lemma {:induction false} LayoutRead(l: Layout, rest: string)
    requires LayoutOk(l) && LayoutEnds(l, rest)
    ensures ParseValue(LayoutText(l) + rest) == Ok(Meaning(l), rest)
    decreases l
  {
    var t := LayoutText(l) + rest;
    match l {
      case NullWord => WordRead("null", rest);
      case FalseWord => WordRead("false", rest);
      case TrueWord => WordRead("true", rest);
      case Numeric(n) =>
        NumeralRead(n, rest);
        hide ParseNumber, NumeralText, NumeralValue;
        NumberUnfold(t);
      case Text(s) =>
        SpellingRead(s, rest);
        hide ParseString, PiecesText, Bytes;
        StringUnfold(t);
      case List(gap, cells) => ListRead(gap, cells, rest);
      case Table(gap, fields) => TableRead(gap, fields, rest);
    }
  }

  lemma WordRead(word: string, rest: string)
    requires word == "null" || word == "false" || word == "true"
    ensures ParseValue(word + rest) == Ok(if word == "null" then Null else if word == "false" then False else True, rest)
  {
    hide ParseString, ParseNumber, ParseItems, ParseMembers;
    var t := word + rest;
    assert t[0] == word[0] && word <= t && t[|word|..] == rest;
  }

  lemma NumberUnfold(t: string)
    requires Head(t) == '-' || IsDigit(Head(t))
    ensures ParseValue(t) == ParseNumber(t)
  {
    hide ParseString, ParseNumber, ParseItems, ParseMembers;
    assert t[0] == Head(t);
  }

  lemma {:induction false} ListRead(gap: string, cells: Cells, rest: string)
    requires Blank(gap) && CellsOk(cells)
    ensures ParseValue(LayoutText(List(gap, cells)) + rest) == Ok(Array(CellsMeaning(cells)), rest)
    decreases cells, 1
  {
    var inner := CellsText(cells) + rest;
    var t := LayoutText(List(gap, cells)) + rest;
    assert t == "[" + (gap + inner);
    assert t[1..] == gap + inner;
    SkipBlanks(gap, inner);
    if cells == NoCells {
      assert inner == "]" + rest && inner[1..] == rest;
      hide ParseValue, ParseItems, LayoutText;
      ArrayUnfold(t);
    } else {
      CellsRead(cells, rest);
      hide ParseValue, ParseItems, LayoutText, CellsText, CellsMeaning;
      CellsHead(cells, rest);
      SkipTwice(inner);
      SameAfterSkip(Skip(inner), inner);
      ArrayUnfold(t);
    }
  }

  lemma CellsHead(cells: Cells, rest: string)
    requires CellsOk(cells) && cells.Cell?
    ensures Head(Skip(CellsText(cells) + rest)) != ']'
  {
    var Cell(before, value, after, tail) := cells;
    var end := after + ((if tail == NoCells then "" else ",") + CellsText(tail)) + rest;
    assert CellsText(cells) + rest == before + (LayoutText(value) + end);
    LayoutHead(value, end);
    hide LayoutText, CellsText;
    SkipTo(before, LayoutText(value) + end);
  }

  /** What stands behind the value of the first cell. */
  function AfterCell(cells: Cells, rest: string): string
    requires CellsOk(cells) && cells.Cell?
  {
    (if cells.tail == NoCells then "" else ",") + (CellsText(cells.tail) + rest)
  }

  lemma CellText(cells: Cells, rest: string)
    requires CellsOk(cells) && cells.Cell?
    ensures CellsText(cells) + rest == cells.before + (LayoutText(cells.value) + (cells.after + AfterCell(cells, rest)))
    ensures Separates(AfterCell(cells, rest))
    ensures cells.tail == NoCells ==> AfterCell(cells, rest) == "]" + rest && AfterCell(cells, rest)[1..] == rest
    ensures cells.tail != NoCells ==> Head(AfterCell(cells, rest)) == ',' && AfterCell(cells, rest)[1..] == CellsText(cells.tail) + rest
  {
    var Cell(before, value, after, tail) := cells;
    var comma, more := if tail == NoCells then "" else ",", CellsText(tail);
    var text := LayoutText(value);
    assert tail == NoCells ==> more == "]";
    assert CellsText(cells) == before + (text + (after + (comma + more)));
    hide *;
    Regroup(before, text + (after + (comma + more)), rest);
    Regroup(text, after + (comma + more), rest);
    Regroup(after, comma + more, rest);
    Regroup(comma, more, rest);
    CommaThen(tail == NoCells, more + rest);
    assert AfterCell(cells, rest) == comma + (more + rest) by { AfterCellIs(cells, rest); }
    if tail == NoCells { BracketThen(rest); }
  }

  lemma AfterCellIs(cells: Cells, rest: string)
    requires CellsOk(cells) && cells.Cell?
    ensures AfterCell(cells, rest) == (if cells.tail == NoCells then "" else ",") + (CellsText(cells.tail) + rest)
  {
  }

  lemma CommaThen(last: bool, t: string)
    ensures var u := (if last then "" else ",") + t;
      && (last ==> u == t) && (!last ==> Head(u) == ',' && Separates(u) && u[1..] == t)
  {
  }

  lemma BracketThen(rest: string)
    ensures ("]" + rest)[1..] == rest && Separates("]" + rest) && Head("]" + rest) == ']'
    ensures ("}" + rest)[1..] == rest && Separates("}" + rest) && Head("}" + rest) == '}'
  {
  }

  lemma {:induction false} CellsRead(cells: Cells, rest: string)
    requires CellsOk(cells) && cells.Cell?
    ensures ParseItems(CellsText(cells) + rest) == Ok(CellsMeaning(cells), rest)
    decreases cells, 0
  {
    var Cell(before, value, after, tail) := cells;
    var end := AfterCell(cells, rest);
    var t, u := CellsText(cells) + rest, LayoutText(value) + (after + end);
    assert CellsMeaning(cells) == Item(Meaning(value), CellsMeaning(tail));
    CellText(cells, rest);
    NestedEnds(value, after, end);
    LayoutRead(value, after + end);
    if tail != NoCells {
      CellsRead(tail, rest);
    } else {
      assert CellsMeaning(tail) == NoItems;
    }
    LayoutHead(value, after + end);
    assert Head(end) > ' ';
    hide LayoutText, CellsText, Meaning, CellsMeaning, ParseValue, ParseItems, AfterCell, LayoutEnds, LayoutOk;
    SkipTo(before, u);
    SkipTo(after, end);
    ItemsUnfold(t, Meaning(value), after + end);
  }

  lemma {:induction false} TableRead(gap: string, fields: Fields, rest: string)
    requires Blank(gap) && FieldsOk(fields)
    ensures ParseValue(LayoutText(Table(gap, fields)) + rest) == Ok(Object(FieldsMeaning(fields)), rest)
    decreases fields, 1
  {
    var inner := FieldsText(fields) + rest;
    var t := LayoutText(Table(gap, fields)) + rest;
    assert t == "{" + (gap + inner);
    assert t[1..] == gap + inner;
    SkipBlanks(gap, inner);
    if fields == NoFields {
      assert inner == "}" + rest && inner[1..] == rest;
      hide ParseValue, ParseMembers, LayoutText;
      ObjectUnfold(t);
    } else {
      FieldsRead(fields, rest);
      hide ParseValue, ParseMembers, LayoutText, FieldsText, FieldsMeaning;
      FieldsHead(fields, rest);
      SkipTwice(inner);
      SameAfterSkip(Skip(inner), inner);
      ObjectUnfold(t);
    }
  }

  function AfterField(fields: Fields, rest: string): string
    requires FieldsOk(fields) && fields.Field?
  {
    (if fields.tail == NoFields then "" else ",") + (FieldsText(fields.tail) + rest)
  }

  lemma AfterFieldIs(fields: Fields, rest: string)
    requires FieldsOk(fields) && fields.Field?
    ensures AfterField(fields, rest) == (if fields.tail == NoFields then "" else ",") + (FieldsText(fields.tail) + rest)
  {
  }

  /** The colon of the first field, and all behind it. */
  function FromColon(fields: Fields, rest: string): string
    requires FieldsOk(fields) && fields.Field?
  {
    ":" + (fields.afterColon + (LayoutText(fields.value) + (fields.after + AfterField(fields, rest))))
  }

  lemma FieldText(fields: Fields, rest: string)
    requires FieldsOk(fields) && fields.Field?
    ensures FieldsText(fields) + rest ==
      fields.before + (SpellingText(fields.name) + (fields.beforeColon + FromColon(fields, rest)))
    ensures Separates(AfterField(fields, rest))
    ensures fields.tail == NoFields ==> AfterField(fields, rest) == "}" + rest && AfterField(fields, rest)[1..] == rest
    ensures fields.tail != NoFields ==>
      Head(AfterField(fields, rest)) == ',' && AfterField(fields, rest)[1..] == FieldsText(fields.tail) + rest
  {
    var Field(before, spelling, beforeColon, afterColon, value, after, tail) := fields;
    var comma, more := if tail == NoFields then "" else ",", FieldsText(tail);
    var name, text := SpellingText(spelling), LayoutText(value);
    assert tail == NoFields ==> more == "}";
    assert FieldsText(fields) == before + (name + (beforeColon + (":" + (afterColon + (text + (after + (comma + more)))))));
    assert FromColon(fields, rest) == ":" + (afterColon + (text + (after + AfterField(fields, rest))));
    hide *;
    Regroup(before, name + (beforeColon + (":" + (afterColon + (text + (after + (comma + more)))))), rest);
    Regroup(name, beforeColon + (":" + (afterColon + (text + (after + (comma + more))))), rest);
    Regroup(beforeColon, ":" + (afterColon + (text + (after + (comma + more)))), rest);
    Regroup(":", afterColon + (text + (after + (comma + more))), rest);
    Regroup(afterColon, text + (after + (comma + more)), rest);
    Regroup(text, after + (comma + more), rest);
    Regroup(after, comma + more, rest);
    Regroup(comma, more, rest);
    CommaThen(tail == NoFields, more + rest);
    AfterFieldIs(fields, rest);
    if tail == NoFields { BracketThen(rest); }
  }

  lemma ColonThen(fields: Fields, rest: string)
    requires FieldsOk(fields) && fields.Field?
    ensures Head(FromColon(fields, rest)) == ':'
    ensures FromColon(fields, rest)[1..] == fields.afterColon + (LayoutText(fields.value) + (fields.after + AfterField(fields, rest)))
  {
    hide LayoutText, AfterField, FieldsOk;
  }

  lemma SpellingHead(s: Spelling, rest: string)
    requires SpellingOk(s)
    ensures Head(SpellingText(s) + rest) == '\"'
  {
    assert SpellingText(s)[0] == '\"';
  }

  lemma FieldsHead(fields: Fields, rest: string)
    requires FieldsOk(fields) && fields.Field?
    ensures Head(Skip(FieldsText(fields) + rest)) != '}'
  {
    var t := SpellingText(fields.name) + (fields.beforeColon + FromColon(fields, rest));
    FieldText(fields, rest);
    SpellingHead(fields.name, fields.beforeColon + FromColon(fields, rest));
    hide LayoutText, FieldsText, FromColon, SpellingText;
    SkipTo(fields.before, t);
  }

  lemma {:induction false} FieldsRead(fields: Fields, rest: string)
    requires FieldsOk(fields) && fields.Field?
    ensures ParseMembers(FieldsText(fields) + rest) == Ok(FieldsMeaning(fields), rest)
    decreases fields, 0
  {
    var Field(before, name, beforeColon, afterColon, value, after, tail) := fields;
    var end := AfterField(fields, rest);
    var colon := FromColon(fields, rest);
    var t, u := FieldsText(fields) + rest, LayoutText(value) + (after + end);
    assert FieldsMeaning(fields) == Member(Bytes(name.pieces), Meaning(value), FieldsMeaning(tail));
    FieldText(fields, rest);
    NestedEnds(value, after, end);
    LayoutRead(value, after + end);
    if tail != NoFields {
      FieldsRead(tail, rest);
    } else {
      assert FieldsMeaning(tail) == NoMembers;
    }
    assert Head(end) > ' ';
    hide LayoutEnds, ParseValue, ParseMembers, ParseString;
    FieldSteps(fields, rest, end, colon, t, u);
  }

  /** One turn of the loop of parse_object on the first field. */
  lemma FieldSteps(fields: Fields, rest: string, end: string, colon: string, t: string, u: string)
    requires FieldsOk(fields) && fields.Field? && end == AfterField(fields, rest) && colon == FromColon(fields, rest)
    requires t == FieldsText(fields) + rest && u == LayoutText(fields.value) + (fields.after + end)
    requires t == fields.before + (SpellingText(fields.name) + (fields.beforeColon + colon)) && Head(end) > ' '
    requires ParseValue(u) == Ok(Meaning(fields.value), fields.after + end)
    ensures Skip(fields.after + end) == end
    ensures Head(end) == '}' ==> ParseMembers(t) == Ok(Member(Bytes(fields.name.pieces), Meaning(fields.value), NoMembers), end[1..])
    ensures Head(end) == ',' && ParseMembers(end[1..]).Ok? ==>
      var r := ParseMembers(end[1..]);
      ParseMembers(t) == Ok(Member(Bytes(fields.name.pieces), Meaning(fields.value), r.value), r.rest)
  {
    var Field(before, name, beforeColon, afterColon, value, after, tail) := fields;
    assert Blank(before) && Blank(beforeColon) && Blank(afterColon) && Blank(after) && SpellingOk(name) && name.closed && LayoutOk(value);
    ColonThen(fields, rest);
    hide *;
    SpellingRead(name, beforeColon + colon);
    SpellingHead(name, beforeColon + colon);
    SkipTo(before, SpellingText(name) + (beforeColon + colon));
    SkipTo(beforeColon, colon);
    LayoutHead(value, after + end);
    SkipTo(afterColon, u);
    SkipTo(after, end);
    MembersUnfold(t, Bytes(name.pieces), beforeColon + colon, Meaning(value), after + end);
  }

  // ----- whatever is read is laid out

  lemma BlanksOf(t: string) returns (blank: string)
    ensures Blank(blank) && t == blank + Skip(t)
  {
    SkipPassesBlanks(t);
    blank := t[..|t| - |Skip(t)|];
  }

  /** What stands behind a value that a separator follows closes a string. */
  lemma EndsClosed(l: Layout, rest: string)
    requires LayoutEnds(l, rest) && Separates(Skip(rest))
    ensures Closed(l)
  {
  }

  /** The cases of parse_value that read something. */
  lemma ValueCases(t: string)
    requires ParseValue(t).Ok?
    ensures "null" <= t || "false" <= t || "true" <= t || Head(t) == '\"' || Head(t) == '-' || IsDigit(Head(t)) || Head(t) == '[' || Head(t) == '{'
    ensures "null" <= t ==> ParseValue(t).rest == t[4..]
    ensures "false" <= t ==> ParseValue(t).rest == t[5..]
    ensures "true" <= t ==> ParseValue(t).rest == t[4..]
    ensures Head(t) == '\"' ==> ParseString(t).Ok? && ParseValue(t).rest == ParseString(t).rest
    ensures Head(t) == '-' || IsDigit(Head(t)) ==> ParseValue(t) == ParseNumber(t)
  {
    hide ParseString, ParseNumber, ParseItems, ParseMembers, Skip;
    assert "null" <= t ==> t[0] == 'n';
    assert "false" <= t ==> t[0] == 'f';
    assert "true" <= t ==> t[0] == 't';
  }

  lemma ListCases(t: string)
    requires ParseValue(t).Ok? && Head(t) == '['
    ensures var v := Skip(t[1..]);
      if Head(v) == ']' then ParseValue(t).rest == v[1..]
      else ParseItems(v).Ok? && ParseValue(t).rest == ParseItems(v).rest
  {
    hide ParseString, ParseNumber, ParseItems, ParseMembers, Skip;
    assert t[0] == '[';
  }

  lemma TableCases(t: string)
    requires ParseValue(t).Ok? && Head(t) == '{'
    ensures var v := Skip(t[1..]);
      if Head(v) == '}' then ParseValue(t).rest == v[1..]
      else ParseMembers(v).Ok? && ParseValue(t).rest == ParseMembers(v).rest
  {
    hide ParseString, ParseNumber, ParseItems, ParseMembers, Skip;
    assert t[0] == '{';
  }

  lemma ItemsCases(t: string)
    requires ParseItems(t).Ok?
    ensures ParseValue(Skip(t)).Ok?
    ensures var v := Skip(ParseValue(Skip(t)).rest);
      if Head(v) == ']' then ParseItems(t).rest == v[1..]
      else Head(v) == ',' && ParseItems(v[1..]).Ok? && ParseItems(t).rest == ParseItems(v[1..]).rest
  {
    hide ParseValue, Skip;
  }

  lemma MembersCases(t: string)
    requires ParseMembers(t).Ok?
    ensures ParseString(Skip(t)).Ok?
    ensures var u := Skip(ParseString(Skip(t)).rest);
      && Head(u) == ':' && ParseValue(Skip(u[1..])).Ok?
      && var v := Skip(ParseValue(Skip(u[1..])).rest);
      if Head(v) == '}' then ParseMembers(t).rest == v[1..]
      else Head(v) == ',' && ParseMembers(v[1..]).Ok? && ParseMembers(t).rest == ParseMembers(v[1..]).rest
  {
    hide ParseValue, ParseString, Skip;
  }

  lemma WordText(word: string, t: string)
    requires word <= t
    ensures t == word + t[|word|..]
  {
  }

  lemma LeafText(n: Numeral, s: Spelling)
    ensures LayoutText(NullWord) == "null" && LayoutText(FalseWord) == "false" && LayoutText(TrueWord) == "true"
    ensures SpellingOk(s) ==> LayoutOk(Text(s)) && LayoutText(Text(s)) == SpellingText(s)
    ensures NumeralOk(n) ==> LayoutOk(Numeric(n)) && LayoutText(Numeric(n)) == NumeralText(n)
    ensures forall rest :: NumeralEnds(n, rest) ==> LayoutEnds(Numeric(n), rest)
    ensures forall rest :: s.closed || Head(rest) == '\0' ==> LayoutEnds(Text(s), rest)
  {
    hide NumeralEnds, NumeralOk, SpellingOk, NumeralText, SpellingText;
  }

  lemma ListText(gap: string, cells: Cells, rest: string)
    requires Blank(gap) && CellsOk(cells)
    ensures LayoutOk(List(gap, cells)) && LayoutText(List(gap, cells)) + rest == "[" + (gap + (CellsText(cells) + rest))
  {
    var text := CellsText(cells);
    assert LayoutText(List(gap, cells)) == "[" + (gap + text);
    hide LayoutText, CellsText;
    Regroup("[", gap + text, rest);
    Regroup(gap, text, rest);
  }

  lemma TableText(gap: string, fields: Fields, rest: string)
    requires Blank(gap) && FieldsOk(fields)
    ensures LayoutOk(Table(gap, fields)) && LayoutText(Table(gap, fields)) + rest == "{" + (gap + (FieldsText(fields) + rest))
  {
    var text := FieldsText(fields);
    assert LayoutText(Table(gap, fields)) == "{" + (gap + text);
    hide LayoutText, FieldsText;
    Regroup("{", gap + text, rest);
    Regroup(gap, text, rest);
  }

  /** Whatever parse_value reads is a layout of the tree it gives. */
  lemma {:induction false} ValueIsLaidOut(t: string) returns (l: Layout)
    requires ParseValue(t).Ok?
    ensures LayoutOk(l) && LayoutEnds(l, ParseValue(t).rest)
    ensures t == LayoutText(l) + ParseValue(t).rest && ParseValue(t).value == Meaning(l)
    decreases |t|, 1
  {
    ValueCases(t);
    var rest := ParseValue(t).rest;
    if "null" <= t {
      l := NullWord;
      WordText("null", t);
    } else if "false" <= t {
      l := FalseWord;
      WordText("false", t);
    } else if "true" <= t {
      l := TrueWord;
      WordText("true", t);
    } else if Head(t) == '[' || Head(t) == '{' {
      if Head(t) == '[' { l := ListIsLaidOut(t); } else { l := TableIsLaidOut(t); }
    } else {
      l := LeafIsLaidOut(t);
    }
    hide *;
    LayoutRead(l, rest);
  }

  lemma LeafIsLaidOut(t: string) returns (l: Layout)
    requires ParseValue(t).Ok? && (Head(t) == '\"' || Head(t) == '-' || IsDigit(Head(t)))
    ensures LayoutOk(l) && LayoutEnds(l, ParseValue(t).rest) && t == LayoutText(l) + ParseValue(t).rest
  {
    ValueCases(t);
    hide *;
    if Head(t) == '\"' {
      var s := StringIsSpelled(t);
      l := Text(s);
      LeafText(Numeral(true, true, "", "", NoExp), s);
    } else {
      var n := NumberIsNumeral(t);
      l := Numeric(n);
      LeafText(n, Spelling([], true));
    }
  }

  lemma {:induction false} ListIsLaidOut(t: string) returns (l: Layout)
    requires ParseValue(t).Ok? && Head(t) == '['
    ensures l.List? && LayoutOk(l) && t == LayoutText(l) + ParseValue(t).rest
    decreases |t|, 0
  {
    ListCases(t);
    var rest := ParseValue(t).rest;
    var v := Skip(t[1..]);
    var gap := BlanksOf(t[1..]);
    WordText("[", t);
    var cells := NoCells;
    if Head(v) != ']' {
      cells := ItemsAreLaidOut(v);
    } else {
      WordText("]", v);
    }
    assert CellsOk(cells) && v == CellsText(cells) + rest;
    hide *;
    l := List(gap, cells);
    ListText(gap, cells, rest);
  }

  lemma {:induction false} TableIsLaidOut(t: string) returns (l: Layout)
    requires ParseValue(t).Ok? && Head(t) == '{'
    ensures l.Table? && LayoutOk(l) && t == LayoutText(l) + ParseValue(t).rest
    decreases |t|, 0
  {
    TableCases(t);
    var rest := ParseValue(t).rest;
    var v := Skip(t[1..]);
    var gap := BlanksOf(t[1..]);
    WordText("{", t);
    var fields := NoFields;
    if Head(v) != '}' {
      fields := MembersAreLaidOut(v);
    } else {
      WordText("}", v);
    }
    assert FieldsOk(fields) && v == FieldsText(fields) + rest;
    hide *;
    l := Table(gap, fields);
    TableText(gap, fields, rest);
  }

  lemma {:induction false} ItemsAreLaidOut(t: string) returns (cells: Cells)
    requires ParseItems(t).Ok?
    ensures cells.Cell? && CellsOk(cells) && t == CellsText(cells) + ParseItems(t).rest
    decreases |t|, 2
  {
    ItemsCases(t);
    hide *;
    var rest := ParseItems(t).rest;
    var before := BlanksOf(t);
    var value := ValueIsLaidOut(Skip(t));
    var behind := ParseValue(Skip(t)).rest;
    var after := BlanksOf(behind);
    var v := Skip(behind);
    SeparatorSplit(v);
    EndsClosed(value, behind);
    var tail := NoCells;
    if Head(v) != ']' {
      tail := ItemsAreLaidOut(v[1..]);
    }
    NoFieldsText();
    HeadSplit(v);
    cells := MadeCell(before, value, after, tail, rest, t, v);
  }

  lemma MadeCell(before: string, value: Layout, after: string, tail: Cells, rest: string, t: string, v: string) returns (cells: Cells)
    requires Blank(before) && LayoutOk(value) && Closed(value) && Blank(after) && CellsOk(tail)
    requires t == before + (LayoutText(value) + (after + v)) && v == (if tail == NoCells then "" else ",") + (CellsText(tail) + rest)
    ensures cells.Cell? && CellsOk(cells) && t == CellsText(cells) + rest
  {
    cells := Cell(before, value, after, tail);
    CellText(cells, rest);
    hide LayoutText, CellsText, Blank;
  }

  lemma {:induction false} MembersAreLaidOut(t: string) returns (fields: Fields)
    requires ParseMembers(t).Ok?
    ensures fields.Field? && FieldsOk(fields) && t == FieldsText(fields) + ParseMembers(t).rest
    decreases |t|, 2
  {
    MembersCases(t);
    hide *;
    var rest := ParseMembers(t).rest;
    var before := BlanksOf(t);
    var name := StringIsSpelled(Skip(t));
    var named := ParseString(Skip(t)).rest;
    var beforeColon := BlanksOf(named);
    var u := Skip(named);
    var afterColon := BlanksOf(u[1..]);
    var value := ValueIsLaidOut(Skip(u[1..]));
    var behind := ParseValue(Skip(u[1..])).rest;
    var after := BlanksOf(behind);
    var v := Skip(behind);
    ColonCloses(name, named);
    SeparatorSplit(v);
    EndsClosed(value, behind);
    var tail := NoFields;
    if Head(v) != '}' {
      tail := MembersAreLaidOut(v[1..]);
    }
    NoFieldsText();
    HeadSplit(u);
    HeadSplit(v);
    fields := MadeField(before, name, beforeColon, afterColon, value, after, tail, rest, t, u, v);
  }

  lemma ColonCloses(name: Spelling, named: string)
    requires (name.closed || Head(named) == '\0') && Head(Skip(named)) == ':'
    ensures name.closed
  {
  }

  /** A text from its head on. */
  lemma HeadSplit(t: string)
    ensures Head(t) == ':' ==> t == ":" + t[1..]
    ensures Head(t) == ',' ==> t == "," + t[1..]
    ensures Head(t) == ']' ==> t == "" + ("]" + t[1..])
    ensures Head(t) == '}' ==> t == "" + ("}" + t[1..])
  {
  }

  lemma SeparatorSplit(t: string)
    ensures Head(t) == ',' || Head(t) == ']' || Head(t) == '}' ==> Separates(t)
  {
  }

  lemma NoFieldsText()
    ensures FieldsOk(NoFields) && FieldsText(NoFields) == "}"
    ensures CellsOk(NoCells) && CellsText(NoCells) == "]"
  {
  }

  lemma MadeField(before: string, name: Spelling, beforeColon: string, afterColon: string, value: Layout, after: string,
                  tail: Fields, rest: string, t: string, u: string, v: string) returns (fields: Fields)
    requires Blank(before) && SpellingOk(name) && name.closed && Blank(beforeColon) && Blank(afterColon)
    requires LayoutOk(value) && Closed(value) && Blank(after) && FieldsOk(tail)
    requires t == before + (SpellingText(name) + (beforeColon + u))
    requires u == ":" + (afterColon + (LayoutText(value) + (after + v)))
    requires v == (if tail == NoFields then "" else ",") + (FieldsText(tail) + rest)
    ensures fields.Field? && FieldsOk(fields) && t == FieldsText(fields) + rest
  {
    fields := Field(before, name, beforeColon, afterColon, value, after, tail);
    FieldText(fields, rest);
    hide LayoutText, SpellingText, FieldsText, Blank;
  }

  // ----- the language

  /** The text holds a layout of the tree, behind blanks, and then `rest`. */
  ghost predicate Reads(t: string, j: Json, rest: string) {
    exists blank: string, l: Layout ::
      Blank(blank) && LayoutOk(l) && LayoutEnds(l, rest) && Meaning(l) == j && t == blank + (LayoutText(l) + rest)
  }

  /** cJSON_Parse reads exactly the texts that are laid out, as what they mean. */
  lemma ParseExactly(t: string, j: Json, rest: string)
    ensures Parse(t) == Ok(j, rest) <==> Reads(t, j, rest)
  {
    if Parse(t) == Ok(j, rest) {
      var blank := BlanksOf(t);
      var l := ValueIsLaidOut(Skip(t));
      hide ParseValue, Skip, LayoutText, Meaning, LayoutEnds;
    }
    if Reads(t, j, rest) {
      hide ParseValue, LayoutText, Meaning;
      var blank: string, l: Layout :|
        Blank(blank) && LayoutOk(l) && LayoutEnds(l, rest) && Meaning(l) == j && t == blank + (LayoutText(l) + rest);
      LayoutHead(l, rest);
      SkipTo(blank, LayoutText(l) + rest);
      LayoutRead(l, rest);
    }
  }

  /** No quote in the text is followed by an incomplete escape. */
  predicate NoneIncomplete(t: string) {
    forall k :: 0 <= k < |t| && t[k] == '\"' ==> EscapesComplete(t[k + 1..])
  }

  lemma NoneIncompleteBehind(t: string, k: nat)
    requires NoneIncomplete(t) && k <= |t|
    ensures NoneIncomplete(t[k..])
  {
    forall i | 0 <= i < |t[k..]| && t[k..][i] == '\"'
      ensures EscapesComplete(t[k..][i + 1..])
    {
      assert t[k..][i + 1..] == t[k + i + 1..] && t[k + i] == '\"';
    }
  }

  lemma Behind(t: string, u: string)
    requires NoneIncomplete(t) && |u| <= |t| && u == t[|t| - |u|..]
    ensures NoneIncomplete(u)
  {
    NoneIncompleteBehind(t, |t| - |u|);
  }

  lemma SkipBehind(t: string)
    requires NoneIncomplete(t)
    ensures NoneIncomplete(Skip(t))
  {
    SkipPassesBlanks(t);
    Behind(t, Skip(t));
  }

  lemma SuffixOf(a: string, rest: string)
    ensures rest == (a + rest)[|a + rest| - |rest|..]
  {
  }

  lemma StringComplete(t: string)
    requires NoneIncomplete(t)
    ensures !ParseString(t).Incomplete? && (ParseString(t).Ok? ==> NoneIncomplete(ParseString(t).rest))
  {
    StringOutcome(t);
    assert Head(t) == '\"' ==> t[0] == '\"' && EscapesComplete(t[1..]);
    if ParseString(t).Ok? {
      var s := StringIsSpelled(t);
      hide ParseString, SpellingText, EscapesComplete;
      SuffixOf(SpellingText(s), ParseString(t).rest);
      Behind(t, ParseString(t).rest);
    }
  }

  lemma ValueRestComplete(t: string)
    requires NoneIncomplete(t) && ParseValue(t).Ok?
    ensures NoneIncomplete(ParseValue(t).rest)
  {
    var l := ValueIsLaidOut(t);
    hide ParseValue, LayoutText, NoneIncomplete;
    SuffixOf(LayoutText(l), ParseValue(t).rest);
    Behind(t, ParseValue(t).rest);
  }

  /** Where no escape is incomplete the parser never stops half way. */
  lemma {:induction false} ValueComplete(t: string)
    requires NoneIncomplete(t)
    ensures !ParseValue(t).Incomplete?
    decreases |t|, 1
  {
    StringComplete(t);
    if Head(t) == '[' || Head(t) == '{' {
      NoneIncompleteBehind(t, 1);
      SkipBehind(t[1..]);
      ItemsComplete(Skip(t[1..]));
      MembersComplete(Skip(t[1..]));
    }
    hide ParseString, ParseNumber, ParseItems, ParseMembers, Skip;
  }

  lemma {:induction false} ItemsComplete(t: string)
    requires NoneIncomplete(t)
    ensures !ParseItems(t).Incomplete?
    decreases |t|, 2
  {
    SkipBehind(t);
    ValueComplete(Skip(t));
    if ParseValue(Skip(t)).Ok? {
      ValueRestComplete(Skip(t));
      var rest := ParseValue(Skip(t)).rest;
      SkipBehind(rest);
      if Head(Skip(rest)) == ',' {
        NoneIncompleteBehind(Skip(rest), 1);
        ItemsComplete(Skip(rest)[1..]);
      }
    }
    hide ParseValue, Skip, NoneIncomplete;
  }

  lemma {:induction false} MembersComplete(t: string)
    requires NoneIncomplete(t)
    ensures !ParseMembers(t).Incomplete?
    decreases |t|, 2
  {
    SkipBehind(t);
    StringComplete(Skip(t));
    if ParseString(Skip(t)).Ok? {
      var named := ParseString(Skip(t)).rest;
      SkipBehind(named);
      var u := Skip(named);
      if Head(u) == ':' {
        NoneIncompleteBehind(u, 1);
        SkipBehind(u[1..]);
        ValueComplete(Skip(u[1..]));
        if ParseValue(Skip(u[1..])).Ok? {
          ValueRestComplete(Skip(u[1..]));
          var rest := ParseValue(Skip(u[1..])).rest;
          SkipBehind(rest);
          if Head(Skip(rest)) == ',' {
            NoneIncompleteBehind(Skip(rest), 1);
            MembersComplete(Skip(rest)[1..]);
          }
        }
      }
    }
    hide ParseValue, ParseString, Skip, NoneIncomplete;
  }

  /** cJSON_Parse fails on exactly the texts that are not laid out. */
  lemma FailsExactly(t: string)
    requires NoneIncomplete(t)
    ensures Parse(t).Fail? <==> forall j, rest :: !Reads(t, j, rest)
  {
    SkipBehind(t);
    ValueComplete(Skip(t));
    assert !Parse(t).Incomplete?;
    hide Parse, NoneIncomplete, Reads;
    if Parse(t).Ok? {
      ParseExactly(t, Parse(t).value, Parse(t).rest);
    }
    forall j, rest | Reads(t, j, rest)
      ensures Parse(t).Ok?
    {
      ParseExactly(t, j, rest);
    }
  }

  /** A first byte that starts no value, and no word, is refused. */
  lemma FailsAtFirstByte(t: string)
    requires !("null" <= t) && !("false" <= t) && !("true" <= t)
    requires Head(t) != '\"' && Head(t) != '-' && !IsDigit(Head(t)) && Head(t) != '[' && Head(t) != '{'
    ensures ParseValue(t) == Fail
  {
  }

  /** Items laid out, with the text `x` in place of the closing bracket. */
  function OpenText(cells: Cells, x: string): string
    requires CellsOk(cells)
    decreases cells
  {
    match cells
    case NoCells => x
    case Cell(before, value, after, tail) =>
      before + (LayoutText(value) + (after + ((if tail == NoCells then "" else ",") + OpenText(tail, x))))
  }

  /** `x` does not continue the last value. */
  predicate LastEnds(cells: Cells, x: string) {
    match cells
    case NoCells => true
    case Cell(_, value, after, tail) => if tail == NoCells then LayoutEnds(value, after + x) else LastEnds(tail, x)
  }

  lemma ItemsFail(t: string, j: Json, rest: string)
    requires ParseValue(Skip(t)) == Ok(j, rest)
    ensures Head(Skip(rest)) != ']' && Head(Skip(rest)) != ',' ==> ParseItems(t) == Fail
    ensures Head(Skip(rest)) == ',' && ParseItems(Skip(rest)[1..]) == Fail ==> ParseItems(t) == Fail
  {
    hide ParseValue, Skip;
  }

  lemma {:induction false} OpenItemsFail(cells: Cells, x: string)
    requires CellsOk(cells) && cells.Cell? && LastEnds(cells, x)
    requires Head(x) > ' ' && Head(x) != ',' && Head(x) != ']'
    ensures ParseItems(OpenText(cells, x)) == Fail
    decreases cells
  {
    var Cell(before, value, after, tail) := cells;
    var end := if tail == NoCells then x else "," + OpenText(tail, x);
    var t, u := OpenText(cells, x), LayoutText(value) + (after + end);
    assert tail == NoCells ==> "" + OpenText(tail, x) == x;
    assert t == before + u;
    assert LayoutEnds(value, after + end) by { if tail != NoCells { NestedEnds(value, after, end); } }
    LayoutRead(value, after + end);
    LayoutHead(value, after + end);
    if tail != NoCells {
      OpenItemsFail(tail, x);
      assert end[1..] == OpenText(tail, x);
    }
    hide LayoutText, OpenText, ParseValue, ParseItems, LayoutEnds;
    SkipTo(before, u);
    SkipTo(after, end);
    ItemsFail(t, Meaning(value), after + end);
  }

  /** An array fails at a wrong separator behind any of its items. */
  lemma FailsAtSeparator(gap: string, cells: Cells, x: string)
    requires Blank(gap) && CellsOk(cells) && cells.Cell? && LastEnds(cells, x)
    requires Head(x) > ' ' && Head(x) != ',' && Head(x) != ']'
    ensures ParseValue("[" + (gap + OpenText(cells, x))) == Fail
  {
    var inner := OpenText(cells, x);
    var t := "[" + (gap + inner);
    OpenItemsFail(cells, x);
    OpenHead(cells, x);
    assert t[0] == '[' && t[1..] == gap + inner;
    hide *;
    SkipBlanks(gap, inner);
    SkipTwice(inner);
    SameAfterSkip(Skip(inner), inner);
    ListFails(t);
  }

  lemma ListFails(t: string)
    requires t != "" && t[0] == '[' && Head(Skip(t[1..])) != ']' && ParseItems(Skip(t[1..])) == Fail
    ensures ParseValue(t) == Fail
  {
    hide ParseItems, ParseMembers, ParseString, ParseNumber, Skip;
  }

  lemma OpenHead(cells: Cells, x: string)
    requires CellsOk(cells) && cells.Cell?
    ensures Head(Skip(OpenText(cells, x))) != ']'
  {
    var Cell(before, value, after, tail) := cells;
    var end := after + ((if tail == NoCells then "" else ",") + OpenText(tail, x));
    LayoutHead(value, end);
    SkipTo(before, LayoutText(value) + end);
  }

  /** A member without its colon, or with a wrong separator behind it, fails. */
  lemma MemberFails(before: string, name: Spelling, beforeColon: string, x: string)
    requires Blank(before) && SpellingOk(name) && name.closed && Blank(beforeColon) && Head(x) > ' ' && Head(x) != ':'
    ensures ParseMembers(before + (SpellingText(name) + (beforeColon + x))) == Fail
  {
    SpellingRead(name, beforeColon + x);
    SpellingHead(name, beforeColon + x);
    SkipTo(before, SpellingText(name) + (beforeColon + x));
    SkipTo(beforeColon, x);
    hide ParseString, SpellingText, Skip, ParseValue;
  }

  lemma MemberFailsBehind(before: string, name: Spelling, beforeColon: string, afterColon: string, value: Layout, after: string, x: string)
    requires Blank(before) && SpellingOk(name) && name.closed && Blank(beforeColon) && Blank(afterColon)
    requires LayoutOk(value) && Blank(after) && LayoutEnds(value, after + x) && Head(x) > ' ' && Head(x) != ',' && Head(x) != '}'
    ensures ParseMembers(before + (SpellingText(name) + (beforeColon + (":" + (afterColon + (LayoutText(value) + (after + x))))))) == Fail
  {
    var u := LayoutText(value) + (after + x);
    var colon := ":" + (afterColon + u);
    assert colon[1..] == afterColon + u;
    hide *;
    SpellingRead(name, beforeColon + colon);
    SpellingHead(name, beforeColon + colon);
    ColonHead(afterColon + u);
    SkipTo(before, SpellingText(name) + (beforeColon + colon));
    SkipTo(beforeColon, colon);
    LayoutHead(value, after + x);
    SkipTo(afterColon, u);
    LayoutRead(value, after + x);
    SkipTo(after, x);
    MembersFail(before + (SpellingText(name) + (beforeColon + colon)), Bytes(name.pieces), beforeColon + colon, Meaning(value), after + x);
  }

  lemma ColonHead(t: string)
    ensures Head(":" + t) == ':' && Head(":" + t) > ' '
  {
  }

  lemma MembersFail(t: string, name: string, r1: string, value: Json, r2: string)
    requires ParseString(Skip(t)) == Ok(name, r1) && Head(Skip(r1)) == ':'
    requires ParseValue(Skip(Skip(r1)[1..])) == Ok(value, r2)
    requires Head(Skip(r2)) != '}' && Head(Skip(r2)) != ','
    ensures ParseMembers(t) == Fail
  {
    hide ParseValue, ParseString, Skip;
  }
}
