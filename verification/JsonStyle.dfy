/** Where the printer puts blanks, and how it spells strings
    (src/cJSON.c:210-242, :433-481, :520-575), by a scan of the printed text. */
module JsonStyle {
  import opened JsonText
  import opened JsonParse
  import opened JsonEscapes
  import opened JsonSpelling

  // ----- blanks

  datatype Mode = Ready | InString | InEscape | NeedNewline | NeedSpace | NeedTab | Indent(tabs: nat)

  /** `open` lists the brackets that are open: true for an object. */
  datatype Scan = Bad | Scan(open: seq<bool>, mode: Mode)

  predicate InObject(open: seq<bool>) {
    open != [] && open[|open| - 1]
  }

  function Pop(open: seq<bool>): seq<bool>
    requires open != []
  {
    open[..|open| - 1]
  }

  /** One byte.  Formatted, an object has a line for each member, indented by as many
      tabs as brackets are open, and one for its closing brace; a comma in an array is
      followed by one space and a colon by one tab.  There are no other blanks, and
      unformatted there are none at all. */
  function Read(s: Scan, c: char, fmt: bool): Scan {
    match s
    case Bad => Bad
    case Scan(open, mode) =>
      match mode
      case InString => if c == '\\' then Scan(open, InEscape) else if c == '\"' then Scan(open, Ready) else if c < ' ' then Bad else s
      case InEscape => Scan(open, InString)
      case NeedNewline => if c == '\n' then Scan(open, Indent(0)) else Bad
      case NeedSpace => if c == ' ' then Scan(open, Ready) else Bad
      case NeedTab => if c == '\t' then Scan(open, Ready) else Bad
      case Indent(k) =>
        if c == '\t' then Scan(open, Indent(k + 1))
        else if c == '\"' && k == |open| then Scan(open, InString)
        else if c == '}' && k + 1 == |open| && InObject(open) then Scan(Pop(open), Ready)
        else Bad
      case Ready =>
        if c == '\"' then Scan(open, InString)
        else if c == '[' then Scan(open + [false], Ready)
        else if c == '{' then Scan(open + [true], if fmt then NeedNewline else Ready)
        else if c == ']' then (if open != [] && !InObject(open) then Scan(Pop(open), Ready) else Bad)
        else if c == '}' then (if InObject(open) && !fmt then Scan(Pop(open), Ready) else Bad)
        else if c == ',' then
          if open == [] then Bad
          else Scan(open, if !fmt then Ready else if InObject(open) then NeedNewline else NeedSpace)
        else if c == ':' then (if InObject(open) then Scan(open, if fmt then NeedTab else Ready) else Bad)
        else if c == '\n' then (if fmt && InObject(open) then Scan(open, Indent(0)) else Bad)
        else if c <= ' ' then Bad
        else s
  }

  function Run(s: Scan, t: string, fmt: bool): Scan
    decreases |t|
  {
    if t == "" then s else Run(Read(s, t[0], fmt), t[1..], fmt)
  }

  lemma {:induction false} RunAppend(s: Scan, a: string, b: string, fmt: bool)
    ensures Run(s, a + b, fmt) == Run(Run(s, a, fmt), b, fmt)
    decreases |a|
  {
    if a == "" {
      assert a + b == b;
    } else {
      assert (a + b)[1..] == a[1..] + b;
      RunAppend(Read(s, a[0], fmt), a[1..], b, fmt);
    }
  }

  lemma RunOne(s: Scan, c: char, fmt: bool)
    ensures Run(s, [c], fmt) == Read(s, c, fmt)
  {
    assert [c][1..] == "";
  }

  /** Bytes that mean nothing to the scan. */
  lemma {:induction false} RunPlain(s: Scan, t: string, fmt: bool)
    requires s.Scan? && s.mode == Ready
    requires forall i :: 0 <= i < |t| ==> IsDigit(t[i]) || 'a' <= t[i] <= 'z' || t[i] == '-'
    ensures Run(s, t, fmt) == s
    decreases |t|
  {
    if t != "" {
      RunPlain(s, t[1..], fmt);
    }
  }

  lemma RunInt(s: Scan, n: int, fmt: bool)
    requires s.Scan? && s.mode == Ready
    ensures Run(s, IntText(n), fmt) == s
  {
    hide Run, Read, NatText;
    RunPlain(s, IntText(n), fmt);
  }

  lemma {:induction false} RunHexDigits(s: Scan, t: string, fmt: bool)
    requires s.Scan? && s.mode == InString && forall i :: 0 <= i < |t| ==> IsDigit(t[i]) || 'a' <= t[i] <= 'z'
    ensures Run(s, t, fmt) == s
    decreases |t|
  {
    if t != "" {
      RunHexDigits(s, t[1..], fmt);
    }
  }

  lemma RunTwo(s: Scan, c: char, fmt: bool)
    requires s.Scan? && s.mode == InString
    ensures Run(s, "\\" + [c], fmt) == s
  {
    RunOne(s, '\\', fmt);
    RunOne(Scan(s.open, InEscape), c, fmt);
    RunAppend(s, "\\", [c], fmt);
  }

  lemma RunEscapeChar(s: Scan, c: char, fmt: bool)
    requires s.Scan? && s.mode == InString
    ensures Run(s, EscapeChar(c), fmt) == s
  {
    if c > '\U{1F}' && c != '\"' && c != '\\' {
      RunOne(s, c, fmt);
    } else if c == '\\' || c == '\"' || c == '\U{8}' || c == '\U{C}' || c == '\n' || c == '\r' || c == '\t' {
      assert EscapeChar(c) == "\\" + [EscapeChar(c)[1]];
      RunTwo(s, EscapeChar(c)[1], fmt);
    } else {
      var hex := "00" + [HexDigit(c as int / 16), HexDigit(c as int % 16)];
      assert EscapeChar(c) == "\\" + ['u'] + hex;
      hide Run, Read;
      RunTwo(s, 'u', fmt);
      RunHexDigits(s, hex, fmt);
      RunAppend(s, "\\" + ['u'], hex, fmt);
    }
  }

  lemma {:induction false} RunEscape(s: Scan, text: string, fmt: bool)
    requires s.Scan? && s.mode == InString
    ensures Run(s, Escape(text), fmt) == s
    decreases |text|
  {
    if text == "" {
    } else {
      var one, more := EscapeChar(text[0]), Escape(text[1..]);
      assert Escape(text) == one + more;
      RunEscapeChar(s, text[0], fmt);
      RunEscape(s, text[1..], fmt);
      hide Run, Escape, EscapeChar;
      RunAppend(s, one, more, fmt);
    }
  }

  /** The scan may come upon a quote here. */
  predicate Awaits(s: Scan) {
    s.Scan? && (s.mode == Ready || s.mode == Indent(|s.open|))
  }

  lemma RunQuoted(s: Scan, text: string, fmt: bool)
    requires Awaits(s)
    ensures Run(s, Quoted(text), fmt) == Scan(s.open, Ready)
  {
    var in_ := Scan(s.open, InString);
    assert Read(s, '\"', fmt) == in_ && Read(in_, '\"', fmt) == Scan(s.open, Ready);
    assert Quoted(text) == ['\"'] + Escape(text) + ['\"'];
    hide Run, Read, Escape;
    RunOne(s, '\"', fmt);
    RunEscape(in_, text, fmt);
    RunOne(in_, '\"', fmt);
    RunAppend(s, ['\"'] + Escape(text), ['\"'], fmt);
    RunAppend(s, ['\"'], Escape(text), fmt);
  }

  lemma {:induction false} RunTabs(s: Scan, k: nat, n: nat, fmt: bool)
    requires s.Scan? && s.mode == Indent(k)
    ensures Run(s, Tabs(n), fmt) == Scan(s.open, Indent(k + n))
    decreases n
  {
    if n > 0 {
      assert Tabs(n)[1..] == Tabs(n - 1);
      RunTabs(Scan(s.open, Indent(k + 1)), k + 1, n - 1, fmt);
    }
  }

  lemma RunWord(s: Scan, word: string, fmt: bool)
    requires s.Scan? && s.mode == Ready && (word == "null" || word == "false" || word == "true")
    ensures Run(s, word, fmt) == s
  {
    RunPlain(s, word, fmt);
  }

  /** A value is printed in the style, at the depth that is the number of open brackets. */
  lemma {:induction false} PrintStyle(j: Json, open: seq<bool>, fmt: bool)
    requires Plain(j)
    ensures Run(Scan(open, Ready), Print(j, |open|, fmt), fmt) == Scan(open, Ready)
    decreases j
  {
    var s := Scan(open, Ready);
    match j {
      case Null => RunWord(s, "null", fmt);
      case False => RunWord(s, "false", fmt);
      case True => RunWord(s, "true", fmt);
      case Number(v) => RunInt(s, v.Floor, fmt);
      case String(text) => RunQuoted(s, text, fmt);
      case Array(items) => ArrayStyle(items, open, fmt);
      case Object(members) => ObjectStyle(members, open, fmt);
    }
  }

  lemma {:induction false} ArrayStyle(items: Items, open: seq<bool>, fmt: bool)
    requires PlainItems(items)
    ensures Run(Scan(open, Ready), Print(Array(items), |open|, fmt), fmt) == Scan(open, Ready)
    decreases items, 1
  {
    var s, inner := Scan(open, Ready), Scan(open + [false], Ready);
    var text := PrintItems(items, |open| + 1, fmt);
    assert |inner.open| == |open| + 1 && Pop(inner.open) == open;
    assert Read(s, '[', fmt) == inner && Read(inner, ']', fmt) == s;
    assert Print(Array(items), |open|, fmt) == ['['] + text + [']'];
    ItemsStyle(items, inner.open, fmt);
    hide Run, Read, Print, PrintItems;
    RunOne(s, '[', fmt);
    RunOne(inner, ']', fmt);
    RunAppend(s, ['['] + text, [']'], fmt);
    RunAppend(s, ['['], text, fmt);
  }

  lemma SeparatorStyle(open: seq<bool>, fmt: bool)
    requires open != [] && !InObject(open)
    ensures Run(Scan(open, Ready), if fmt then ", " else ",", fmt) == Scan(open, Ready)
  {
    RunOne(Scan(open, Ready), ',', fmt);
    if fmt {
      RunOne(Scan(open, NeedSpace), ' ', fmt);
      RunAppend(Scan(open, Ready), [','], [' '], fmt);
      assert [','] + [' '] == ", ";
    }
  }

  lemma {:induction false} ItemsStyle(items: Items, open: seq<bool>, fmt: bool)
    requires PlainItems(items) && open != [] && !InObject(open)
    ensures Run(Scan(open, Ready), PrintItems(items, |open|, fmt), fmt) == Scan(open, Ready)
    decreases items, 0
  {
    if items.Item? {
      var s := Scan(open, Ready);
      var one, comma := Print(items.head, |open|, fmt), if items.tail == NoItems then "" else if fmt then ", " else ",";
      var more := PrintItems(items.tail, |open|, fmt);
      assert PrintItems(items, |open|, fmt) == one + comma + more;
      PrintStyle(items.head, open, fmt);
      ItemsStyle(items.tail, open, fmt);
      SeparatorStyle(open, fmt);
      assert Run(s, "", fmt) == s;
      hide Run, Read, Print, PrintItems;
      RunAppend(s, one + comma, more, fmt);
      RunAppend(s, one, comma, fmt);
    }
  }

  /** Where a member starts. */
  function LineStart(open: seq<bool>, fmt: bool): Scan {
    Scan(open, if fmt then Indent(0) else Ready)
  }

  lemma {:induction false} ObjectStyle(members: Members, open: seq<bool>, fmt: bool)
    requires PlainMembers(members)
    ensures Run(Scan(open, Ready), Print(Object(members), |open|, fmt), fmt) == Scan(open, Ready)
    decreases members, 1
  {
    var d := |open|;
    var s, inner := Scan(open, Ready), open + [true];
    var newline, text, tabs := if fmt then "\n" else "", PrintMembers(members, d + 1, fmt), if fmt then Tabs(d) else "";
    assert |inner| == d + 1 && Pop(inner) == open;
    OpenStyle(open, fmt);
    CloseStyle(open, fmt);
    MembersStyle(members, inner, fmt);
    assert Print(Object(members), d, fmt) == ("{" + newline) + text + (tabs + "}") by {
      hide PrintMembers, Tabs;
      assert "{" + newline + text + tabs + "}" == ("{" + newline) + text + (tabs + "}");
    }
    hide Run, Read, Print, PrintMembers, Tabs;
    RunAppend(s, ("{" + newline) + text, tabs + "}", fmt);
    RunAppend(s, "{" + newline, text, fmt);
  }

  lemma OpenStyle(open: seq<bool>, fmt: bool)
    ensures Run(Scan(open, Ready), "{" + (if fmt then "\n" else ""), fmt) == LineStart(open + [true], fmt)
  {
    RunOne(Scan(open, Ready), '{', fmt);
    if fmt {
      RunOne(Scan(open + [true], NeedNewline), '\n', fmt);
      RunAppend(Scan(open, Ready), ['{'], ['\n'], fmt);
      assert ['{'] + ['\n'] == "{" + "\n";
    } else {
      assert "{" + "" == ['{'];
    }
  }

  lemma CloseStyle(open: seq<bool>, fmt: bool)
    ensures Run(LineStart(open + [true], fmt), (if fmt then Tabs(|open|) else "") + "}", fmt) == Scan(open, Ready)
  {
    var inner := open + [true];
    assert Pop(inner) == open && InObject(inner);
    if fmt {
      RunTabs(Scan(inner, Indent(0)), 0, |open|, fmt);
      RunOne(Scan(inner, Indent(|open|)), '}', fmt);
      hide Tabs;
      RunAppend(Scan(inner, Indent(0)), Tabs(|open|), ['}'], fmt);
    } else {
      RunOne(Scan(inner, Ready), '}', fmt);
      assert "" + "}" == ['}'];
    }
  }

  lemma TabStyle(open: seq<bool>, fmt: bool)
    requires InObject(open)
    ensures Awaits(Run(LineStart(open, fmt), if fmt then Tabs(|open|) else "", fmt))
    ensures Run(LineStart(open, fmt), if fmt then Tabs(|open|) else "", fmt).open == open
  {
    if fmt {
      RunTabs(Scan(open, Indent(0)), 0, |open|, fmt);
    }
  }

  lemma ColonStyle(open: seq<bool>, fmt: bool)
    requires InObject(open)
    ensures Run(Scan(open, Ready), if fmt then ":\t" else ":", fmt) == Scan(open, Ready)
  {
    RunOne(Scan(open, Ready), ':', fmt);
    if fmt {
      RunOne(Scan(open, NeedTab), '\t', fmt);
      RunAppend(Scan(open, Ready), [':'], ['\t'], fmt);
      assert [':'] + ['\t'] == ":\t";
    }
  }

  lemma LineEndStyle(open: seq<bool>, last: bool, fmt: bool)
    requires InObject(open)
    ensures Run(Scan(open, Ready), (if last then "" else ",") + (if fmt then "\n" else ""), fmt) == LineStart(open, fmt)
  {
    RunOne(Scan(open, Ready), ',', fmt);
    RunOne(Scan(open, Ready), '\n', fmt);
    RunOne(Scan(open, NeedNewline), '\n', fmt);
    if fmt {
      RunAppend(Scan(open, Ready), [','], ['\n'], fmt);
      assert "" + "\n" == ['\n'] && "," + "\n" == [','] + ['\n'];
    } else {
      assert "" + "" == "" && "," + "" == [','];
    }
  }

  lemma {:induction false} MembersStyle(members: Members, open: seq<bool>, fmt: bool)
    requires PlainMembers(members) && InObject(open)
    ensures Run(LineStart(open, fmt), PrintMembers(members, |open|, fmt), fmt) == LineStart(open, fmt)
    decreases members, 0
  {
    if members.Member? {
      var Member(name, value, tail) := members;
      var d := |open|;
      var start, s := LineStart(open, fmt), Scan(open, Ready);
      var tabs, quoted, colon := if fmt then Tabs(d) else "", Quoted(name), if fmt then ":\t" else ":";
      var text, more := Print(value, d, fmt), PrintMembers(tail, d, fmt);
      var comma, newline := if tail == NoMembers then "" else ",", if fmt then "\n" else "";
      assert PrintMembers(members, d, fmt) == tabs + quoted + colon + text + comma + newline + more;
      PrintStyle(value, open, fmt);
      MembersStyle(tail, open, fmt);
      hide Run, Read, Print, PrintMembers, Tabs, Quoted;
      MemberStyle(open, fmt, tabs, name, colon, text, comma, newline, more);
    }
  }

  lemma MemberStyle(open: seq<bool>, fmt: bool, tabs: string, name: string, colon: string, text: string, comma: string,
                    newline: string, more: string)
    requires InObject(open) && tabs == (if fmt then Tabs(|open|) else "") && colon == (if fmt then ":\t" else ":")
    requires (comma == "" || comma == ",") && newline == (if fmt then "\n" else "")
    requires Run(Scan(open, Ready), text, fmt) == Scan(open, Ready)
    requires Run(LineStart(open, fmt), more, fmt) == LineStart(open, fmt)
    ensures Run(LineStart(open, fmt), tabs + Quoted(name) + colon + text + comma + newline + more, fmt) == LineStart(open, fmt)
  {
    hide *;
    var start, s, q := LineStart(open, fmt), Scan(open, Ready), Quoted(name);
    TabStyle(open, fmt);
    RunQuoted(Run(start, tabs, fmt), name, fmt);
    ColonStyle(open, fmt);
    LineEndStyle(open, comma == "", fmt);
    RunAppend(start, tabs + q + colon + text + comma + newline, more, fmt);
    RunAppend(start, tabs + q + colon + text + comma, newline, fmt);
    RunAppend(start, tabs + q + colon + text, comma, fmt);
    RunAppend(start, tabs + q + colon, text, fmt);
    RunAppend(start, tabs + q, colon, fmt);
    RunAppend(start, tabs, q, fmt);
    RunAppend(s, comma, newline, fmt);
  }

  // ----- spelling

  /** Section 7 of RFC 8259: no control byte stands for itself, and the letters are those of the table. */
  predicate Conforms(p: Piece) {
    match p
    case Raw(c) => c >= ' '
    case Letter(c) => c in "\"\\/bfnrt"
    case Unit(_, _) => true
  }

  lemma {:induction false} EscapeAppend(a: string, b: string)
    ensures Escape(a + b) == Escape(a) + Escape(b)
    decreases |a|
  {
    if a == "" {
      assert a + b == b;
    } else {
      assert (a + b)[1..] == a[1..] + b;
      EscapeAppend(a[1..], b);
    }
  }

  /** Bytes above 0x7F are printed as they are. */
  lemma {:induction false} EscapeHighBytes(t: string)
    requires forall i :: 0 <= i < |t| ==> t[i] as int >= 0x80
    ensures Escape(t) == t
    decreases |t|
  {
    if t != "" {
      EscapeHighBytes(t[1..]);
      assert EscapeChar(t[0]) == [t[0]] && t == [t[0]] + t[1..];
    }
  }

  lemma EscapeOne(c: char)
    ensures Escape([c]) == EscapeChar(c) && |EscapeChar(c)| <= 6
  {
    assert [c][1..] == "";
  }

  lemma EscapeUtf8(u: nat)
    requires u < 0x200000
    ensures |Escape(Utf8(u))| <= 6
  {
    if u < 0x80 {
      EscapeOne(u as char);
    } else {
      EscapeHighBytes(Utf8(u));
    }
  }

  lemma EscapePiece(p: Piece)
    requires PieceOk(p) && Conforms(p)
    ensures |Escape(PieceBytes(p))| <= |PieceText(p)|
  {
    match p {
      case Raw(c) => EscapeOne(c);
      case Letter(c) => EscapeOne(LetterByte(c));
      case Unit(u, upper) => EscapeUtf8(u);
    }
  }

  /** The printer spells a string as shortly as any conforming spelling. */
  lemma {:induction false} PrintsShortest(ps: seq<Piece>)
    requires PiecesOk(ps) && forall i :: 0 <= i < |ps| ==> Conforms(ps[i])
    ensures |Escape(Bytes(ps))| <= |PiecesText(ps)|
    decreases |ps|
  {
    if ps == [] {
    } else if Paired(ps) {
      var one := if IsLow(ps[1].u) then Utf8(Join(ps[0].u, ps[1].u)) else "";
      assert ps[1..][1..] == ps[2..] && ps[1..][0] == ps[1];
      EscapeUtf8(Join(ps[0].u, ps[1].u));
      PrintsShortest(ps[2..]);
      EscapeAppend(one, Bytes(ps[2..]));
      assert Bytes(ps) == one + Bytes(ps[2..]);
      assert PiecesText(ps) == PieceText(ps[0]) + (PieceText(ps[1]) + PiecesText(ps[2..]));
      assert |PieceText(ps[0])| == 6;
      hide Escape, Bytes, PiecesText, Utf8, Join;
    } else {
      EscapePiece(ps[0]);
      PrintsShortest(ps[1..]);
      EscapeAppend(PieceBytes(ps[0]), Bytes(ps[1..]));
    }
  }
}
