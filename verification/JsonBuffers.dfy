/** The printer with its precomputed buffers (src/cJSON.c:126-146, :210-245,
    :387-402, :433-481, :520-575).  Every array write is checked against the
    length that was computed before the buffer was allocated. */
module JsonBuffers {
  import opened JsonText

  // ----- C strings

  /** The buffer holds the text, its terminator, and perhaps more room. */
  ghost predicate Holds(a: array<char>, t: string)
    reads a
  {
    NulFree(t) && |t| < a.Length && a[|t|] == '\0' && forall i :: 0 <= i < |t| ==> a[i] == t[i]
  }

  method Strlen(a: array<char>, ghost t: string) returns (n: nat)
    requires Holds(a, t)
    ensures n == |t|
  {
    n := 0;
    while a[n] != '\0'
      invariant n <= |t|
      decreases |t| - n
    {
      n := n + 1;
    }
  }

  /** strcpy(out + p, a) */
  method Strcpy(out: array<char>, p: nat, a: array<char>, ghost t: string)
    requires out != a && Holds(a, t) && p + |t| < out.Length
    modifies out
    ensures out[..p] == old(out[..p]) && out[p..p + |t|] == t && out[p + |t|] == '\0'
  {
    var i := 0;
    while a[i] != '\0'
      invariant i <= |t| && out[..p] == old(out[..p]) && out[p..p + i] == t[..i]
      decreases |t| - i
    {
      out[p + i] := a[i];
      i := i + 1;
    }
    out[p + i] := '\0';
  }

  /** A buffer for a literal text (cJSON_strdup). */
  method Strdup(t: string) returns (out: array<char>)
    requires NulFree(t)
    ensures fresh(out) && Holds(out, t) && out.Length == |t| + 1
  {
    out := new char[|t| + 1](i requires 0 <= i <= |t| => if i < |t| then t[i] else '\0');
  }

  // ----- no terminator inside a printed text

  lemma {:induction false} NatTextNulFree(n: nat)
    ensures NulFree(NatText(n))
  {
  }

  lemma {:induction false} EscapeNulFree(s: string)
    requires NulFree(s)
    ensures NulFree(Escape(s))
  {
    if s != "" {
      EscapeNulFree(s[1..]);
    }
  }

  /** The text of a tree holds no terminator, so strlen measures all of it. */
  lemma {:induction false} PrintNulFree(j: Json, depth: nat, fmt: bool)
    requires Plain(j)
    ensures NulFree(Print(j, depth, fmt))
    decreases j
  {
    match j {
      case Number(v) => NatTextNulFree(if v.Floor < 0 then -v.Floor else v.Floor);
      case String(s) => EscapeNulFree(s);
      case Array(items) => ItemsNulFree(items, depth + 1, fmt);
      case Object(members) => MembersNulFree(members, depth + 1, fmt);
      case _ =>
    }
  }

  lemma {:induction false} ItemsNulFree(items: Items, depth: nat, fmt: bool)
    requires PlainItems(items)
    ensures NulFree(PrintItems(items, depth, fmt))
    decreases items
  {
    if items.Item? {
      PrintNulFree(items.head, depth, fmt);
      ItemsNulFree(items.tail, depth, fmt);
    }
  }

  lemma {:induction false} MembersNulFree(members: Members, depth: nat, fmt: bool)
    requires PlainMembers(members)
    ensures NulFree(PrintMembers(members, depth, fmt))
    decreases members
  {
    if members.Member? {
      EscapeNulFree(members.name);
      PrintNulFree(members.value, depth, fmt);
      MembersNulFree(members.tail, depth, fmt);
    }
  }

  // ----- numbers

  function Power10(k: nat): nat {
    if k == 0 then 1 else 10 * Power10(k - 1)
  }

  lemma {:induction false} NatTextLength(n: nat, k: nat)
    requires 1 <= k && n < Power10(k)
    ensures |NatText(n)| <= k
  {
    if n >= 10 {
      NatTextLength(n / 10, k - 1);
    }
  }

  /** An int32 takes at most 11 bytes, well inside the 21 of print_number. */
  lemma IntTextLength(n: int)
    requires INT_MIN <= n <= INT_MAX
    ensures 1 <= |IntText(n)| <= 11
  {
    NatTextLength(if n < 0 then -n else n, 10);
  }

  // ----- strings

  /** The bytes that the counting loop of print_string_ptr adds for one byte. */
  function EscapeCost(c: char): nat {
    if c in "\"\\\U{8}\U{C}\n\r\t" then 2 else if c < '\U{20}' then 6 else 1
  }

  /** One turn of the writing loop. */
  method WriteEscape(out: array<char>, p: nat, c: char) returns (q: nat)
    requires p + |EscapeChar(c)| <= out.Length
    modifies out
    ensures q == p + |EscapeChar(c)|
    ensures forall i :: 0 <= i < p ==> out[i] == old(out[i])
    ensures forall i :: 0 <= i < |EscapeChar(c)| ==> out[p + i] == EscapeChar(c)[i]
  {
    q := p;
    if c > '\U{1F}' && c != '\"' && c != '\\' {
      out[q] := c;
      q := q + 1;
    } else {
      out[q] := '\\';
      q := q + 1;
      match c {
        case '\\' => out[q] := '\\'; q := q + 1;
        case '\"' => out[q] := '\"'; q := q + 1;
        case '\U{8}' => out[q] := 'b'; q := q + 1;
        case '\U{C}' => out[q] := 'f'; q := q + 1;
        case '\n' => out[q] := 'n'; q := q + 1;
        case '\r' => out[q] := 'r'; q := q + 1;
        case '\t' => out[q] := 't'; q := q + 1;
        case _ =>
          out[q], out[q + 1], out[q + 2] := 'u', '0', '0';
          out[q + 3], out[q + 4] := HexDigit(c as int / 16), HexDigit(c as int % 16);
          q := q + 5;
      }
    }
  }

  /** The counting loop: line 215. */
  method CountQuoted(str: string) returns (len: nat)
    requires NulFree(str)
    ensures len == |Escape(str)|
  {
    len := 0;
    var ptr := str;
    while Head(ptr) != '\0'
      invariant NulFree(ptr) && len + |Escape(ptr)| == |Escape(str)|
      decreases |ptr|
    {
      len := len + EscapeCost(ptr[0]);
      ptr := ptr[1..];
    }
  }

  lemma EscapeStep(before: string, ptr: string)
    requires ptr != ""
    ensures before + Escape(ptr) == before + EscapeChar(ptr[0]) + Escape(ptr[1..])
    ensures |Escape(ptr)| == |EscapeChar(ptr[0])| + |Escape(ptr[1..])|
  {
    hide EscapeChar;
  }

  /** print_string_ptr: the counted length is the exact length. */
  method PrintStringPtr(str: string) returns (out: array<char>)
    requires NulFree(str)
    ensures fresh(out) && Holds(out, Quoted(str)) && out.Length == |Quoted(str)| + 1
  {
    var len := CountQuoted(str);
    EscapeNulFree(str);
    hide Escape, EscapeChar;
    out := new char[len + 3];
    out[0] := '\"';
    var p, ptr := 1, str;
    assert out[..1] == "\"";
    while Head(ptr) != '\0'
      invariant NulFree(ptr) && 1 <= p && p + |Escape(ptr)| + 2 == out.Length
      invariant out[..p] + Escape(ptr) == "\"" + Escape(str)
      decreases |ptr|
    {
      EscapeStep(out[..p], ptr);
      ghost var before := out[..p];
      var q := WriteEscape(out, p, ptr[0]);
      assert out[..q] == before + EscapeChar(ptr[0]);
      p, ptr := q, ptr[1..];
    }
    assert out[..p] == "\"" + Escape(str) by {
      EscapeNone();
    }
    out[p] := '\"';
    out[p + 1] := '\0';
    assert out[..p + 1] == Quoted(str);
  }

  lemma EscapeNone()
    ensures Escape("") == ""
  {
  }

  // ----- arrays

  function Separator(fmt: bool): string {
    if fmt then ", " else ","
  }

  /** The texts from the i-th on, with separators between them. */
  function Join(texts: seq<string>, i: nat, fmt: bool): string
    requires i <= |texts|
    decreases |texts| - i
  {
    if i == |texts| then ""
    else texts[i] + (if i + 1 == |texts| then "" else Separator(fmt)) + Join(texts, i + 1, fmt)
  }

  /** What the collecting loop of print_array adds to the length for the texts from the i-th on. */
  function Cost(texts: seq<string>, i: nat, fmt: bool): nat
    requires i <= |texts|
    decreases |texts| - i
  {
    if i == |texts| then 0 else |texts[i]| + 2 + (if fmt then 1 else 0) + Cost(texts, i + 1, fmt)
  }

  lemma {:induction false} CostIsLength(texts: seq<string>, i: nat, fmt: bool)
    requires i <= |texts|
    ensures Cost(texts, i, fmt) == |Join(texts, i, fmt)| + (|texts| - i) + (if i < |texts| then |Separator(fmt)| else 0)
    decreases |texts| - i
  {
    if i < |texts| {
      CostIsLength(texts, i + 1, fmt);
    }
  }

  lemma {:induction false} CostSnoc(texts: seq<string>, t: string, i: nat, fmt: bool)
    requires i <= |texts|
    ensures Cost(texts + [t], i, fmt) == Cost(texts, i, fmt) + |t| + 2 + (if fmt then 1 else 0)
    decreases |texts| - i
  {
    if i < |texts| {
      CostSnoc(texts, t, i + 1, fmt);
    }
  }

  /** The texts of the items of an array. */
  function ItemTexts(items: Items, depth: nat, fmt: bool): seq<string>
    requires PlainItems(items)
  {
    match items
    case NoItems => []
    case Item(head, tail) => [Print(head, depth, fmt)] + ItemTexts(tail, depth, fmt)
  }

  /** Joining the texts of the items from the i-th on gives the text of the rest of the chain. */
  lemma {:induction false} JoinIsPrint(items: Items, depth: nat, fmt: bool, before: seq<string>)
    requires PlainItems(items)
    ensures Join(before + ItemTexts(items, depth, fmt), |before|, fmt) == PrintItems(items, depth, fmt)
    decreases items
  {
    var texts := before + ItemTexts(items, depth, fmt);
    if items.Item? {
      hide Print;
      var t := Print(items.head, depth, fmt);
      assert texts == before + [t] + ItemTexts(items.tail, depth, fmt);
      JoinIsPrint(items.tail, depth, fmt, before + [t]);
      assert texts[|before|] == t;
      assert (items.tail == NoItems) == (|before| + 1 == |texts|);
    } else {
      assert texts == before;
    }
  }

  ghost predicate HoldAll(entries: seq<array<char>>, texts: seq<string>)
    reads entries
  {
    |entries| == |texts| && forall k :: 0 <= k < |texts| ==> Holds(entries[k], texts[k])
  }

  lemma {:induction false} JoinNulFree(texts: seq<string>, i: nat, fmt: bool)
    requires i <= |texts| && forall k :: 0 <= k < |texts| ==> NulFree(texts[k])
    ensures NulFree(Join(texts, i, fmt))
    decreases |texts| - i
  {
    if i < |texts| {
      JoinNulFree(texts, i + 1, fmt);
    }
  }

  /** `strcpy(ptr, entry); ptr += strlen(entry);` */
  method Paste(out: array<char>, p: nat, entry: array<char>, ghost t: string) returns (q: nat)
    requires out != entry && Holds(entry, t) && p + |t| < out.Length
    modifies out
    ensures q == p + |t| && out[..q] == old(out[..p]) + t
  {
    Strcpy(out, p, entry, t);
    var n := Strlen(entry, t);
    q := p + n;
    assert out[..q] == out[..p] + out[p..q];
  }

  /** The bytes between two items, or nothing after the last one. */
  method PutSeparator(out: array<char>, p: nat, last: bool, fmt: bool) returns (q: nat)
    requires p + (if last then 0 else |Separator(fmt)|) < out.Length
    modifies out
    ensures q == p + (if last then 0 else |Separator(fmt)|)
    ensures out[..q] == old(out[..p]) + if last then "" else Separator(fmt)
  {
    q := p;
    if !last {
      out[q] := ',';
      q := q + 1;
      if fmt {
        out[q] := ' ';
        q := q + 1;
      }
      out[q] := '\0';
    }
  }

  lemma JoinStep(done: string, texts: seq<string>, i: nat, fmt: bool)
    requires i < |texts|
    ensures var sep := if i + 1 == |texts| then "" else Separator(fmt);
      && done + Join(texts, i, fmt) == done + texts[i] + sep + Join(texts, i + 1, fmt)
      && |Join(texts, i, fmt)| == |texts[i]| + |sep| + |Join(texts, i + 1, fmt)|
  {
  }

  /** The composing loop of print_array: lines 471-477. */
  method FillItems(out: array<char>, entries: seq<array<char>>, ghost texts: seq<string>, fmt: bool) returns (p: nat)
    requires out !in entries && HoldAll(entries, texts)
    requires |Join(texts, 0, fmt)| + 3 <= out.Length && out[0] == '['
    modifies out
    ensures p == 1 + |Join(texts, 0, fmt)| && out[..p] == "[" + Join(texts, 0, fmt)
  {
    p := 1;
    out[p] := '\0';
    var i := 0;
    ghost var all := "[" + Join(texts, 0, fmt);
    hide Holds;
    while i < |entries|
      invariant 0 <= i <= |entries|
      invariant p + |Join(texts, i, fmt)| == |all|
      invariant out[..p] + Join(texts, i, fmt) == all
      invariant HoldAll(entries, texts)
    {
      JoinStep(out[..p], texts, i, fmt);
      hide Join;
      p := Paste(out, p, entries[i], texts[i]);
      p := PutSeparator(out, p, i == |entries| - 1, fmt);
      i := i + 1;
    }
  }

  /** The composing part of print_array: lines 470-480. */
  method ComposeArray(entries: seq<array<char>>, ghost texts: seq<string>, fmt: bool, len: nat) returns (out: array<char>)
    requires HoldAll(entries, texts) && len == 5 + Cost(texts, 0, fmt)
    ensures fresh(out) && Holds(out, "[" + Join(texts, 0, fmt) + "]") && out.Length == len
  {
    CostIsLength(texts, 0, fmt);
    JoinNulFree(texts, 0, fmt);
    hide Join, Cost;
    out := new char[len];
    out[0] := '[';
    var p := FillItems(out, entries, texts, fmt);
    out[p] := ']';
    out[p + 1] := '\0';
    assert out[..p + 1] == "[" + Join(texts, 0, fmt) + "]";
  }

  // ----- objects

  function Colon(fmt: bool): string {
    if fmt then ":\t" else ":"
  }

  /** One member of an object at a depth, and what follows it. */
  function MemberText(name: string, value: string, last: bool, depth: nat, fmt: bool): string {
    (if fmt then Tabs(depth) else "") + name + Colon(fmt) + value + (if last then "" else ",") + (if fmt then "\n" else "")
  }

  function JoinMembers(names: seq<string>, values: seq<string>, i: nat, depth: nat, fmt: bool): string
    requires |names| == |values| && i <= |names|
    decreases |names| - i
  {
    if i == |names| then ""
    else MemberText(names[i], values[i], i + 1 == |names|, depth, fmt) + JoinMembers(names, values, i + 1, depth, fmt)
  }

  /** What the collecting loop of print_object adds to the length for the members from the i-th on. */
  function MemberCost(names: seq<string>, values: seq<string>, i: nat, depth: nat, fmt: bool): nat
    requires |names| == |values| && i <= |names|
    decreases |names| - i
  {
    if i == |names| then 0
    else |values[i]| + |names[i]| + 2 + (if fmt then 2 + depth else 0) + MemberCost(names, values, i + 1, depth, fmt)
  }

  lemma {:induction false} MemberCostIsLength(names: seq<string>, values: seq<string>, i: nat, depth: nat, fmt: bool)
    requires |names| == |values| && i <= |names|
    ensures MemberCost(names, values, i, depth, fmt) ==
      |JoinMembers(names, values, i, depth, fmt)| + (if i < |names| then 1 else 0)
    decreases |names| - i
  {
    if i < |names| {
      MemberCostIsLength(names, values, i + 1, depth, fmt);
    }
  }

  lemma {:induction false} MemberCostSnoc(names: seq<string>, values: seq<string>, n: string, v: string, i: nat, depth: nat, fmt: bool)
    requires |names| == |values| && i <= |names|
    ensures MemberCost(names + [n], values + [v], i, depth, fmt) ==
      MemberCost(names, values, i, depth, fmt) + |v| + |n| + 2 + (if fmt then 2 + depth else 0)
    decreases |names| - i
  {
    if i < |names| {
      MemberCostSnoc(names, values, n, v, i + 1, depth, fmt);
    }
  }

  lemma {:induction false} JoinMembersNulFree(names: seq<string>, values: seq<string>, i: nat, depth: nat, fmt: bool)
    requires |names| == |values| && i <= |names|
    requires forall k :: 0 <= k < |names| ==> NulFree(names[k]) && NulFree(values[k])
    ensures NulFree(JoinMembers(names, values, i, depth, fmt))
    decreases |names| - i
  {
    if i < |names| {
      JoinMembersNulFree(names, values, i + 1, depth, fmt);
    }
  }

  /** The printed names, and the texts of the values. */
  function NameTexts(members: Members): seq<string> {
    match members
    case NoMembers => []
    case Member(name, _, tail) => [Quoted(name)] + NameTexts(tail)
  }

  function ValueTexts(members: Members, depth: nat, fmt: bool): (r: seq<string>)
    requires PlainMembers(members)
    ensures |r| == |NameTexts(members)|
  {
    match members
    case NoMembers => []
    case Member(_, value, tail) => [Print(value, depth, fmt)] + ValueTexts(tail, depth, fmt)
  }

  lemma {:induction false} JoinMembersIsPrint(members: Members, depth: nat, fmt: bool, names: seq<string>, values: seq<string>)
    requires PlainMembers(members) && |names| == |values|
    ensures JoinMembers(names + NameTexts(members), values + ValueTexts(members, depth, fmt), |names|, depth, fmt)
      == PrintMembers(members, depth, fmt)
    decreases members
  {
    var ns, vs := names + NameTexts(members), values + ValueTexts(members, depth, fmt);
    if members.Member? {
      hide Print, Quoted, Tabs, Colon;
      var Member(name, value, tail) := members;
      var n, v := Quoted(name), Print(value, depth, fmt);
      assert ns == names + [n] + NameTexts(tail) && vs == values + [v] + ValueTexts(tail, depth, fmt);
      JoinMembersIsPrint(tail, depth, fmt, names + [n], values + [v]);
      assert ns[|names|] == n && vs[|names|] == v;
      assert (tail == NoMembers) == (|names| + 1 == |ns|);
      MemberPrint(members, depth, fmt);
    } else {
      assert ns == names && vs == values;
    }
  }

  lemma MemberPrint(members: Members, depth: nat, fmt: bool)
    requires PlainMembers(members) && members.Member?
    ensures PrintMembers(members, depth, fmt) ==
      MemberText(Quoted(members.name), Print(members.value, depth, fmt), members.tail == NoMembers, depth, fmt)
      + PrintMembers(members.tail, depth, fmt)
  {
    hide Print, Quoted, Tabs;
  }

  /** `for (...; j<depth; j++) *ptr++='\t';` */
  method PutTabs(out: array<char>, p: nat, n: nat) returns (q: nat)
    requires p + n <= out.Length
    modifies out
    ensures q == p + n && out[..q] == old(out[..p]) + Tabs(n)
  {
    q := p;
    var j := 0;
    while j < n
      invariant 0 <= j <= n && q == p + j && out[..q] == old(out[..p]) + Tabs(j)
    {
      out[q] := '\t';
      q := q + 1;
      j := j + 1;
    }
  }

  /** A member up to its value: lines 562-564. */
  method PutName(out: array<char>, p: nat, name: array<char>, ghost n: string, depth: nat, fmt: bool) returns (q: nat)
    requires out != name && Holds(name, n)
    requires p + (if fmt then depth else 0) + |n| + |Colon(fmt)| < out.Length
    modifies out
    ensures q == p + (if fmt then depth else 0) + |n| + |Colon(fmt)|
    ensures out[..q] == old(out[..p]) + (if fmt then Tabs(depth) else "") + n + Colon(fmt)
  {
    hide Holds, Tabs;
    q := p;
    if fmt {
      q := PutTabs(out, q, depth);
    }
    q := Paste(out, q, name, n);
    out[q] := ':';
    q := q + 1;
    if fmt {
      out[q] := '\t';
      q := q + 1;
    }
  }

  /** A member after its value: lines 566-567. */
  method PutEnd(out: array<char>, p: nat, last: bool, fmt: bool) returns (q: nat)
    requires p + (if last then 0 else 1) + (if fmt then 1 else 0) < out.Length
    modifies out
    ensures q == p + (if last then 0 else 1) + (if fmt then 1 else 0)
    ensures out[..q] == old(out[..p]) + (if last then "" else ",") + (if fmt then "\n" else "")
  {
    q := p;
    if !last {
      out[q] := ',';
      q := q + 1;
    }
    if fmt {
      out[q] := '\n';
      q := q + 1;
    }
    out[q] := '\0';
  }

  lemma JoinMembersStep(done: string, names: seq<string>, values: seq<string>, i: nat, depth: nat, fmt: bool)
    requires |names| == |values| && i < |names|
    ensures var tabs := if fmt then Tabs(depth) else "";
      var comma := if i + 1 == |names| then "" else ",";
      var newline := if fmt then "\n" else "";
      var more := JoinMembers(names, values, i + 1, depth, fmt);
      && done + JoinMembers(names, values, i, depth, fmt)
         == done + tabs + names[i] + Colon(fmt) + values[i] + comma + newline + more
      && |JoinMembers(names, values, i, depth, fmt)|
         == (if fmt then depth else 0) + |names[i]| + |Colon(fmt)| + |values[i]| + |comma| + |newline| + |more|
  {
    var tabs := if fmt then Tabs(depth) else "";
    assert |tabs| == if fmt then depth else 0;
    hide Tabs, Colon;
    var comma := if i + 1 == |names| then "" else ",";
    var newline := if fmt then "\n" else "";
    var more := JoinMembers(names, values, i + 1, depth, fmt);
    assert JoinMembers(names, values, i, depth, fmt) == tabs + names[i] + Colon(fmt) + values[i] + comma + newline + more;
    hide JoinMembers;
  }

  /** The composing loop of print_object: lines 560-569. */
  method FillMembers(out: array<char>, start: nat, nameTexts: seq<array<char>>, ghost names: seq<string>,
      entries: seq<array<char>>, ghost values: seq<string>, depth: nat, fmt: bool) returns (p: nat)
    requires out !in nameTexts && out !in entries && HoldAll(nameTexts, names) && HoldAll(entries, values)
    requires |names| == |values| && start + |JoinMembers(names, values, 0, depth, fmt)| < out.Length
    modifies out
    ensures p == start + |JoinMembers(names, values, 0, depth, fmt)|
    ensures out[..p] == old(out[..start]) + JoinMembers(names, values, 0, depth, fmt)
  {
    p := start;
    out[p] := '\0';
    var i := 0;
    ghost var all := out[..start] + JoinMembers(names, values, 0, depth, fmt);
    hide Holds, Tabs, Colon;
    while i < |entries|
      invariant 0 <= i <= |entries|
      invariant p + |JoinMembers(names, values, i, depth, fmt)| == |all|
      invariant out[..p] + JoinMembers(names, values, i, depth, fmt) == all
      invariant HoldAll(nameTexts, names) && HoldAll(entries, values)
    {
      JoinMembersStep(out[..p], names, values, i, depth, fmt);
      hide JoinMembers;
      p := PutName(out, p, nameTexts[i], names[i], depth, fmt);
      p := Paste(out, p, entries[i], values[i]);
      p := PutEnd(out, p, i == |entries| - 1, fmt);
      i := i + 1;
    }
  }

  /** `if (fmt) *ptr++='\n';` */
  method PutNewline(out: array<char>, p: nat, fmt: bool) returns (q: nat)
    requires p < out.Length
    modifies out
    ensures q == p + (if fmt then 1 else 0) && out[..q] == old(out[..p]) + if fmt then "\n" else ""
  {
    q := p;
    if fmt {
      out[q] := '\n';
      q := q + 1;
    }
  }

  /** The end of an object: lines 572-573. */
  method PutClose(out: array<char>, p: nat, depth: nat, fmt: bool) returns (q: nat)
    requires p + (if fmt then depth else 0) + 1 < out.Length
    modifies out
    ensures q == p + (if fmt then depth else 0) + 1 && out[q] == '\0'
    ensures out[..q] == old(out[..p]) + (if fmt then Tabs(depth) else "") + "}"
  {
    hide Tabs;
    q := p;
    if fmt {
      q := PutTabs(out, q, depth);
    }
    out[q] := '}';
    out[q + 1] := '\0';
    q := q + 1;
  }

  /** What print_object writes, for the texts of its members. */
  function ObjectText(body: string, depth: nat, fmt: bool): string {
    "{" + (if fmt then "\n" else "") + body + (if fmt then Tabs(depth) else "") + "}"
  }

  lemma ObjectTextNulFree(body: string, depth: nat, fmt: bool)
    requires NulFree(body)
    ensures NulFree(ObjectText(body, depth, fmt))
    ensures |ObjectText(body, depth, fmt)| == |body| + 2 + if fmt then depth + 1 else 0
  {
    var head, tail := "{" + (if fmt then "\n" else ""), (if fmt then Tabs(depth) else "") + "}";
    assert NulFree(head) && NulFree(tail);
    assert ObjectText(body, depth, fmt) == head + body + tail;
  }

  lemma Terminated(out: array<char>, q: nat, t: string)
    requires q < out.Length && out[q] == '\0' && out[..q] == t && NulFree(t)
    ensures Holds(out, t)
  {
    assert forall i :: 0 <= i < |t| ==> out[i] == out[..q][i];
  }

  /** The composing part of print_object: lines 559-574. */
  method ComposeObject(nameTexts: seq<array<char>>, ghost names: seq<string>, entries: seq<array<char>>, ghost values: seq<string>,
      depth: nat, fmt: bool, len: nat) returns (out: array<char>)
    requires HoldAll(nameTexts, names) && HoldAll(entries, values) && |names| == |values|
    requires len == 7 + (if fmt then depth + 1 else 0) + MemberCost(names, values, 0, depth + 1, fmt)
    ensures fresh(out) && out.Length == len
    ensures Holds(out, ObjectText(JoinMembers(names, values, 0, depth + 1, fmt), depth, fmt))
  {
    MemberCostIsLength(names, values, 0, depth + 1, fmt);
    JoinMembersNulFree(names, values, 0, depth + 1, fmt);
    ghost var body := JoinMembers(names, values, 0, depth + 1, fmt);
    ObjectTextNulFree(body, depth, fmt);
    hide JoinMembers, MemberCost, HoldAll, Tabs, NulFree, Holds;
    out := new char[len];
    out[0] := '{';
    assert out[..1] == "{";
    var p := PutNewline(out, 1, fmt);
    p := FillMembers(out, p, nameTexts, names, entries, values, depth + 1, fmt);
    p := PutClose(out, p, depth, fmt);
    Terminated(out, p, ObjectText(body, depth, fmt));
  }

  // ----- values

  /** The room left in the buffer of a value, behind the terminator. */
  function Spare(j: Json, fmt: bool): nat
    requires Plain(j)
  {
    match j
    case Number(v) => IntTextLength(v.Floor); 20 - |IntText(v.Floor)|
    case Array(NoItems) => 2
    case Array(items) => 2 + |ItemTexts(items, 0, fmt)| + if fmt then 2 else 1
    case Object(members) => if members == NoMembers then 4 else 5
    case _ => 0
  }

  /** print_value: the text of the tree, in a buffer with exactly that room left. */
  method PrintValue(j: Json, depth: nat, fmt: bool) returns (out: array<char>)
    requires Plain(j)
    ensures fresh(out) && Holds(out, Print(j, depth, fmt))
    ensures out.Length == |Print(j, depth, fmt)| + 1 + Spare(j, fmt)
    decreases j
  {
    match j {
      case Null => out := Strdup("null");
      case False => out := Strdup("false");
      case True => out := Strdup("true");
      case Number(v) => out := PrintNumber(v.Floor);
      case String(s) => out := PrintStringPtr(s);
      case Array(items) => out := PrintArray(items, depth, fmt);
      case Object(members) => out := PrintObject(members, depth, fmt);
    }
  }

  /** print_number: a buffer of 21 bytes. */
  method PrintNumber(n: int) returns (out: array<char>)
    requires INT_MIN <= n <= INT_MAX
    ensures fresh(out) && Holds(out, IntText(n)) && out.Length == 21
  {
    IntTextLength(n);
    NatTextNulFree(if n < 0 then -n else n);
    var t := IntText(n);
    out := new char[21](i => if 0 <= i < |t| then t[i] else '\0');
  }

  lemma HoldOneMore(entries: seq<array<char>>, texts: seq<string>, a: array<char>, t: string)
    requires HoldAll(entries, texts) && Holds(a, t)
    ensures HoldAll(entries + [a], texts + [t])
  {
    hide Holds;
  }

  lemma OneMoreItem(texts: seq<string>, child: Items, depth: nat, fmt: bool)
    requires PlainItems(child) && child.Item?
    ensures var t := Print(child.head, depth, fmt);
      && texts + ItemTexts(child, depth, fmt) == (texts + [t]) + ItemTexts(child.tail, depth, fmt)
      && Cost(texts + [t], 0, fmt) == Cost(texts, 0, fmt) + |t| + 2 + (if fmt then 1 else 0)
  {
    hide Print;
    CostSnoc(texts, Print(child.head, depth, fmt), 0, fmt);
  }

  /** The collecting loop of print_array: lines 447-454. */
  method CollectItems(items: Items, depth: nat, fmt: bool) returns (entries: seq<array<char>>, len: nat)
    requires PlainItems(items)
    ensures HoldAll(entries, ItemTexts(items, depth + 1, fmt))
    ensures len == 5 + Cost(ItemTexts(items, depth + 1, fmt), 0, fmt)
    decreases items, 0
  {
    var child := items;
    entries, len := [], 5;
    ghost var texts := [];
    while child.Item?
      invariant PlainItems(child) && (items nonincreases to child)
      invariant texts + ItemTexts(child, depth + 1, fmt) == ItemTexts(items, depth + 1, fmt)
      invariant HoldAll(entries, texts) && len == 5 + Cost(texts, 0, fmt)
      decreases child
    {
      OneMoreItem(texts, child, depth + 1, fmt);
      hide Print, ItemTexts, Cost, Holds, HoldAll;
      var entry := PrintValue(child.head, depth + 1, fmt);
      ghost var t := Print(child.head, depth + 1, fmt);
      var n := Strlen(entry, t);
      len := len + n + 2 + if fmt then 1 else 0;
      HoldOneMore(entries, texts, entry, t);
      entries, texts := entries + [entry], texts + [t];
      child := child.tail;
    }
    assert texts == ItemTexts(items, depth + 1, fmt);
  }

  lemma {:induction false} ItemTextsCount(items: Items, depth: nat, fmt: bool)
    requires PlainItems(items)
    ensures |ItemTexts(items, depth, fmt)| == |ItemTexts(items, 0, fmt)|
  {
    hide Print;
    if items.Item? {
      ItemTextsCount(items.tail, depth, fmt);
    }
  }

  /** The text and the length of an array, from the texts of its items. */
  lemma ArrayBuffer(items: Items, depth: nat, fmt: bool)
    requires PlainItems(items)
    ensures var texts := ItemTexts(items, depth + 1, fmt);
      && "[" + Join(texts, 0, fmt) + "]" == Print(Array(items), depth, fmt)
      && 5 + Cost(texts, 0, fmt) == |Print(Array(items), depth, fmt)| + 1 + Spare(Array(items), fmt)
  {
    hide Join, Cost, PrintItems;
    var texts := ItemTexts(items, depth + 1, fmt);
    assert [] + texts == texts;
    JoinIsPrint(items, depth + 1, fmt, []);
    CostIsLength(texts, 0, fmt);
    ItemTextsCount(items, depth + 1, fmt);
  }

  /** print_array */
  method PrintArray(items: Items, depth: nat, fmt: bool) returns (out: array<char>)
    requires PlainItems(items)
    ensures fresh(out) && Holds(out, Print(Array(items), depth, fmt))
    ensures out.Length == |Print(Array(items), depth, fmt)| + 1 + Spare(Array(items), fmt)
    decreases items, 1
  {
    ArrayBuffer(items, depth, fmt);
    hide *;
    var entries, len := CollectItems(items, depth, fmt);
    out := ComposeArray(entries, ItemTexts(items, depth + 1, fmt), fmt, len);
  }

  lemma OneMoreMember(names: seq<string>, values: seq<string>, child: Members, depth: nat, fmt: bool)
    requires PlainMembers(child) && child.Member? && |names| == |values|
    ensures var n, v := Quoted(child.name), Print(child.value, depth, fmt);
      && names + NameTexts(child) == (names + [n]) + NameTexts(child.tail)
      && values + ValueTexts(child, depth, fmt) == (values + [v]) + ValueTexts(child.tail, depth, fmt)
      && MemberCost(names + [n], values + [v], 0, depth, fmt)
         == MemberCost(names, values, 0, depth, fmt) + |v| + |n| + 2 + (if fmt then 2 + depth else 0)
    ensures NulFree(child.name) && Plain(child.value) && PlainMembers(child.tail)
  {
    var n, v := Quoted(child.name), Print(child.value, depth, fmt);
    assert NameTexts(child) == [n] + NameTexts(child.tail);
    assert ValueTexts(child, depth, fmt) == [v] + ValueTexts(child.tail, depth, fmt);
    hide Print, Quoted, NameTexts, ValueTexts, MemberCost;
    MoveOver(names, n, NameTexts(child.tail));
    MoveOver(values, v, ValueTexts(child.tail, depth, fmt));
    MemberCostSnoc(names, values, n, v, 0, depth, fmt);
  }

  lemma MoveOver(a: seq<string>, x: string, b: seq<string>)
    ensures a + ([x] + b) == (a + [x]) + b
  {
  }

  lemma NoMoreMembers(names: seq<string>, values: seq<string>, depth: nat, fmt: bool)
    ensures names + NameTexts(NoMembers) == names && values + ValueTexts(NoMembers, depth, fmt) == values
    ensures MemberCost([], [], 0, depth, fmt) == 0 && HoldAll([], [])
  {
  }

  /** The collecting loop of print_object: lines 537-544. */
  method CollectMembers(members: Members, depth: nat, fmt: bool)
    returns (nameTexts: seq<array<char>>, entries: seq<array<char>>, len: nat)
    requires PlainMembers(members)
    ensures HoldAll(nameTexts, NameTexts(members)) && HoldAll(entries, ValueTexts(members, depth + 1, fmt))
    ensures len == 7 + (if fmt then depth + 1 else 0)
      + MemberCost(NameTexts(members), ValueTexts(members, depth + 1, fmt), 0, depth + 1, fmt)
    decreases members, 0
  {
    hide *;
    var child := members;
    nameTexts, entries := [], [];
    ghost var names, values := [], [];
    NoMoreMembers(names, values, depth + 1, fmt);
    len := 7 + if fmt then depth + 1 else 0;
    while child.Member?
      invariant PlainMembers(child) && (members nonincreases to child)
      invariant names + NameTexts(child) == NameTexts(members)
      invariant values + ValueTexts(child, depth + 1, fmt) == ValueTexts(members, depth + 1, fmt)
      invariant HoldAll(nameTexts, names) && HoldAll(entries, values) && |names| == |values|
      invariant len == 7 + (if fmt then depth + 1 else 0) + MemberCost(names, values, 0, depth + 1, fmt)
      decreases child
    {
      OneMoreMember(names, values, child, depth + 1, fmt);
      ghost var n, v := Quoted(child.name), Print(child.value, depth + 1, fmt);
      var name := PrintStringPtr(child.name);
      var entry := PrintValue(child.value, depth + 1, fmt);
      var m := Strlen(entry, v);
      var l := Strlen(name, n);
      len := len + m + l + 2 + if fmt then 2 + (depth + 1) else 0;
      HoldOneMore(nameTexts, names, name, n);
      HoldOneMore(entries, values, entry, v);
      nameTexts, names := nameTexts + [name], names + [n];
      entries, values := entries + [entry], values + [v];
      child := child.tail;
    }
    NoMoreMembers(names, values, depth + 1, fmt);
  }

  /** The text and the length of an object, from the texts of its members. */
  lemma ObjectBuffer(members: Members, depth: nat, fmt: bool)
    requires PlainMembers(members)
    ensures var names, values := NameTexts(members), ValueTexts(members, depth + 1, fmt);
      && ObjectText(JoinMembers(names, values, 0, depth + 1, fmt), depth, fmt) == Print(Object(members), depth, fmt)
      && 7 + (if fmt then depth + 1 else 0) + MemberCost(names, values, 0, depth + 1, fmt)
         == |Print(Object(members), depth, fmt)| + 1 + Spare(Object(members), fmt)
  {
    hide JoinMembers, MemberCost, PrintMembers, Tabs;
    var names, values := NameTexts(members), ValueTexts(members, depth + 1, fmt);
    assert [] + names == names && [] + values == values;
    JoinMembersIsPrint(members, depth + 1, fmt, [], []);
    MemberCostIsLength(names, values, 0, depth + 1, fmt);
    assert |Tabs(depth)| == depth by { TabsLength(depth); }
  }

  lemma TabsLength(n: nat)
    ensures |Tabs(n)| == n
  {
  }

  /** print_object */
  method PrintObject(members: Members, depth: nat, fmt: bool) returns (out: array<char>)
    requires PlainMembers(members)
    ensures fresh(out) && Holds(out, Print(Object(members), depth, fmt))
    ensures out.Length == |Print(Object(members), depth, fmt)| + 1 + Spare(Object(members), fmt)
    decreases members, 1
  {
    ObjectBuffer(members, depth, fmt);
    hide *;
    var nameTexts, entries, len := CollectMembers(members, depth, fmt);
    out := ComposeObject(nameTexts, NameTexts(members), entries, ValueTexts(members, depth + 1, fmt), depth, fmt, len);
  }
}
