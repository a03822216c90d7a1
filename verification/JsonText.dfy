/** C strings, JSON trees and the reference definitions of the printer
    (src/cJSON.c:126-146, :210-242, :256, :387-402, :433-481, :520-575).

    A `char` stands for one byte.  A `const char *` into a text is the rest of
    the text; reading past its end yields the terminator. */
module JsonText {

  /** `*p` */
  function Head(t: string): char {
    if t == "" then '\0' else t[0]
  }

  predicate NulFree(t: string) {
    forall i :: 0 <= i < |t| ==> t[i] != '\0'
  }

  /** skip */
  function Skip(t: string): (r: string)
    ensures |r| <= |t|
    ensures Head(r) > ' ' || Head(r) == '\0'
  {
    if t != "" && t[0] != '\0' && t[0] <= ' ' then Skip(t[1..]) else t
  }

  /** What skip passes are blanks only, and what it returns is the rest of the text
      from the first byte that is none. */
  lemma {:induction false} SkipPassesBlanks(t: string)
    ensures var k := |t| - |Skip(t)|;
      && Skip(t) == t[k..]
      && (forall i :: 0 <= i < k ==> '\0' < t[i] <= ' ')
      && (k < |t| ==> t[k] > ' ' || t[k] == '\0')
    decreases |t|
  {
    if Skip(t) != t {
      SkipPassesBlanks(t[1..]);
    }
  }

  predicate IsDigit(c: char) {
    '0' <= c <= '9'
  }

  // ----- trees

  datatype Json =
    | Null
    | False
    | True
    | Number(value: real)
    | String(text: string)
    | Array(items: Items)
    | Object(members: Members)

  /** The `child`/`next` chain of an array. */
  datatype Items = NoItems | Item(head: Json, tail: Items)

  /** The `child`/`next` chain of an object; each child carries its name. */
  datatype Members = NoMembers | Member(name: string, value: Json, tail: Members)

  const INT_MIN: int := -0x8000_0000
  const INT_MAX: int := 0x7fff_ffff

  predicate IsInt32(v: real) {
    v.Floor as real == v && INT_MIN <= v.Floor <= INT_MAX
  }

  /** Trees with int32 numbers and NUL-free strings and names. */
  predicate Plain(j: Json) {
    match j
    case Number(v) => IsInt32(v)
    case String(s) => NulFree(s)
    case Array(items) => PlainItems(items)
    case Object(members) => PlainMembers(members)
    case _ => true
  }

  predicate PlainItems(items: Items) {
    match items
    case NoItems => true
    case Item(head, tail) => Plain(head) && PlainItems(tail)
  }

  predicate PlainMembers(members: Members) {
    match members
    case NoMembers => true
    case Member(name, value, tail) => NulFree(name) && Plain(value) && PlainMembers(tail)
  }

  // ----- printing

  function Digit(n: nat): char
    requires n < 10
  {
    (n + '0' as int) as char
  }

  /** "%d" for a natural number. */
  function NatText(n: nat): (t: string)
    ensures t != "" && forall i :: 0 <= i < |t| ==> IsDigit(t[i])
  {
    if n < 10 then [Digit(n)] else NatText(n / 10) + [Digit(n % 10)]
  }

  function IntText(n: int): string {
    if n < 0 then "-" + NatText(-n) else NatText(n)
  }

  function HexDigit(n: nat): char
    requires n < 16
  {
    if n < 10 then Digit(n) else (n - 10 + 'a' as int) as char
  }

  /** What one byte of a string becomes in the output. */
  function EscapeChar(c: char): string {
    if c > '\U{1F}' && c != '\"' && c != '\\' then [c]
    else if c == '\\' then "\\\\"
    else if c == '\"' then "\\\""
    else if c == '\U{8}' then "\\b"
    else if c == '\U{C}' then "\\f"
    else if c == '\n' then "\\n"
    else if c == '\r' then "\\r"
    else if c == '\t' then "\\t"
    else "\\u00" + [HexDigit(c as int / 16), HexDigit(c as int % 16)]
  }

  function Escape(s: string): string {
    if s == "" then "" else EscapeChar(s[0]) + Escape(s[1..])
  }

  function Quoted(s: string): string {
    "\"" + Escape(s) + "\""
  }

  function Tabs(n: nat): string {
    seq(n, _ => '\t')
  }

  function Print(j: Json, depth: nat, fmt: bool): string
    requires Plain(j)
    decreases j
  {
    match j
    case Null => "null"
    case False => "false"
    case True => "true"
    case Number(v) => IntText(v.Floor)
    case String(s) => Quoted(s)
    case Array(items) => "[" + PrintItems(items, depth + 1, fmt) + "]"
    case Object(members) =>
      "{" + (if fmt then "\n" else "") + PrintMembers(members, depth + 1, fmt) + (if fmt then Tabs(depth) else "") + "}"
  }

  function PrintItems(items: Items, depth: nat, fmt: bool): string
    requires PlainItems(items)
    decreases items
  {
    match items
    case NoItems => ""
    case Item(head, tail) =>
      Print(head, depth, fmt) + (if tail == NoItems then "" else if fmt then ", " else ",") + PrintItems(tail, depth, fmt)
  }

  function PrintMembers(members: Members, depth: nat, fmt: bool): string
    requires PlainMembers(members)
    decreases members
  {
    match members
    case NoMembers => ""
    case Member(name, value, tail) =>
      (if fmt then Tabs(depth) else "") + Quoted(name) + (if fmt then ":\t" else ":") + Print(value, depth, fmt)
      + (if tail == NoMembers then "" else ",") + (if fmt then "\n" else "") + PrintMembers(tail, depth, fmt)
  }
}
