/** JSON trees and their unformatted text, src/json/cJSON.c. */
module JsonText {

  type Byte = c: char | c as int < 256

  type Text = seq<Byte>

  /** A number is opaque: the text that sprintf makes of it. */
  datatype Json =
    | Null
    | False
    | True
    | Number(token: Text)
    | String(s: Text)
    | Array(items: seq<Json>)
    | Object(members: seq<Member>)

  datatype Member = Member(name: Text, value: Json)

  /** CJSON_NESTING_LIMIT. */
  const NESTING_LIMIT: nat := 1000

  const HEX: Text := "0123456789abcdef"

  const BACKSPACE: Byte := 8 as char
  const TAB: Byte := 9 as char
  const NEWLINE: Byte := 10 as char
  const FORM_FEED: Byte := 12 as char
  const RETURN: Byte := 13 as char

  /** The letter after the backslash for the bytes that have a short escape. */
  function Letter(c: Byte): Byte
  {
    if c == '\"' || c == '\\' then c
    else if c == BACKSPACE then 'b'
    else if c == FORM_FEED then 'f'
    else if c == NEWLINE then 'n'
    else if c == RETURN then 'r'
    else if c == TAB then 't'
    else 'u'
  }

  function EscapeByte(c: Byte): Text
  {
    if Letter(c) != 'u' then ['\\', Letter(c)]
    else if c < ' ' then ['\\', 'u', '0', '0', HEX[c as int / 16], HEX[c as int % 16]]
    else [c]
  }

  function Escape(s: Text): Text
  {
    if s == [] then [] else EscapeByte(s[0]) + Escape(s[1..])
  }

  function Quote(s: Text): Text { ['\"'] + Escape(s) + ['\"'] }

  /** cJSON_PrintUnformatted. */
  function Print(j: Json): Text
    decreases j, 1
  {
    match j
    case Null => "null"
    case False => "false"
    case True => "true"
    case Number(token) => token
    case String(s) => Quote(s)
    case Array(items) => ['['] + PrintItems(items) + [']']
    case Object(members) => ['{'] + PrintMembers(members) + ['}']
  }

  function PrintItems(items: seq<Json>): Text
    decreases items, 0
  {
    if items == [] then []
    else if |items| == 1 then Print(items[0])
    else Print(items[0]) + [','] + PrintItems(items[1..])
  }

  function PrintMembers(members: seq<Member>): Text
    decreases members, 0
  {
    if members == [] then []
    else
      var first := Quote(members[0].name) + [':'] + Print(members[0].value);
      if |members| == 1 then first else first + [','] + PrintMembers(members[1..])
  }

  /** How many arrays and objects are open at the deepest place. */
  function Nesting(j: Json): nat
    decreases j, 1
  {
    match j
    case Array(items) => 1 + NestingOfItems(items)
    case Object(members) => 1 + NestingOfMembers(members)
    case _ => 0
  }

  function NestingOfItems(items: seq<Json>): nat
    decreases items, 0
  {
    if items == [] then 0
    else if Nesting(items[0]) > NestingOfItems(items[1..]) then Nesting(items[0]) else NestingOfItems(items[1..])
  }

  function NestingOfMembers(members: seq<Member>): nat
    decreases members, 0
  {
    if members == [] then 0
    else if Nesting(members[0].value) > NestingOfMembers(members[1..]) then Nesting(members[0].value)
    else NestingOfMembers(members[1..])
  }

  predicate NumberByte(c: Byte)
  {
    '0' <= c <= '9' || c == '+' || c == '-' || c == 'e' || c == 'E' || c == '.'
  }

  /** A text that the number printer makes and that strtod reads back to its end. */
  predicate NumberText(t: Text, strtod: Text -> nat)
  {
    && 0 < |t| <= 25 && (t[0] == '-' || '0' <= t[0] <= '9') && strtod(t) == |t|
    && forall i :: 0 <= i < |t| ==> NumberByte(t[i])
  }

  predicate NulFree(s: Text)
  {
    forall i :: 0 <= i < |s| ==> s[i] != '\0'
  }

  /** Strings are C strings and numbers are ones that strtod reads back. */
  predicate Printable(j: Json, strtod: Text -> nat)
    decreases j
  {
    match j
    case Number(token) => NumberText(token, strtod)
    case String(s) => NulFree(s)
    case Array(items) => forall i :: 0 <= i < |items| ==> Printable(items[i], strtod)
    case Object(members) => forall i :: 0 <= i < |members| ==> NulFree(members[i].name)
                                                               && Printable(members[i].value, strtod)
    case _ => true
  }

  // ---------- The first byte ----------

  /** The first byte tells the kind of a value; it is never white space. */
  lemma FirstByte(j: Json, strtod: Text -> nat)
    requires Printable(j, strtod)
    ensures |Print(j)| > 0 && Print(j)[0] > ' ' && Print(j)[0] != ']' && Print(j)[0] != ','
  {
  }

  lemma {:induction false} EscapeConcat(a: Text, b: Text)
    ensures Escape(a + b) == Escape(a) + Escape(b)
    decreases |a|
  {
    if a == [] {
      assert a + b == b;
    } else {
      assert (a + b)[0] == a[0] && (a + b)[1..] == a[1..] + b;
      EscapeConcat(a[1..], b);
    }
  }
}
