/** What the parser of src/json/cJSON.c makes of a text. */
module JsonGrammar {
  import opened Options
  import opened JsonText
  import opened JsonString
  import opened JsonScan

  /** A value and the place behind it. */
  datatype Read<T> = Read(value: T, end: nat)

  // ---------- White space ----------

  function Blanks(content: Text, at: nat): (e: nat)
    requires at <= |content|
    ensures at <= e <= |content|
    decreases |content| - at
  {
    if at < |content| && content[at] <= ' ' then Blanks(content, at + 1) else at
  }

  /** buffer_skip_whitespace: everything up to 32; at the end of the content one step back. */
  function Skip(content: Text, at: nat): (e: nat)
    requires at <= |content|
    ensures at <= e <= |content| && (at < |content| ==> e < |content|)
  {
    if at == |content| then at
    else if Blanks(content, at) == |content| then |content| - 1 else Blanks(content, at)
  }

  // ---------- Strings ----------

  /** The byte for the letter after a backslash. */
  function Unletter(c: Byte): Option<Byte>
  {
    if c == 'b' then Some(BACKSPACE)
    else if c == 'f' then Some(FORM_FEED)
    else if c == 'n' then Some(NEWLINE)
    else if c == 'r' then Some(RETURN)
    else if c == 't' then Some(TAB)
    else if c == '\"' || c == '\\' || c == '/' then Some(c)
    else None
  }

  function Before(t: Text, rest: Option<Text>): Option<Text>
  {
    if rest.None? then None else Some(t + rest.value)
  }

  /** The string between p and the closing quote at end. */
  function Unescape(content: Text, p: nat, end: nat): Option<Text>
    requires end < |content|
    decreases if p < end then end - p else 0
  {
    if p >= end then Some([])
    else if content[p] != '\\' then Before([content[p]], Unescape(content, p + 1, end))
    else if content[p + 1] == 'u' then
      var l := Utf16(content, p, end);
      if l.None? then None else Before(Utf8Bytes(l.value.codepoint), Unescape(content, p + l.value.length, end))
    else
      var c := Unletter(content[p + 1]);
      if c.None? then None else Before([c.value], Unescape(content, p + 2, end))
  }

  /** The first quote from k on that no escape sequence takes. */
  function Closing(content: Text, begin: nat, k: nat): Option<nat>
    requires begin <= k <= |content|
    decreases |content| - k
  {
    if k == |content| then None
    else if content[k] == '\"' && Between(content, begin, k) then Some(k)
    else Closing(content, begin, k + 1)
  }

  lemma {:induction false} ClosingIs(content: Text, begin: nat, k: nat)
    requires begin <= k <= |content| && NoQuote(content, begin, k)
    ensures var c := Closing(content, begin, k);
            if c.Some? then ClosesAt(content, begin, c.value) else forall e :: !ClosesAt(content, begin, e)
    decreases |content| - k
  {
    if k < |content| && !(content[k] == '\"' && Between(content, begin, k)) { ClosingIs(content, begin, k + 1); }
  }

  /** A string that starts at that place. */
  function StringAt(content: Text, at: nat): (r: Option<Read<Text>>)
    requires at <= |content|
    ensures r.Some? ==> at < r.value.end <= |content|
  {
    if at == |content| || content[at] != '\"' then None else
    var end := Closing(content, at + 1, at + 1);
    if end.None? then None else
    ClosingIs(content, at + 1, at + 1);
    var s := Unescape(content, at + 1, end.value);
    if s.None? then None else Some(Read(s.value, end.value + 1))
  }

  // ---------- Numbers ----------

  /** The bytes copied for strtod: at most n of those that numbers are made of. */
  function Run(content: Text, at: nat, n: nat): (t: Text)
    requires at <= |content|
    ensures at + |t| <= |content| && |t| <= n
    decreases |content| - at
  {
    if n == 0 || at == |content| || !NumberByte(content[at]) then [] else [content[at]] + Run(content, at + 1, n - 1)
  }

  /** How much of the text strtod converts. */
  function Converted(strtod: Text -> nat, t: Text): (n: nat)
    ensures n <= |t|
  {
    if strtod(t) <= |t| then strtod(t) else |t|
  }

  function NumberAt(content: Text, at: nat, strtod: Text -> nat): (r: Option<Read<Json>>)
    requires at <= |content|
    ensures r.Some? ==> at < r.value.end <= |content|
  {
    var t := Run(content, at, 63);
    var n := Converted(strtod, t);
    if n == 0 then None else Some(Read(Number(t[..n]), at + n))
  }

  // ---------- Values ----------

  /** parse_value. */
  function ValueAt(content: Text, at: nat, depth: nat, strtod: Text -> nat): (r: Option<Read<Json>>)
    requires at <= |content|
    ensures r.Some? ==> at < r.value.end <= |content|
    decreases |content| - at, 4
  {
    if Expect(content, at, "null") then Some(Read(Null, at + 4))
    else if Expect(content, at, "false") then Some(Read(False, at + 5))
    else if Expect(content, at, "true") then Some(Read(True, at + 4))
    else if at == |content| then None
    else if content[at] == '\"' then
      var s := StringAt(content, at);
      if s.None? then None else Some(Read(String(s.value.value), s.value.end))
    else if content[at] == '-' || '0' <= content[at] <= '9' then NumberAt(content, at, strtod)
    else if content[at] == '[' then ArrayAt(content, at, depth, strtod)
    else if content[at] == '{' then ObjectAt(content, at, depth, strtod)
    else None
  }

  /** parse_array, at the opening bracket. */
  function ArrayAt(content: Text, at: nat, depth: nat, strtod: Text -> nat): (r: Option<Read<Json>>)
    requires at < |content|
    ensures r.Some? ==> at < r.value.end <= |content|
    decreases |content| - at, 2
  {
    if depth >= NESTING_LIMIT then None else ArrayFrom(content, Skip(content, at + 1), depth + 1, strtod)
  }

  /** The elements and the closing bracket, from the first byte that is not white space. */
  function ArrayFrom(content: Text, first: nat, depth: nat, strtod: Text -> nat): (r: Option<Read<Json>>)
    requires 0 < first <= |content|
    ensures r.Some? ==> first < r.value.end <= |content|
    decreases |content| - first + 1, 1
  {
    if first == |content| then None
    else if content[first] == ']' then Some(Read(Array([]), first + 1))
    else
      var items := ItemsAt(content, first - 1, depth, strtod);
      if items.None? || items.value.end == |content| || content[items.value.end] != ']' then None
      else Some(Read(Array(items.value.value), items.value.end + 1))
  }

  /** parse_object, at the opening brace. */
  function ObjectAt(content: Text, at: nat, depth: nat, strtod: Text -> nat): (r: Option<Read<Json>>)
    requires at < |content|
    ensures r.Some? ==> at < r.value.end <= |content|
    decreases |content| - at, 3
  {
    if depth >= NESTING_LIMIT then None else ObjectFrom(content, Skip(content, at + 1), depth + 1, strtod)
  }

  /** The members and the closing brace, from the first byte that is not white space. */
  function ObjectFrom(content: Text, first: nat, depth: nat, strtod: Text -> nat): (r: Option<Read<Json>>)
    requires 0 < first <= |content|
    ensures r.Some? ==> first < r.value.end <= |content|
    decreases |content| - first + 1, 2
  {
    if first == |content| then None
    else if content[first] == '}' then Some(Read(Object([]), first + 1))
    else
      var members := MembersAt(content, first - 1, depth, strtod);
      if members.None? || members.value.end == |content| || content[members.value.end] != '}' then None
      else Some(Read(Object(members.value.value), members.value.end + 1))
  }

  function Joined<T>(first: T, rest: Option<Read<seq<T>>>): (r: Option<Read<seq<T>>>)
    ensures r.Some? <==> rest.Some?
    ensures r.Some? ==> r.value.end == rest.value.end
  {
    if rest.None? then None else Some(Read([first] + rest.value.value, rest.value.end))
  }

  /** The elements behind a place, each but the last followed by a comma. */
  function ItemsAt(content: Text, at: nat, depth: nat, strtod: Text -> nat): (r: Option<Read<seq<Json>>>)
    requires at < |content|
    ensures r.Some? ==> at < r.value.end <= |content|
    decreases |content| - at, 0
  {
    var v := ValueAt(content, Skip(content, at + 1), depth, strtod);
    if v.None? then None else
    var next := Skip(content, v.value.end);
    if next == |content| || content[next] != ',' then Some(Read([v.value.value], next)) else
    Joined(v.value.value, ItemsAt(content, next, depth, strtod))
  }

  /** The name of a member behind a place, and where its colon is. */
  function NameAt(content: Text, at: nat): (r: Option<Read<Text>>)
    requires at < |content|
    ensures r.Some? ==> at < r.value.end < |content|
  {
    var name := StringAt(content, Skip(content, at + 1));
    if name.None? then None else
    var colon := Skip(content, name.value.end);
    if colon == |content| || content[colon] != ':' then None else Some(Read(name.value.value, colon))
  }

  /** One member behind a place: name, colon and value. */
  function MemberAt(content: Text, at: nat, depth: nat, strtod: Text -> nat): (r: Option<Read<Member>>)
    requires at < |content|
    ensures r.Some? ==> at < r.value.end <= |content|
    decreases |content| - at, 0
  {
    var name := NameAt(content, at);
    if name.None? then None else
    var v := ValueAt(content, Skip(content, name.value.end + 1), depth, strtod);
    if v.None? then None else Some(Read(Member(name.value.value, v.value.value), Skip(content, v.value.end)))
  }

  function MembersAt(content: Text, at: nat, depth: nat, strtod: Text -> nat): (r: Option<Read<seq<Member>>>)
    requires at < |content|
    ensures r.Some? ==> at < r.value.end <= |content|
    decreases |content| - at, 1
  {
    var m := MemberAt(content, at, depth, strtod);
    if m.None? then None
    else if m.value.end == |content| || content[m.value.end] != ',' then Some(Read([m.value.value], m.value.end)) else
    Joined(m.value.value, MembersAt(content, m.value.end, depth, strtod))
  }
}
