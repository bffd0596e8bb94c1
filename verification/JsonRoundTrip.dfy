/** Parsing what was printed gives the printed tree back. */
module JsonRoundTrip {
  import opened Options
  import opened JsonText
  import opened JsonString
  import opened JsonScan
  import opened JsonGrammar

  // ---------- Strings ----------

  lemma HexEscape(c: Byte)
    requires c < ' '
    ensures Hex4(['0', '0', HEX[c as int / 16], HEX[c as int % 16]]) == c as int
  {
    HexIsDigit(c as int / 16);
    HexIsDigit(c as int % 16);
  }

  lemma UnescapeByte(content: Text, at: nat, end: nat, c: Byte)
    requires Expect(content, at, EscapeByte(c)) && at + |EscapeByte(c)| <= end < |content|
    ensures Unescape(content, at, end) == Before([c], Unescape(content, at + |EscapeByte(c)|, end))
  {
    var e := EscapeByte(c);
    ExpectAt(content, at, e, 0);
    if |e| > 1 { ExpectAt(content, at, e, 1); }
    if |e| == 6 {
      HexEscape(c);
      ExpectIsSlice(content, at, e);
      assert content[at + 2..at + 6] == content[at..at + 6][2..6] == ['0', '0', HEX[c as int / 16], HEX[c as int % 16]];
    }
  }

  lemma {:induction false} UnescapePrinted(content: Text, at: nat, s: Text, end: nat)
    requires Expect(content, at, Escape(s)) && at + |Escape(s)| == end < |content|
    ensures Unescape(content, at, end) == Some(s)
    decreases |s|
  {
    if s != [] {
      var c, rest := s[0], s[1..];
      ExpectConcat(content, at, EscapeByte(c), Escape(rest));
      UnescapePrinted(content, at + |EscapeByte(c)|, rest, end);
      UnescapeByte(content, at, end, c);
      assert [c] + rest == s;
    }
  }

  /** A text, one byte and another text in a row. */
  lemma Row(content: Text, at: nat, a: Text, c: Byte, b: Text)
    ensures Expect(content, at, a + ([c] + b))
            <==> Expect(content, at, a) && at + |a| < |content| && content[at + |a|] == c
                 && Expect(content, at + |a| + 1, b)
  {
    ExpectConcat(content, at, a, [c] + b);
    ExpectConcat(content, at + |a|, [c], b);
    assert [c][1..] == [];
  }

  lemma Quoted(content: Text, at: nat, e: Text)
    requires Expect(content, at, ['\"'] + e + ['\"'])
    ensures at < |content| && content[at] == '\"' && Expect(content, at + 1, e + ['\"'])
  {
    assert ['\"'] + e + ['\"'] == [] + (['\"'] + (e + ['\"']));
    Row(content, at, [], '\"', e + ['\"']);
  }

  lemma StringRead(content: Text, at: nat, s: Text)
    requires Expect(content, at, Quote(s))
    ensures at < |content| && content[at] == '\"' && StringAt(content, at) == Some(Read(s, at + |Quote(s)|))
  {
    Quoted(content, at, Escape(s));
    ClosingRead(content, at + 1, s);
    StringIs(content, at, s, at + 1 + |Escape(s)|);
  }

  lemma StringIs(content: Text, at: nat, s: Text, end: nat)
    requires at < |content| && content[at] == '\"' && end < |content| && Closing(content, at + 1, at + 1) == Some(end)
    requires Unescape(content, at + 1, end) == Some(s)
    ensures StringAt(content, at) == Some(Read(s, end + 1))
  {
  }

  lemma ClosingRead(content: Text, begin: nat, s: Text)
    requires Expect(content, begin, Escape(s) + ['\"'])
    ensures begin + |Escape(s)| < |content| && Closing(content, begin, begin) == Some(begin + |Escape(s)|)
    ensures Unescape(content, begin, begin + |Escape(s)|) == Some(s)
  {
    PrintedCloses(content, begin, s);
    ClosingIs(content, begin, begin);
    ExpectConcat(content, begin, Escape(s), ['\"']);
    UnescapePrinted(content, begin, s, begin + |Escape(s)|);
  }

  // ---------- Numbers ----------

  /** No number goes on at that place. */
  predicate Stops(content: Text, k: nat)
  {
    k < |content| && !NumberByte(content[k])
  }

  lemma {:induction false} RunPrinted(content: Text, at: nat, t: Text, n: nat)
    requires Expect(content, at, t) && |t| <= n && Stops(content, at + |t|) && forall i :: 0 <= i < |t| ==>
        NumberByte(t[i])
    ensures Run(content, at, n) == t
    decreases |t|
  {
    if t != [] {
      ExpectAt(content, at, t, 0);
      assert t == [t[0]] + t[1..];
      ExpectConcat(content, at, [t[0]], t[1..]);
      RunPrinted(content, at + 1, t[1..], n - 1);
    }
  }

  lemma NumberRead(content: Text, at: nat, t: Text, strtod: Text -> nat)
    requires Expect(content, at, t) && NumberText(t, strtod) && Stops(content, at + |t|)
    ensures NumberAt(content, at, strtod) == Some(Read(Number(t), at + |t|))
    ensures content[at] == '-' || '0' <= content[at] <= '9'
  {
    RunPrinted(content, at, t, 63);
    ExpectAt(content, at, t, 0);
    assert t[..|t|] == t;
  }

  // ---------- Trees ----------

  lemma NoSkip(content: Text, at: nat)
    requires at < |content| && content[at] > ' '
    ensures Skip(content, at) == at
  {
  }

  lemma NoWord(content: Text, at: nat, word: Text)
    requires word != [] && at < |content| && content[at] != word[0]
    ensures !Expect(content, at, word)
  {
  }

  /** What is read of a printed value: the value, unless it is nested too deeply. */
  predicate ReadsBack(content: Text, at: nat, j: Json, depth: nat, strtod: Text -> nat)
    requires at <= |content|
  {
    ValueAt(content, at, depth, strtod) == Within(j, at + |Print(j)|, depth, Nesting(j))
  }

  lemma NoWords(content: Text, at: nat)
    requires at < |content| && content[at] != 'n' && content[at] != 'f' && content[at] != 't'
    ensures !Expect(content, at, "null") && !Expect(content, at, "false") && !Expect(content, at, "true")
  {
    NoWord(content, at, "null");
    NoWord(content, at, "false");
    NoWord(content, at, "true");
  }

  lemma WordRead(content: Text, at: nat, j: Json, depth: nat, strtod: Text -> nat)
    requires (j == Null || j == False || j == True) && Expect(content, at, Print(j)) && depth <= NESTING_LIMIT
    ensures ReadsBack(content, at, j, depth, strtod)
  {
    ExpectAt(content, at, Print(j), 0);
    if j != Null { NoWord(content, at, "null"); }
    if j == True { NoWord(content, at, "false"); }
  }

  lemma StringValueRead(content: Text, at: nat, s: Text, depth: nat, strtod: Text -> nat)
    requires Expect(content, at, Quote(s)) && depth <= NESTING_LIMIT
    ensures ReadsBack(content, at, String(s), depth, strtod)
  {
    StringRead(content, at, s);
    NoWords(content, at);
  }

  lemma NumberValueRead(content: Text, at: nat, t: Text, depth: nat, strtod: Text -> nat)
    requires Expect(content, at, t) && NumberText(t, strtod) && Stops(content, at + |t|) && depth <= NESTING_LIMIT
    ensures ReadsBack(content, at, Number(t), depth, strtod)
  {
    NumberRead(content, at, t, strtod);
    NoWords(content, at);
  }

  lemma {:induction false} ArrayValueRead(content: Text, at: nat, items: seq<Json>, depth: nat, strtod: Text -> nat)
    requires (forall i :: 0 <= i < |items| ==> Printable(items[i], strtod)) && depth <= NESTING_LIMIT
    requires Expect(content, at, Print(Array(items)))
    ensures ReadsBack(content, at, Array(items), depth, strtod)
    decreases items, 2
  {
    assert Print(Array(items)) == [] + (['['] + (PrintItems(items) + [']']));
    Row(content, at, [], '[', PrintItems(items) + [']']);
    ArrayRead(content, at, items, depth, strtod);
    NoWords(content, at);
  }

  lemma {:induction false} ObjectValueRead(content: Text, at: nat, members: seq<Member>, depth: nat,
      strtod: Text -> nat)
    requires (forall i :: 0 <= i < |members| ==> Printable(members[i].value, strtod)) && depth <= NESTING_LIMIT
    requires Expect(content, at, Print(Object(members)))
    ensures ReadsBack(content, at, Object(members), depth, strtod)
    decreases members, 2
  {
    assert Print(Object(members)) == [] + (['{'] + (PrintMembers(members) + ['}']));
    Row(content, at, [], '{', PrintMembers(members) + ['}']);
    ObjectRead(content, at, members, depth, strtod);
    NoWords(content, at);
  }

  lemma {:induction false} ValueRead(content: Text, at: nat, j: Json, depth: nat, strtod: Text -> nat)
    requires Printable(j, strtod) && Expect(content, at, Print(j)) && Stops(content, at + |Print(j)|)
        && depth <= NESTING_LIMIT
    ensures ReadsBack(content, at, j, depth, strtod)
    decreases j, 2
  {
    match j
    case Null => WordRead(content, at, j, depth, strtod);
    case False => WordRead(content, at, j, depth, strtod);
    case True => WordRead(content, at, j, depth, strtod);
    case Number(t) => NumberValueRead(content, at, t, depth, strtod);
    case String(s) => StringValueRead(content, at, s, depth, strtod);
    case Array(items) => ArrayValueRead(content, at, items, depth, strtod);
    case Object(members) => ObjectValueRead(content, at, members, depth, strtod);
  }

  lemma ValueStarts(content: Text, at: nat, j: Json, strtod: Text -> nat)
    requires Printable(j, strtod) && Expect(content, at, Print(j))
    ensures at < |content| && content[at] > ' ' && content[at] != ']' && content[at] != ',' && Skip(content, at) == at
  {
    FirstByte(j, strtod);
    ExpectAt(content, at, Print(j), 0);
    NoSkip(content, at);
  }

  lemma {:induction false} ArrayRead(content: Text, at: nat, items: seq<Json>, depth: nat, strtod: Text -> nat)
    requires (forall i :: 0 <= i < |items| ==> Printable(items[i], strtod)) && depth <= NESTING_LIMIT
    requires at < |content| && Expect(content, at + 1, PrintItems(items) + [']'])
    ensures ArrayAt(content, at, depth, strtod)
            == Within(Array(items), at + 2 + |PrintItems(items)|, depth, 1 + NestingOfItems(items))
    decreases items, 1
  {
    if items == [] {
      assert PrintItems(items) + [']'] == [']'];
      ExpectAt(content, at + 1, [']'], 0);
      NoSkip(content, at + 1);
    } else if depth < NESTING_LIMIT {
      ItemsRead(content, at, items, depth + 1, strtod, at + 1 + |PrintItems(items)|);
      NoSkip(content, at + 1);
    }
  }

  lemma PrintItemsNext(items: seq<Json>)
    requires |items| > 1
    ensures PrintItems(items) + [']'] == Print(items[0]) + ([','] + (PrintItems(items[1..]) + [']']))
    ensures |PrintItems(items)| == |Print(items[0])| + 1 + |PrintItems(items[1..])|
  {
  }

  /** Where the first element ends and what follows it. */
  lemma ItemsLayout(content: Text, at: nat, items: seq<Json>)
    requires items != [] && Expect(content, at, PrintItems(items) + [']'])
    ensures Expect(content, at, Print(items[0])) && at + |Print(items[0])| < |content|
    ensures var next := at + |Print(items[0])|;
            if |items| == 1 then content[next] == ']' && PrintItems(items) == Print(items[0])
            else content[next] == ',' && Expect(content, next + 1, PrintItems(items[1..]) + [']'])
                 && |PrintItems(items)| == |Print(items[0])| + 1 + |PrintItems(items[1..])|
  {
    if |items| == 1 {
      assert Print(items[0]) + [']'] == Print(items[0]) + ([']'] + []);
      Row(content, at, Print(items[0]), ']', []);
    } else {
      PrintItemsNext(items);
      Row(content, at, Print(items[0]), ',', PrintItems(items[1..]) + [']']);
    }
  }

  /** What is read of several values, unless one of them is nested too deeply. */
  function Within<T>(value: T, end: nat, depth: nat, nesting: nat): Option<Read<T>>
  {
    if depth + nesting <= NESTING_LIMIT then Some(Read(value, end)) else None
  }

  lemma LastItem(content: Text, at: nat, depth: nat, strtod: Text -> nat, items: seq<Json>, next: nat)
    requires at + 1 < |content| && Skip(content, at + 1) == at + 1 && next < |content| && content[next] > ' '
    requires |items| == 1 && content[next] != ','
    requires ValueAt(content, at + 1, depth, strtod) == Within(items[0], next, depth, Nesting(items[0]))
    ensures ItemsAt(content, at, depth, strtod) == Within(items, next, depth, NestingOfItems(items))
  {
    NoSkip(content, next);
    assert items == [items[0]];
  }

  lemma NextItem(content: Text, at: nat, depth: nat, strtod: Text -> nat, items: seq<Json>, next: nat, end: nat)
    requires at + 1 < |content| && Skip(content, at + 1) == at + 1 && next < |content| && content[next] == ','
    requires |items| > 1
    requires ValueAt(content, at + 1, depth, strtod) == Within(items[0], next, depth, Nesting(items[0]))
    requires ItemsAt(content, next, depth, strtod) == Within(items[1..], end, depth, NestingOfItems(items[1..]))
    ensures ItemsAt(content, at, depth, strtod) == Within(items, end, depth, NestingOfItems(items))
  {
    NoSkip(content, next);
    assert items == [items[0]] + items[1..];
  }

  lemma {:induction false} ItemsRead(content: Text, at: nat, items: seq<Json>, depth: nat, strtod: Text -> nat,
      end: nat)
    requires items != [] && (forall i :: 0 <= i < |items| ==> Printable(items[i], strtod)) && depth <= NESTING_LIMIT
    requires Expect(content, at + 1, PrintItems(items) + [']']) && end == at + 1 + |PrintItems(items)|
    ensures at + 1 < |content| && content[at + 1] > ' ' && content[at + 1] != ']' && end < |content|
        && content[end] == ']'
    ensures ItemsAt(content, at, depth, strtod) == Within(items, end, depth, NestingOfItems(items))
    decreases items, 0
  {
    hide Expect, PrintItems, NestingOfItems;
    var next := at + 1 + |Print(items[0])|;
    ItemsLayout(content, at + 1, items);
    ValueStarts(content, at + 1, items[0], strtod);
    ValueRead(content, at + 1, items[0], depth, strtod);
    if |items| > 1 {
      ItemsRead(content, next, items[1..], depth, strtod, end);
      NextItem(content, at, depth, strtod, items, next, end);
    } else {
      LastItem(content, at, depth, strtod, items, next);
    }
  }

  lemma {:induction false} ObjectRead(content: Text, at: nat, members: seq<Member>, depth: nat, strtod: Text -> nat)
    requires (forall i :: 0 <= i < |members| ==> Printable(members[i].value, strtod)) && depth <= NESTING_LIMIT
    requires at < |content| && Expect(content, at + 1, PrintMembers(members) + ['}'])
    ensures ObjectAt(content, at, depth, strtod)
            == Within(Object(members), at + 2 + |PrintMembers(members)|, depth, 1 + NestingOfMembers(members))
    decreases members, 1
  {
    hide Expect, MembersAt, Print, Quote;
    if members == [] {
      assert PrintMembers(members) + ['}'] == ['}'];
      ExpectAt(content, at + 1, ['}'], 0);
      NoSkip(content, at + 1);
    } else if depth < NESTING_LIMIT {
      MembersRead(content, at, members, depth + 1, strtod, at + 1 + |PrintMembers(members)|);
      NoSkip(content, at + 1);
    }
  }

  function PrintMember(m: Member): Text
  {
    Quote(m.name) + [':'] + Print(m.value)
  }

  /** Where the colon and the value of a member stand. */
  lemma MemberLayout(content: Text, at: nat, m: Member)
    requires Expect(content, at, PrintMember(m))
    ensures var colon := at + |Quote(m.name)|;
            && Expect(content, at, Quote(m.name)) && colon < |content| && content[colon] == ':'
            && Expect(content, colon + 1, Print(m.value)) && colon + 1 + |Print(m.value)| == at + |PrintMember(m)|
  {
    assert PrintMember(m) == Quote(m.name) + ([':'] + Print(m.value));
    Row(content, at, Quote(m.name), ':', Print(m.value));
  }

  lemma MemberName(content: Text, at: nat, m: Member) returns (colon: nat)
    requires Expect(content, at, PrintMember(m))
    ensures at < |content| && content[at] == '\"' && StringAt(content, at) == Some(Read(m.name, colon))
    ensures colon < |content| && content[colon] == ':' && Expect(content, colon + 1, Print(m.value))
    ensures colon + 1 + |Print(m.value)| == at + |PrintMember(m)|
  {
    colon := at + |Quote(m.name)|;
    MemberLayout(content, at, m);
    StringRead(content, at, m.name);
  }

  lemma {:induction false} MemberRead(content: Text, at: nat, m: Member, depth: nat, strtod: Text -> nat, next: nat)
    requires Printable(m.value, strtod) && Expect(content, at + 1, PrintMember(m)) && depth <= NESTING_LIMIT
    requires next == at + 1 + |PrintMember(m)| && Stops(content, next) && content[next] > ' '
    ensures content[at + 1] == '\"'
    ensures MemberAt(content, at, depth, strtod) == Within(m, next, depth, Nesting(m.value))
    decreases m, 3
  {
    var colon := MemberName(content, at + 1, m);
    ValueStarts(content, colon + 1, m.value, strtod);
    ValueRead(content, colon + 1, m.value, depth, strtod);
    NoSkip(content, next);
    MemberParts(content, at, depth, strtod, m, colon, next);
  }

  lemma MemberParts(content: Text, at: nat, depth: nat, strtod: Text -> nat, m: Member, colon: nat, next: nat)
    requires at + 1 < |content| && content[at + 1] == '\"' && StringAt(content, at + 1) == Some(Read(m.name, colon))
    requires colon + 1 < |content| && content[colon] == ':' && Skip(content, colon + 1) == colon + 1
    requires ValueAt(content, colon + 1, depth, strtod) == Within(m.value, next, depth, Nesting(m.value))
    requires next <= |content| && Skip(content, next) == next
    ensures MemberAt(content, at, depth, strtod) == Within(m, next, depth, Nesting(m.value))
  {
    NoSkip(content, at + 1);
    NoSkip(content, colon);
  }

  lemma PrintMembersNext(members: seq<Member>)
    requires |members| > 1
    ensures PrintMembers(members) + ['}'] == PrintMember(members[0]) + ([','] + (PrintMembers(members[1..]) + ['}']))
    ensures |PrintMembers(members)| == |PrintMember(members[0])| + 1 + |PrintMembers(members[1..])|
  {
  }

  lemma MembersLayout(content: Text, at: nat, members: seq<Member>)
    requires members != [] && Expect(content, at, PrintMembers(members) + ['}'])
    ensures Expect(content, at, PrintMember(members[0])) && at + |PrintMember(members[0])| < |content|
    ensures var next := at + |PrintMember(members[0])|;
            if |members| == 1 then content[next] == '}' && PrintMembers(members) == PrintMember(members[0])
            else content[next] == ',' && Expect(content, next + 1, PrintMembers(members[1..]) + ['}'])
                 && |PrintMembers(members)| == |PrintMember(members[0])| + 1 + |PrintMembers(members[1..])|
  {
    var first := PrintMember(members[0]);
    if |members| == 1 {
      assert first + ['}'] == first + (['}'] + []);
      Row(content, at, first, '}', []);
    } else {
      PrintMembersNext(members);
      Row(content, at, first, ',', PrintMembers(members[1..]) + ['}']);
    }
  }

  lemma LastMember(content: Text, at: nat, depth: nat, strtod: Text -> nat, members: seq<Member>, next: nat)
    requires at < |content| && next < |content| && |members| == 1 && content[next] != ','
    requires MemberAt(content, at, depth, strtod) == Within(members[0], next, depth, Nesting(members[0].value))
    ensures MembersAt(content, at, depth, strtod) == Within(members, next, depth, NestingOfMembers(members))
  {
    assert members == [members[0]] && NestingOfMembers(members[1..]) == 0;
  }

  lemma NextMember(content: Text, at: nat, depth: nat, strtod: Text -> nat, members: seq<Member>, next: nat, end: nat)
    requires at < |content| && next < |content| && |members| > 1 && content[next] == ','
    requires MemberAt(content, at, depth, strtod) == Within(members[0], next, depth, Nesting(members[0].value))
    requires MembersAt(content, next, depth, strtod) == Within(members[1..], end, depth, NestingOfMembers(members[1..]))
    ensures MembersAt(content, at, depth, strtod) == Within(members, end, depth, NestingOfMembers(members))
  {
    assert members == [members[0]] + members[1..];
  }

  lemma {:induction false} MembersRead(content: Text, at: nat, members: seq<Member>, depth: nat, strtod: Text -> nat,
      end: nat)
    requires members != [] && (forall i :: 0 <= i < |members| ==> Printable(members[i].value, strtod))
        && depth <= NESTING_LIMIT
    requires Expect(content, at + 1, PrintMembers(members) + ['}']) && end == at + 1 + |PrintMembers(members)|
    ensures at + 1 < |content| && content[at + 1] == '\"' && end < |content| && content[end] == '}'
    ensures MembersAt(content, at, depth, strtod) == Within(members, end, depth, NestingOfMembers(members))
    decreases members, 0
  {
    var next := at + 1 + |PrintMember(members[0])|;
    MembersLayout(content, at + 1, members);
    MemberRead(content, at, members[0], depth, strtod, next);
    if |members| > 1 {
      MembersRead(content, next, members[1..], depth, strtod, end);
      NextMember(content, at, depth, strtod, members, next, end);
    } else {
      LastMember(content, at, depth, strtod, members, next);
    }
  }

  // ---------- Whole texts ----------

  const BOM: Text := [0xEF as char, 0xBB as char, 0xBF as char]

  /** cJSON_ParseWithOpts without a demand on what follows the value. */
  function Parse(content: Text, strtod: Text -> nat): Option<Read<Json>>
  {
    var start := if |content| > 4 && content[..3] == BOM then 3 else 0;
    ValueAt(content, Skip(content, start), 0, strtod)
  }

  /** A printed tree, with the NUL that ends a C string, is parsed to the same tree, and the parser stops
      exactly behind it; this fails if and only if the tree is nested more than 1000 deep. */
  lemma RoundTrip(j: Json, strtod: Text -> nat)
    requires Printable(j, strtod)
    ensures Parse(Print(j) + ['\0'], strtod)
            == if Nesting(j) <= NESTING_LIMIT then Some(Read(j, |Print(j)|)) else None
  {
    var content := Print(j) + ['\0'];
    assert content[0..|Print(j)|] == Print(j);
    ExpectIsSlice(content, 0, Print(j));
    ValueRead(content, 0, j, 0, strtod);
    ValueStarts(content, 0, j, strtod);
    NoBom(j, strtod);
  }

  lemma NoBom(j: Json, strtod: Text -> nat)
    requires Printable(j, strtod)
    ensures |Print(j)| > 0 && Print(j)[0] != BOM[0]
  {
  }

  /** Different trees have different texts. */
  lemma PrintInjective(j: Json, k: Json, strtod: Text -> nat)
    requires Printable(j, strtod) && Printable(k, strtod) && Nesting(j) <= NESTING_LIMIT && Print(j) == Print(k)
    ensures j == k
  {
    RoundTrip(j, strtod);
    RoundTrip(k, strtod);
  }
}
