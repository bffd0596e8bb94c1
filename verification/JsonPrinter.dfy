/** The unformatted printer of src/json/cJSON.c and its growing buffer. */
module JsonPrinter {
  import opened JsonText
  import opened JsonString
  import opened JsonRoundTrip

  const INT_MAX: nat := 0x7FFF_FFFF

  lemma EscapeNext(s: Text, i: nat)
    requires i < |s|
    ensures Escape(s[..i + 1]) == Escape(s[..i]) + EscapeByte(s[i])
  {
    assert s[..i + 1] == s[..i] + [s[i]];
    EscapeConcat(s[..i], [s[i]]);
    assert [s[i]][1..] == [];
  }

  lemma NothingEscaped(s: Text)
    ensures Escape(s[..0]) == []
  {
  }

  lemma EscapePart(s: Text, i: nat)
    requires i <= |s|
    ensures |Escape(s[..i])| <= |Escape(s)|
  {
    assert s == s[..i] + s[i..];
    EscapeConcat(s[..i], s[i..]);
  }

  class Printer {
    var buffer: array<Byte>
    var offset: nat

    constructor ()
      ensures Valid() && offset == 0 && fresh(buffer)
    {
      buffer := new Byte[256];
      offset := 0;
    }

    ghost predicate Valid()
      reads this
    {
      offset < buffer.Length <= INT_MAX
    }

    /** The text is printed from that place on, with a NUL behind it; the offset may be anywhere in it. */
    ghost predicate Written(from: nat, text: Text)
      reads this, buffer
    {
      && from <= offset <= from + |text| < buffer.Length
      && buffer[from..from + |text|] == text && buffer[from + |text|] == '\0'
    }

    /** ensure: room for that many bytes and one more behind the offset, in the same buffer or in a bigger copy. */
    method Ensure(needed: nat) returns (ok: bool)
      requires Valid()
      modifies this
      ensures ok <==> offset + needed + 1 <= buffer.Length
      ensures offset + needed + 1 <= INT_MAX ==> ok
      ensures offset == old(offset) && Valid()
      ensures buffer == old(buffer) || (fresh(buffer) && buffer[..offset] == old(buffer[..offset]))
    {
      if needed > INT_MAX { return false; }
      var all := needed + offset + 1;
      if all <= buffer.Length { return true; }
      var size: nat := 0;
      if all > INT_MAX / 2 {
        if all <= INT_MAX { size := INT_MAX; } else { return false; }
      } else {
        size := all * 2;
      }
      var bigger := new Byte[size];
      for i := 0 to offset + 1
        invariant Valid() && buffer == old(buffer) && offset == old(offset) && bigger.Length == size > offset + needed
        invariant bigger[..i] == buffer[..i]
      {
        bigger[i] := buffer[i];
      }
      assert bigger[..offset] == bigger[..offset + 1][..offset] == buffer[..offset];
      buffer := bigger;
      ok := true;
    }
  
    /** strcpy at the offset. */
    method Copy(text: Text)
      requires Valid() && offset + |text| < buffer.Length
      modifies buffer
      ensures buffer[..offset] == old(buffer[..offset]) && Written(offset, text)
    {
      for i := 0 to |text|
        invariant buffer[..offset] == old(buffer[..offset]) && buffer[offset..offset + i] == text[..i]
      {
        buffer[offset + i] := text[i];
        assert text[..i + 1] == text[..i] + [text[i]];
        assert buffer[offset..offset + i + 1] == buffer[offset..offset + i] + [text[i]];
      }
      assert text[..|text|] == text;
      buffer[offset + |text|] := '\0';
      assert buffer[offset..offset + |text|] == text;
    }

    /** The first loop of print_string_ptr: the additional characters needed for escaping. */
    method EscapeCharacters(input: Text) returns (n: nat)
      ensures |input| + n == |Escape(input)|
    {
      n := 0;
      assert input[..0] == [];
      for i := 0 to |input|
        invariant i + n == |Escape(input[..i])|
      {
        EscapeNext(input, i);
        if Letter(input[i]) != 'u' {
          n := n + 1;
        } else if input[i] < ' ' {
          n := n + 5;
        }
      }
      assert input[..|input|] == input;
    }

    /** print_string_ptr: the escaped string between quotes, at the offset, which stays. */
    method PrintString(input: Text) returns (ok: bool)
      requires Valid() && NulFree(input)
      modifies this, buffer
      ensures Valid() && offset == old(offset) && (buffer == old(buffer) || fresh(buffer))
      ensures offset + |Quote(input)| + 2 <= INT_MAX ==> ok
      ensures ok ==> buffer[..offset] == old(buffer[..offset]) && Written(offset, Quote(input))
    {
      var escapes := EscapeCharacters(input);
      var outputLength := |input| + escapes;
      ok := Ensure(outputLength + 3);
      if !ok { return; }
      if escapes == 0 {
        NoEscapes(input);
        Copy(['\"'] + input + ['\"']);
        return;
      }
      WriteQuoted(input, outputLength);
    }

    /** The escaped string between its quotes, whose places are computed beforehand. */
    method WriteQuoted(input: Text, outputLength: nat)
      requires Valid() && outputLength == |Escape(input)| && offset + outputLength + 3 < buffer.Length
      modifies buffer
      ensures buffer[..offset] == old(buffer[..offset]) && Written(offset, Quote(input))
    {
      ghost var start := buffer[..offset];
      buffer[offset] := '\"';
      ghost var before := buffer[..offset + 1];
      assert before == start + ['\"'];
      WriteEscaped(input);
      ghost var b := buffer[..];
      assert b[..offset] == b[..offset + 1][..offset] && b[offset] == b[..offset + 1][offset];
      buffer[offset + outputLength + 1] := '\"';
      buffer[offset + outputLength + 2] := '\0';
      assert buffer[offset + 1..offset + 1 + outputLength] == b[offset + 1..offset + 1 + outputLength];
      QuotedSlice(buffer[..], offset, input);
    }

    /** What the second loop of print_string_ptr has written behind the opening quote. */
    ghost predicate Escaped(before: Text, done: Text)
      reads this, buffer
    {
      |before| + |done| <= buffer.Length && buffer[..|before|] == before
      && buffer[|before|..|before| + |done|] == done
    }

    /** The second loop of print_string_ptr. */
    method WriteEscaped(input: Text)
      requires Valid() && offset + |Escape(input)| + 3 < buffer.Length
      modifies buffer
      ensures Escaped(old(buffer[..offset + 1]), Escape(input))
    {
      ghost var before := buffer[..offset + 1];
      var output := offset + 1;
      NothingEscaped(input);
      for i := 0 to |input|
        invariant output == offset + 1 + |Escape(input[..i])| && Escaped(before, Escape(input[..i]))
      {
        EscapeNext(input, i);
        EscapePart(input, i + 1);
        output := WriteNext(input[i], output, before, Escape(input[..i]));
      }
      assert input[..|input|] == input;
    }

    /** One more character behind what is written. */
    method WriteNext(c: Byte, output: nat, ghost before: Text, ghost done: Text) returns (next: nat)
      requires Escaped(before, done) && output == |before| + |done| && output + |EscapeByte(c)| < buffer.Length
      modifies buffer
      ensures Escaped(before, done + EscapeByte(c)) && next == output + |EscapeByte(c)|
    {
      ghost var b := buffer[..];
      WriteByte(c, output);
      next := output + |EscapeByte(c)|;
      SliceAppend(b, buffer[..], |before|, output, EscapeByte(c));
    }

    /** One character, copied or escaped; sprintf ends its text with a NUL that the next byte overwrites. */
    method WriteByte(c: Byte, at: nat)
      requires at + |EscapeByte(c)| < buffer.Length
      modifies buffer
      ensures buffer[..at] == old(buffer[..at]) && buffer[at..at + |EscapeByte(c)|] == EscapeByte(c)
    {
      if c >= ' ' && c != '\"' && c != '\\' {
        buffer[at] := c;
      } else {
        buffer[at] := '\\';
        if Letter(c) != 'u' {
          buffer[at + 1] := Letter(c);
        } else {
          buffer[at + 1] := 'u';
          buffer[at + 2], buffer[at + 3] := '0', '0';
          buffer[at + 4], buffer[at + 5] := HEX[c as int / 16], HEX[c as int % 16];
          buffer[at + 6] := '\0';
        }
      }
    }

    /** update_offset: to the NUL that ends what was printed. */
    method UpdateOffset(ghost from: nat, ghost text: Text)
      requires Valid() && Written(from, text) && NulFree(text)
      modifies `offset
      ensures Valid() && offset == from + |text|
    {
      while buffer[offset] != '\0'
        invariant from <= offset <= from + |text| && Written(from, text)
        decreases from + |text| - offset
      {
        offset := offset + 1;
      }
    }

    /** print_value: the text of the value behind the offset; it fails only when the text is too long. */
    method PrintValue(j: Json, ghost strtod: Text -> nat) returns (ok: bool)
      requires Valid() && Printable(j, strtod)
      modifies this, buffer
      ensures Valid() && (buffer == old(buffer) || fresh(buffer))
      ensures old(offset) + |Print(j)| + 2 <= INT_MAX ==> ok
      ensures ok ==> Written(old(offset), Print(j)) && buffer[..old(offset)] == old(buffer[..offset])
      decreases j, 1
    {
      match j
      case Null => ok := PrintWord("null");
      case False => ok := PrintWord("false");
      case True => ok := PrintWord("true");
      case Number(token) => ok := PrintNumber(token);
      case String(s) => ok := PrintString(s);
      case Array(items) => ok := PrintArray(items, strtod);
      case Object(members) => ok := PrintObject(members, strtod);
    }

    method PrintWord(word: Text) returns (ok: bool)
      requires Valid()
      modifies this, buffer
      ensures Valid() && (buffer == old(buffer) || fresh(buffer))
      ensures old(offset) + |word| + 2 <= INT_MAX ==> ok
      ensures ok ==> Written(old(offset), word) && buffer[..old(offset)] == old(buffer[..offset])
    {
      ok := Ensure(|word| + 1);
      if ok { Copy(word); }
    }

    /** print_number, which moves the offset itself. */
    method PrintNumber(token: Text) returns (ok: bool)
      requires Valid()
      modifies this, buffer
      ensures Valid() && (buffer == old(buffer) || fresh(buffer))
      ensures old(offset) + |token| + 2 <= INT_MAX ==> ok
      ensures ok ==> Written(old(offset), token) && buffer[..old(offset)] == old(buffer[..offset])
    {
      ok := Ensure(|token| + 1);
      if ok {
        Copy(token);
        offset := offset + |token|;
      }
    }

    /** What is printed from that place on, up to the offset. */
    ghost predicate Holds(before: Text, text: Text)
      reads this, buffer
    {
      Valid() && offset == |before| + |text| && buffer[..offset] == before + text
    }

    /** A value and update_offset. */
    method AppendValue(j: Json, ghost strtod: Text -> nat, ghost before: Text, ghost done: Text) returns (ok: bool)
      requires Holds(before, done) && Printable(j, strtod)
      modifies this, buffer
      ensures buffer == old(buffer) || fresh(buffer)
      ensures old(offset) + |Print(j)| + 2 <= INT_MAX ==> ok
      ensures ok ==> Holds(before, done + Print(j))
      ensures Valid()
      decreases j, 2
    {
      ghost var at := offset;
      ok := PrintValue(j, strtod);
      if !ok { return; }
      PrintNulFree(j, strtod);
      UpdateOffset(at, Print(j));
      Joined(buffer, at, offset);
      assert before + done + Print(j) == before + (done + Print(j));
    }

    method AppendString(s: Text, ghost before: Text, ghost done: Text) returns (ok: bool)
      requires Holds(before, done) && NulFree(s)
      modifies this, buffer
      ensures buffer == old(buffer) || fresh(buffer)
      ensures old(offset) + |Quote(s)| + 2 <= INT_MAX ==> ok
      ensures ok ==> Holds(before, done + Quote(s))
      ensures Valid()
    {
      ghost var at := offset;
      ok := PrintString(s);
      if !ok { return; }
      QuoteNulFree(s);
      UpdateOffset(at, Quote(s));
      Joined(buffer, at, offset);
      assert before + done + Quote(s) == before + (done + Quote(s));
    }

    /** A separator, with room for the given number of bytes. */
    method AppendByte(c: Byte, needed: nat, ghost before: Text, ghost done: Text) returns (ok: bool)
      requires Holds(before, done) && 1 <= needed <= 2
      modifies this, buffer
      ensures buffer == old(buffer) || fresh(buffer)
      ensures old(offset) + needed + 1 <= INT_MAX ==> ok
      ensures ok ==> Holds(before, done + [c])
      ensures Valid()
    {
      ok := Ensure(needed);
      if !ok { return; }
      ghost var b := buffer[..];
      buffer[offset] := c;
      if needed == 2 { buffer[offset + 1] := '\0'; }
      offset := offset + 1;
      assert buffer[..offset] == b[..offset - 1] + [c];
      assert before + done + [c] == before + (done + [c]);
    }

    /** The closing bracket and a NUL; the offset stays in front of it. */
    method Close(c: Byte, ghost before: Text, ghost done: Text) returns (ok: bool)
      requires Holds(before, done)
      modifies this, buffer
      ensures Valid() && (buffer == old(buffer) || fresh(buffer))
      ensures old(offset) + 3 <= INT_MAX ==> ok
      ensures ok ==> |before| <= offset && buffer[..|before|] == before && Written(|before|, done + [c])
    {
      ok := Ensure(2);
      if !ok { return; }
      ghost var b := buffer[..];
      buffer[offset] := c;
      buffer[offset + 1] := '\0';
      assert buffer[..offset] == b[..offset] == before + done;
      ClosedSlice(buffer[..], before, done, c);
    }

    /** print_array. */
    method PrintArray(items: seq<Json>, ghost strtod: Text -> nat) returns (ok: bool)
      requires Valid() && forall i :: 0 <= i < |items| ==> Printable(items[i], strtod)
      modifies this, buffer
      ensures Valid() && (buffer == old(buffer) || fresh(buffer))
      ensures old(offset) + |Print(Array(items))| + 2 <= INT_MAX ==> ok
      ensures ok ==> Written(old(offset), Print(Array(items))) && buffer[..old(offset)] == old(buffer[..offset])
      decreases items, 1
    {
      ghost var before := buffer[..offset];
      ok := AppendByte('[', 1, before, []);
      if !ok { return; }
      assert [] + ['['] == ['['];
      ok := AppendItems(items, strtod, before);
      if !ok { return; }
      ok := Close(']', before, ['['] + PrintItems(items));
    }

    method AppendItems(items: seq<Json>, ghost strtod: Text -> nat, ghost before: Text) returns (ok: bool)
      requires Holds(before, ['[']) && forall i :: 0 <= i < |items| ==> Printable(items[i], strtod)
      modifies this, buffer
      ensures Valid() && (buffer == old(buffer) || fresh(buffer))
      ensures old(offset) + |PrintItems(items)| + 2 <= INT_MAX ==> ok
      ensures ok ==> Holds(before, ['['] + PrintItems(items))
      decreases items, 0
    {
      hide Print, Printable, Quote;
      ghost var all := ['['] + PrintItems(items);
      ghost var done: Text := ['['];
      ok := true;
      assert items[0..] == items;
      for k := 0 to |items|
        invariant Holds(before, done) && (buffer == old(buffer) || fresh(buffer)) && ok
        invariant done + PrintItems(items[k..]) == all
      {
        ItemsSplit(done, items, k, all);
        ok := AppendValue(items[k], strtod, before, done);
        if !ok { return; }
        done := done + Print(items[k]);
        if k + 1 < |items| {
          ok := AppendByte(',', 2, before, done);
          if !ok { return; }
          done := done + [','];
        }
      }
      assert PrintItems(items[|items|..]) == [] && done == all;
    }

    /** print_object. */
    method PrintObject(members: seq<Member>, ghost strtod: Text -> nat) returns (ok: bool)
      requires Valid() && Printable(Object(members), strtod)
      modifies this, buffer
      ensures Valid() && (buffer == old(buffer) || fresh(buffer))
      ensures old(offset) + |Print(Object(members))| + 2 <= INT_MAX ==> ok
      ensures ok ==> Written(old(offset), Print(Object(members))) && buffer[..old(offset)] == old(buffer[..offset])
      decreases members, 1
    {
      ghost var before := buffer[..offset];
      ok := AppendByte('{', 2, before, []);
      if !ok { return; }
      assert [] + ['{'] == ['{'];
      ok := AppendMembers(members, strtod, before);
      if !ok { return; }
      ok := Close('}', before, ['{'] + PrintMembers(members));
    }

    method AppendMembers(members: seq<Member>, ghost strtod: Text -> nat, ghost before: Text) returns (ok: bool)
      requires Holds(before, ['{'])
      requires forall i :: 0 <= i < |members| ==> NulFree(members[i].name) && Printable(members[i].value, strtod)
      modifies this, buffer
      ensures Valid() && (buffer == old(buffer) || fresh(buffer))
      ensures old(offset) + |PrintMembers(members)| + 2 <= INT_MAX ==> ok
      ensures ok ==> Holds(before, ['{'] + PrintMembers(members))
      decreases members, 0
    {
      hide Print, PrintMember, Printable, Quote, NulFree;
      ghost var all := ['{'] + PrintMembers(members);
      ghost var done: Text := ['{'];
      ok := true;
      assert members[0..] == members;
      for k := 0 to |members|
        invariant Holds(before, done) && (buffer == old(buffer) || fresh(buffer)) && ok
        invariant done + PrintMembers(members[k..]) == all
      {
        MembersSplit(done, members, k, all);
        ok := AppendMember(members[k], strtod, before, done);
        if !ok { return; }
        done := done + PrintMember(members[k]);
        if k + 1 < |members| {
          ok := AppendByte(',', 2, before, done);
          if !ok { return; }
          done := done + [','];
        }
      }
      assert PrintMembers(members[|members|..]) == [] && done == all;
    }

    /** The key, a colon and the value. */
    method AppendMember(m: Member, ghost strtod: Text -> nat, ghost before: Text, ghost done: Text) returns (ok: bool)
      requires Holds(before, done) && NulFree(m.name) && Printable(m.value, strtod)
      modifies this, buffer
      ensures buffer == old(buffer) || fresh(buffer)
      ensures old(offset) + |PrintMember(m)| + 2 <= INT_MAX ==> ok
      ensures ok ==> Holds(before, done + PrintMember(m))
      ensures Valid()
      decreases m, 3
    {
      ok := AppendString(m.name, before, done);
      if !ok { return; }
      ok := AppendByte(':', 1, before, done + Quote(m.name));
      if !ok { return; }
      ok := AppendValue(m.value, strtod, before, done + Quote(m.name) + [':']);
      assert done + PrintMember(m) == done + Quote(m.name) + [':'] + Print(m.value);
    }
  }

  /** cJSON_PrintUnformatted. */
  method PrintUnformatted(j: Json, ghost strtod: Text -> nat) returns (ok: bool, text: Text)
    requires Printable(j, strtod)
    ensures |Print(j)| + 2 <= INT_MAX ==> ok
    ensures ok ==> text == Print(j)
  {
    var p := new Printer();
    text := [];
    ok := p.PrintValue(j, strtod);
    if ok {
      PrintNulFree(j, strtod);
      p.UpdateOffset(0, Print(j));
      text := p.buffer[..p.offset];
    }
  }

  lemma SliceAppend(b: Text, b': Text, from: nat, at: nat, piece: Text)
    requires |b| == |b'| && from <= at && at + |piece| <= |b| && b'[..at] == b[..at] && b'[at..at + |piece|] == piece
    ensures b'[from..at + |piece|] == b[from..at] + piece && b'[..from] == b[..from]
  {
    assert b'[from..at] == b'[..at][from..] == b[from..at];
    assert b'[..from] == b'[..at][..from] == b[..from];
  }

  lemma {:induction false} NoEscapes(s: Text)
    requires |Escape(s)| == |s|
    ensures Escape(s) == s
    decreases |s|
  {
    if s != [] {
      EscapeLonger(s[1..]);
      NoEscapes(s[1..]);
      assert s == [s[0]] + s[1..];
    }
  }

  lemma {:induction false} EscapeLonger(s: Text)
    ensures |Escape(s)| >= |s|
    decreases |s|
  {
    if s != [] { EscapeLonger(s[1..]); }
  }

  lemma QuotedSlice(b: Text, at: nat, s: Text)
    requires at + |Escape(s)| + 2 <= |b| && b[at] == '\"' && b[at + 1..at + 1 + |Escape(s)|] == Escape(s)
    requires b[at + |Escape(s)| + 1] == '\"'
    ensures b[at..at + |Quote(s)|] == Quote(s)
  {
  }

  lemma Joined(b: array<Byte>, i: nat, n: nat)
    requires i <= n <= b.Length
    ensures b[..n] == b[..i] + b[i..n]
  {
  }

  lemma ItemsSplit(done: Text, items: seq<Json>, k: nat, all: Text)
    requires k < |items| && done + PrintItems(items[k..]) == all
    ensures all == if k == |items| - 1 then done + Print(items[k])
                   else (done + Print(items[k]) + [',']) + PrintItems(items[k + 1..])
  {
    var rest := items[k..];
    assert rest[0] == items[k] && rest[1..] == items[k + 1..];
  }

  lemma MembersSplit(done: Text, members: seq<Member>, k: nat, all: Text)
    requires k < |members| && done + PrintMembers(members[k..]) == all
    ensures all == if k == |members| - 1 then done + PrintMember(members[k])
                   else (done + PrintMember(members[k]) + [',']) + PrintMembers(members[k + 1..])
  {
    var rest := members[k..];
    assert rest[0] == members[k] && rest[1..] == members[k + 1..];
  }

  lemma ClosedSlice(b: Text, before: Text, done: Text, c: Byte)
    requires |before| + |done| < |b| && b[..|before| + |done|] == before + done && b[|before| + |done|] == c
    ensures b[..|before|] == before && b[|before|..|before| + |done| + 1] == done + [c]
  {
    var t := b[..|before| + |done|];
    assert t[..|before|] == before && t[|before|..] == done;
  }

  // ---------- No NUL is printed ----------

  lemma {:induction false} EscapeNulFree(s: Text)
    ensures NulFree(Escape(s))
    decreases |s|
  {
    if s != [] {
      EscapeNulFree(s[1..]);
      HexNoNul(s[0] as int / 16);
      HexNoNul(s[0] as int % 16);
    }
  }

  lemma HexNoNul(n: nat)
    requires n < 16
    ensures HEX[n] != '\0'
  {
  }

  lemma QuoteNulFree(s: Text)
    ensures NulFree(Quote(s))
  {
    EscapeNulFree(s);
  }

  lemma {:induction false} PrintNulFree(j: Json, strtod: Text -> nat)
    requires Printable(j, strtod)
    ensures NulFree(Print(j))
    decreases j, 1
  {
    match j
    case String(s) => QuoteNulFree(s);
    case Array(items) => ItemsNulFree(items, strtod);
    case Object(members) => MembersNulFree(members, strtod);
    case _ =>
  }

  lemma {:induction false} ItemsNulFree(items: seq<Json>, strtod: Text -> nat)
    requires forall i :: 0 <= i < |items| ==> Printable(items[i], strtod)
    ensures NulFree(PrintItems(items))
    decreases items, 0
  {
    if items != [] {
      PrintNulFree(items[0], strtod);
      if |items| > 1 { ItemsNulFree(items[1..], strtod); }
    }
  }

  lemma {:induction false} MembersNulFree(members: seq<Member>, strtod: Text -> nat)
    requires forall i :: 0 <= i < |members| ==> Printable(members[i].value, strtod)
    ensures NulFree(PrintMembers(members))
    decreases members, 0
  {
    if members != [] {
      QuoteNulFree(members[0].name);
      PrintNulFree(members[0].value, strtod);
      if |members| > 1 { MembersNulFree(members[1..], strtod); }
    }
  }
}
