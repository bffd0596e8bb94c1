/** The parser of src/json/cJSON.c as it advances through its buffer. */
module JsonParser {
  import opened Options
  import opened JsonText
  import opened JsonString
  import opened JsonScan
  import opened JsonGrammar
  import opened JsonRoundTrip

  /** The output so far and the rest of the string together are the whole string. */
  lemma BudgetFits(content: Text, begin: nat, p: nat, end: nat, n: nat)
    requires begin <= p && p + 2 * n <= end <= |content|
    ensures Budget(content, begin, p) + n <= Budget(content, begin, end)
  {
    BudgetOfPairs(content, begin, p, n);
    BudgetMonotone(content, begin, p + 2 * n, end);
  }

  /** A backslash in front of the closing quote belongs to an escape sequence and needs a byte of its own. */
  lemma LastBackslash(content: Text, begin: nat, end: nat)
    requires begin < end < |content| && Between(content, begin, end)
    ensures Budget(content, begin, end) == Budget(content, begin, end - 1) + 1
  {
  }

  class Parser {
    const content: Text
    const strtod: Text -> nat
    var offset: nat
    var depth: nat

    constructor (content: Text, strtod: Text -> nat)
      requires Terminated(content)
      ensures Valid() && this.content == content && this.strtod == strtod && offset == 0 && depth == 0
    {
      this.content, this.strtod, offset, depth := content, strtod, 0, 0;
    }

    ghost predicate Valid()
      reads this
    {
      Terminated(content) && offset < |content|
    }

    /** buffer_skip_whitespace. */
    method SkipWhitespace()
      requires offset <= |content|
      modifies `offset
      ensures offset == Skip(content, old(offset))
    {
      if offset >= |content| { return; }
      while offset < |content| && content[offset] <= ' '
        invariant offset <= |content| && Blanks(content, old(offset)) == Blanks(content, offset)
      {
        offset := offset + 1;
      }
      if offset == |content| { offset := offset - 1; }
    }

    /** cJSON_ParseWithOpts: byte order mark, white space and one value. */
    method ParseText() returns (ok: bool, item: Json)
      requires Valid() && offset == 0 && depth == 0
      modifies this
      ensures var r := Parse(content, strtod);
              ok == r.Some? && (ok ==> item == r.value.value && offset == r.value.end)
    {
      if |content| > 4 && content[..3] == BOM { offset := 3; }
      SkipWhitespace();
      ok, item := ParseValue();
    }

    /** The first loop of parse_string: the end of the string and the number of escape sequences. */
    method FindEnd() returns (ok: bool, end: nat, skipped: nat)
      requires Valid()
      ensures ok <==> Closing(content, offset + 1, offset + 1).Some?
      ensures ok ==> Closing(content, offset + 1, offset + 1) == Some(end) && ClosesAt(content, offset + 1, end)
      ensures ok ==> skipped == end - (offset + 1) - Budget(content, offset + 1, end)
    {
      ghost var begin := offset + 1;
      end, skipped, ok := offset + 1, 0, false;
      while end < |content| && content[end] != '\"'
        invariant begin <= end <= |content| && Between(content, begin, end)
        invariant skipped == end - begin - Budget(content, begin, end)
        invariant Closing(content, begin, begin) == Closing(content, begin, end) && NoQuote(content, begin, end)
      {
        if content[end] == '\\' {
          if end + 1 >= |content| { return; }
          skipped := skipped + 1;
          end := end + 1;
        }
        end := end + 1;
      }
      ok := end < |content|;
      ClosingIs(content, begin, end);
    }

    /** parse_string: exactly the string that starts here; all bytes are written inside the estimate. */
    method ParseString() returns (ok: bool, s: Text)
      requires Valid()
      modifies `offset
      ensures var r := StringAt(content, old(offset));
              ok == r.Some? && (ok ==> Valid() && s == r.value.value && offset == r.value.end)
      ensures offset <= |content|
    {
      ghost var at := offset;
      s := [];
      if content[offset] != '\"' {
        offset := offset + 1;
        return false, s;
      }
      var end, skipped;
      ok, end, skipped := FindEnd();
      if !ok {
        offset := offset + 1;
        return;
      }
      var allocationLength := end - offset - skipped;
      var output := new Byte[allocationLength + 1];
      var p, o;
      ok, p, o := UnescapeInto(offset + 1, end, output);
      if !ok {
        offset := p;
        return;
      }
      output[o] := '\0';
      s := output[..o];
      offset := end + 1;
    }

    /** The second loop of parse_string. */
    method UnescapeInto(begin: nat, end: nat, output: array<Byte>) returns (ok: bool, p: nat, o: nat)
      requires Terminated(content) && ClosesAt(content, begin, end) && output.Length >= Budget(content, begin, end) + 1
      modifies output
      ensures ok == Unescape(content, begin, end).Some? && p <= |content|
      ensures ok ==> o < output.Length && output[..o] == Unescape(content, begin, end).value
    {
      p, o, ok := begin, 0, true;
      BeforeNothing(Unescape(content, begin, end));
      BudgetMonotone(content, begin, begin, end);
      assert output[..0] == [];
      while p < end
        invariant begin <= p <= end + 1 && o <= Budget(content, begin, if p < end then p else end) <= Budget(content,
            begin, end)
        invariant Unescape(content, begin, end) == Before(output[..o], Unescape(content, p, end))
      {
        ghost var done := output[..o];
        if content[p] != '\\' {
          BudgetFits(content, begin, p + 1, end, 0);
          output[o] := content[p];
          assert output[..o + 1] == done + [content[p]];
          BeforeBefore(done, [content[p]], Unescape(content, p + 1, end));
          BudgetMonotone(content, begin, p + 1, end);
          p, o := p + 1, o + 1;
        } else {
          ghost var o0 := o;
          ok, p, o := UnescapeOne(begin, end, output, p, o);
          if !ok { return; }
          assert output[..o] == done + output[o0..o];
          BeforeBefore(done, output[o0..o], Unescape(content, p, end));
        }
      }
      BeforeDone(output[..o]);
    }

    /** One escape sequence. */
    method UnescapeOne(begin: nat, end: nat, output: array<Byte>, p: nat, o: nat) returns (ok: bool, p': nat, o': nat)
      requires begin <= p < end < |content| && content[p] == '\\' && Between(content, begin, end)
      requires o <= Budget(content, begin, p) <= Budget(content, begin, end)
          && output.Length >= Budget(content, begin, end) + 1
      modifies output
      ensures p' <= |content|
      ensures !ok ==> Unescape(content, p, end) == None
      ensures ok ==> p < p' <= end + 1
      ensures ok ==> o <= o' <= Budget(content, begin, if p' < end then p' else end) <= Budget(content, begin, end)
      ensures ok ==> output[..o] == old(output[..o])
                     && Unescape(content, p, end) == Before(output[o..o'], Unescape(content, p', end))
    {
      p', o', ok := p, o, false;
      if content[p + 1] == 'u' {
        LiteralFits(content, begin, p, end, o);
        var sequence, written := Utf16ToUtf8(content, p, end, output, o);
        if sequence == 0 { return; }
        assert output[..o] == old(output[..o]);
        return true, p + sequence, o + written;
      }
      var c := Unletter(content[p + 1]);
      if c == None { return; }
      if p + 2 <= end { BudgetFits(content, begin, p, p + 2, 1); } else { LastBackslash(content, begin, end); }
      if p + 2 <= end { BudgetMonotone(content, begin, p + 2, end); }
      output[o] := c.value;
      assert output[o..o + 1] == [c.value];
      assert output[..o] == old(output[..o]);
      p', o', ok := p + 2, o + 1, true;
    }

    /** The copy of at most 63 bytes that a number can be made of. */
    method CopyNumber(number: array<Byte>) returns (i: nat)
      requires Valid() && number.Length == 64
      modifies number
      ensures i < 64 && offset + i < |content| && number[..i] == Run(content, offset, 63)
    {
      i := 0;
      assert number[..0] == [];
      while i < 63 && offset + i < |content|
        invariant i <= 63 && offset + i < |content|
        invariant Run(content, offset, 63) == number[..i] + Run(content, offset + i, 63 - i)
      {
        if !NumberByte(content[offset + i]) { break; }
        ghost var done := number[..i];
        number[i] := content[offset + i];
        RunNext(Run(content, offset, 63), done, content, offset + i, 63 - i);
        assert number[..i + 1] == done + [content[offset + i]];
        i := i + 1;
      }
      assert number[..i] + [] == number[..i];
    }

    /** parse_number. */
    method ParseNumber() returns (ok: bool, item: Json)
      requires Valid()
      modifies `offset
      ensures var r := NumberAt(content, old(offset), strtod);
              ok == r.Some? && (ok ==> Valid() && item == r.value.value && offset == r.value.end)
      ensures offset <= |content|
    {
      var number := new Byte[64];
      var i := CopyNumber(number);
      number[i] := '\0';
      var length := Converted(strtod, number[..i]);
      item := Number(number[..length]);
      if length == 0 { return false, item; }
      assert number[..length] == Run(content, offset, 63)[..length];
      offset := offset + length;
      ok := true;
    }

    /** parse_value: exactly the value that starts here, without a step outside the buffer. */
    method ParseValue() returns (ok: bool, item: Json)
      requires Valid() && depth <= NESTING_LIMIT
      modifies this
      ensures var r := ValueAt(content, old(offset), old(depth), strtod);
              ok == r.Some? && (ok ==> Valid() && item == r.value.value && offset == r.value.end && depth == old(depth))
      ensures offset <= |content|
      decreases |content| - offset, 4
    {
      if Expect(content, offset, "null") {
        EndsBefore(content, offset, "null");
        offset := offset + 4;
        return true, Null;
      }
      if Expect(content, offset, "false") {
        EndsBefore(content, offset, "false");
        offset := offset + 5;
        return true, False;
      }
      if Expect(content, offset, "true") {
        EndsBefore(content, offset, "true");
        offset := offset + 4;
        return true, True;
      }
      if content[offset] == '\"' {
        var s;
        ok, s := ParseString();
        return ok, String(s);
      }
      if content[offset] == '-' || '0' <= content[offset] <= '9' {
        ok, item := ParseNumber();
        return;
      }
      if content[offset] == '[' {
        ok, item := ParseArray();
        return;
      }
      if content[offset] == '{' {
        ok, item := ParseObject();
        return;
      }
      return false, Null;
    }

    /** parse_array. */
    method ParseArray() returns (ok: bool, item: Json)
      requires Valid() && depth <= NESTING_LIMIT && content[offset] == '['
      modifies this
      ensures var r := ArrayAt(content, old(offset), old(depth), strtod);
              ok == r.Some? && (ok ==> Valid() && item == r.value.value && offset == r.value.end && depth == old(depth))
      ensures offset <= |content|
      decreases |content| - offset, 3
    {
      ok, item := false, Null;
      if depth >= NESTING_LIMIT { return; }
      depth := depth + 1;
      offset := offset + 1;
      SkipWhitespace();
      ok, item := ParseArrayFrom();
      if ok { depth := depth - 1; }
    }

    /** The part of parse_array behind the opening bracket and white space. */
    method ParseArrayFrom() returns (ok: bool, item: Json)
      requires Valid() && 0 < offset && depth <= NESTING_LIMIT
      modifies this
      ensures var r := ArrayFrom(content, old(offset), old(depth), strtod);
              ok == r.Some? && (ok ==> Valid() && item == r.value.value && offset == r.value.end && depth == old(depth))
      ensures offset <= |content|
      decreases |content| - offset + 1, 2
    {
      var items: seq<Json> := [];
      if content[offset] != ']' {
        offset := offset - 1;
        ok, items := ParseItems();
        if !ok { return false, Null; }
        if content[offset] != ']' { return false, Null; }
      }
      offset := offset + 1;
      return true, Array(items);
    }

    /** The loop of parse_array, from the byte in front of the first element. */
    method ParseItems() returns (ok: bool, items: seq<Json>)
      requires offset + 1 < |content| && Terminated(content) && depth <= NESTING_LIMIT
      modifies this
      ensures var r := ItemsAt(content, old(offset), old(depth), strtod);
              ok == r.Some? && (ok ==> Valid() && items == r.value.value && offset == r.value.end
                                       && depth == old(depth))
      ensures offset <= |content|
      decreases |content| - offset, 1
    {
      hide ValueAt;
      ghost var start := offset;
      items, ok := [], true;
      AppendNothing(ItemsAt(content, start, depth, strtod));
      while true
        invariant start <= offset && offset + 1 < |content| && depth == old(depth)
        invariant ItemsAt(content, start, depth, strtod) == Append(items, ItemsAt(content, offset, depth, strtod))
        decreases |content| - offset
      {
        ghost var at := offset;
        offset := offset + 1;
        SkipWhitespace();
        var v;
        ok, v := ParseValue();
        if !ok { return; }
        SkipWhitespace();
        AppendAppend(items, v, ItemsAt(content, offset, depth, strtod));
        if content[offset] != ',' {
          AppendLast(items, v, offset);
          items := items + [v];
          break;
        }
        items := items + [v];
      }
    }

    /** parse_object. */
    method ParseObject() returns (ok: bool, item: Json)
      requires Valid() && depth <= NESTING_LIMIT && content[offset] == '{'
      modifies this
      ensures var r := ObjectAt(content, old(offset), old(depth), strtod);
              ok == r.Some? && (ok ==> Valid() && item == r.value.value && offset == r.value.end && depth == old(depth))
      ensures offset <= |content|
      decreases |content| - offset, 3
    {
      ok, item := false, Null;
      if depth >= NESTING_LIMIT { return; }
      depth := depth + 1;
      offset := offset + 1;
      SkipWhitespace();
      ok, item := ParseObjectFrom();
      if ok { depth := depth - 1; }
    }

    /** The part of parse_object behind the opening bracket and white space. */
    method ParseObjectFrom() returns (ok: bool, item: Json)
      requires Valid() && 0 < offset && depth <= NESTING_LIMIT
      modifies this
      ensures var r := ObjectFrom(content, old(offset), old(depth), strtod);
              ok == r.Some? && (ok ==> Valid() && item == r.value.value && offset == r.value.end && depth == old(depth))
      ensures offset <= |content|
      decreases |content| - offset + 1, 2
    {
      var members: seq<Member> := [];
      if content[offset] != '}' {
        offset := offset - 1;
        ok, members := ParseMembers();
        if !ok { return false, Null; }
        if content[offset] != '}' { return false, Null; }
      }
      offset := offset + 1;
      return true, Object(members);
    }

    /** The name of a child, up to its colon. */
    method ParseName() returns (ok: bool, name: Text)
      requires offset + 1 < |content| && Terminated(content)
      modifies `offset
      ensures var r := NameAt(content, old(offset));
              ok == r.Some? && (ok ==> Valid() && name == r.value.value && offset == r.value.end && offset
                                       + 1 < |content|)
      ensures offset <= |content|
    {
      offset := offset + 1;
      SkipWhitespace();
      ok, name := ParseString();
      if !ok { return; }
      SkipWhitespace();
      if content[offset] != ':' { return false, name; }
    }

    /** The name of a child, the colon and the value. */
    method ParseMember() returns (ok: bool, m: Member)
      requires offset + 1 < |content| && Terminated(content) && depth <= NESTING_LIMIT
      modifies this
      ensures var r := MemberAt(content, old(offset), old(depth), strtod);
              ok == r.Some? && (ok ==> Valid() && m == r.value.value && offset == r.value.end && depth == old(depth))
      ensures offset <= |content|
      decreases |content| - offset, 0
    {
      hide ValueAt, NameAt;
      var name, v;
      ok, name := ParseName();
      m := Member(name, Null);
      if !ok { return; }
      offset := offset + 1;
      SkipWhitespace();
      ok, v := ParseValue();
      if !ok { return; }
      SkipWhitespace();
      m := Member(name, v);
    }

    /** The loop of parse_object, from the byte in front of the first member. */
    method ParseMembers() returns (ok: bool, members: seq<Member>)
      requires offset + 1 < |content| && Terminated(content) && depth <= NESTING_LIMIT
      modifies this
      ensures var r := MembersAt(content, old(offset), old(depth), strtod);
              ok == r.Some? && (ok ==> Valid() && members == r.value.value && offset == r.value.end
                                       && depth == old(depth))
      ensures offset <= |content|
      decreases |content| - offset, 1
    {
      ghost var start := offset;
      members, ok := [], true;
      AppendNothing(MembersAt(content, start, depth, strtod));
      while true
        invariant start <= offset && offset + 1 < |content| && depth == old(depth)
        invariant MembersAt(content, start, depth, strtod) == Append(members, MembersAt(content, offset, depth, strtod))
        decreases |content| - offset
      {
        var m;
        ok, m := ParseMember();
        if !ok { return; }
        AppendAppend(members, m, MembersAt(content, offset, depth, strtod));
        if content[offset] != ',' {
          AppendLast(members, m, offset);
          members := members + [m];
          break;
        }
        members := members + [m];
      }
    }
  }

  function Append<T>(done: seq<T>, rest: Option<Read<seq<T>>>): Option<Read<seq<T>>>
  {
    if rest.None? then None else Some(Read(done + rest.value.value, rest.value.end))
  }

  lemma AppendNothing<T>(r: Option<Read<seq<T>>>)
    ensures Append([], r) == r
  {
    if r.Some? { assert [] + r.value.value == r.value.value; }
  }

  lemma AppendAppend<T>(done: seq<T>, x: T, rest: Option<Read<seq<T>>>)
    ensures Append(done, Joined(x, rest)) == Append(done + [x], rest)
  {
    if rest.Some? { assert done + ([x] + rest.value.value) == done + [x] + rest.value.value; }
  }

  lemma AppendLast<T>(done: seq<T>, x: T, end: nat)
    ensures Append(done, Some(Read([x], end))) == Some(Read(done + [x], end))
  {
  }

  lemma RunNext(all: Text, done: Text, content: Text, at: nat, n: nat)
    requires at < |content| && n > 0 && NumberByte(content[at]) && all == done + Run(content, at, n)
    ensures all == (done + [content[at]]) + Run(content, at + 1, n - 1)
  {
  }

  /** A text without NUL ends in front of the NUL that ends the content. */
  lemma EndsBefore(content: Text, at: nat, text: Text)
    requires Terminated(content) && Expect(content, at, text) && text != [] && text[|text| - 1] != '\0'
    ensures at + |text| < |content|
  {
    ExpectAt(content, at, text, |text| - 1);
  }

  lemma BeforeNothing(r: Option<Text>)
    ensures Before([], r) == r
  {
    if r.Some? { assert [] + r.value == r.value; }
  }

  lemma BeforeDone(t: Text)
    ensures Before(t, Some([])) == Some(t)
  {
    assert t + [] == t;
  }

  lemma BeforeBefore(a: Text, b: Text, r: Option<Text>)
    ensures Before(a, Before(b, r)) == Before(a + b, r)
  {
    if r.Some? { assert a + (b + r.value) == (a + b) + r.value; }
  }

  /** The bytes of a UTF-16 literal fit, whether it is of one sequence or of two. */
  lemma LiteralFits(content: Text, begin: nat, p: nat, end: nat, o: nat)
    requires begin <= p < end <= |content| && o <= Budget(content, begin, p)
    ensures var r := Utf16(content, p, end);
            r.Some? ==> o + |Utf8Bytes(r.value.codepoint)| <= Budget(content, begin, p
                + r.value.length) <= Budget(content, begin, end)
  {
    hide Utf8Bytes, Budget, Utf16;
    var r := Utf16(content, p, end);
    if r.Some? {
      var n := r.value.length;
      if n == 6 { BudgetFits(content, begin, p, p + 6, 3); } else { BudgetFits(content, begin, p, p + 12, 6); }
      BudgetMonotone(content, begin, p + n, end);
    }
  }
}
