/** parse_string and utf16_literal_to_utf8, src/json/cJSON.c. */
module JsonString {
  import opened Options
  import opened JsonText

  /** The text stands in the content at that place. */
  predicate Expect(content: Text, at: nat, text: Text)
    ensures Expect(content, at, text) ==> at + |text| <= |content|
    decreases |text|
  {
    if text == [] then at <= |content|
    else at < |content| && content[at] == text[0] && Expect(content, at + 1, text[1..])
  }

  lemma {:induction false} ExpectIsSlice(content: Text, at: nat, text: Text)
    ensures Expect(content, at, text) <==> at + |text| <= |content| && content[at..at + |text|] == text
    decreases |text|
  {
    if text != [] {
      ExpectIsSlice(content, at + 1, text[1..]);
      if at + |text| <= |content| {
        assert content[at..at + |text|] == [content[at]] + content[at + 1..at + |text|];
        assert text == [text[0]] + text[1..];
      }
    }
  }

  lemma {:induction false} ExpectConcat(content: Text, at: nat, a: Text, b: Text)
    ensures Expect(content, at, a + b) <==> Expect(content, at, a) && Expect(content, at + |a|, b)
    decreases |a|
  {
    if a == [] {
      assert a + b == b;
    } else {
      assert (a + b)[0] == a[0] && (a + b)[1..] == a[1..] + b;
      ExpectConcat(content, at + 1, a[1..], b);
    }
  }

  lemma {:induction false} ExpectAt(content: Text, at: nat, text: Text, i: nat)
    requires Expect(content, at, text) && i < |text|
    ensures content[at + i] == text[i]
    decreases |text|
  {
    if i > 0 { ExpectAt(content, at + 1, text[1..], i - 1); }
  }

  /** The content ends with its only NUL. */
  predicate Terminated(content: Text)
  {
    |content| > 0 && content[|content| - 1] == '\0' && forall i :: 0 <= i < |content| - 1 ==> content[i] != '\0'
  }

  // ---------- Hexadecimal ----------

  /** The value of a hexadecimal digit, or -1. */
  function HexValue(c: Byte): int
  {
    if '0' <= c <= '9' then c as int - '0' as int
    else if 'A' <= c <= 'F' then 10 + c as int - 'A' as int
    else if 'a' <= c <= 'f' then 10 + c as int - 'a' as int
    else -1
  }

  /** Four digits; 0 if one of them is none. */
  function Hex4(t: Text): (h: nat)
    requires |t| == 4
    ensures h < 0x10000
  {
    var a, b, c, d := HexValue(t[0]), HexValue(t[1]), HexValue(t[2]), HexValue(t[3]);
    if a < 0 || b < 0 || c < 0 || d < 0 then 0 else a * 4096 + b * 256 + c * 16 + d
  }

  /** The digits read so far, each but the last shifted to make place for the next one. */
  function HexPrefix(t: Text, i: nat): nat
    requires |t| == 4 && i <= 4 && forall k :: 0 <= k < i ==> HexValue(t[k]) >= 0
  {
    if i == 0 then 0
    else if i < 4 then (HexPrefix(t, i - 1) + HexValue(t[i - 1])) * 16
    else HexPrefix(t, 3) + HexValue(t[3])
  }

  /** parse_hex4. */
  method ParseHex4(t: Text) returns (h: nat)
    requires |t| == 4
    ensures h == Hex4(t)
  {
    h := 0;
    for i := 0 to 4
      invariant forall k :: 0 <= k < i ==> HexValue(t[k]) >= 0
      invariant h == HexPrefix(t, i)
    {
      if HexValue(t[i]) >= 0 {
        h := h + HexValue(t[i]);
      } else {
        return 0;
      }
      if i < 3 { h := h * 16; }
    }
    assert HexPrefix(t, 3) == (HexPrefix(t, 2) + HexValue(t[2])) * 16;
    assert HexPrefix(t, 2) == (HexPrefix(t, 1) + HexValue(t[1])) * 16;
  }

  // ---------- UTF-16 literals ----------

  datatype Literal = Literal(codepoint: nat, length: nat)

  /** The code point of one or two sequences of the form \uXXXX at p, and how long they are. */
  function Utf16(content: Text, p: nat, end: nat): (r: Option<Literal>)
    requires p <= end <= |content|
    ensures r.Some? ==> r.value.codepoint <= 0x10FFFF && p + r.value.length <= end
    ensures r.Some? ==> r.value.length == if r.value.codepoint < 0x10000 then 6 else 12
  {
    if end - p < 6 then None else
    var first := Hex4(content[p + 2..p + 6]);
    if 0xDC00 <= first <= 0xDFFF then None
    else if 0xD800 <= first <= 0xDBFF then
      if end - (p + 6) < 6 || content[p + 6] != '\\' || content[p + 7] != 'u' then None else
      var second := Hex4(content[p + 8..p + 12]);
      if second < 0xDC00 || second > 0xDFFF then None
      else Some(Literal(0x10000 + first % 0x400 * 0x400 + second % 0x400, 12))
    else Some(Literal(first, 6))
  }

  /** The octets of a code point, section 3 of RFC 3629. */
  function Utf8Bytes(c: nat): (t: Text)
    requires c <= 0x10FFFF
    ensures 1 <= |t| <= if c < 0x10000 then 3 else 4
  {
    if c < 0x80 then [c as char]
    else if c < 0x800 then [(0xC0 + c / 0x40) as char, (0x80 + c % 0x40) as char]
    else if c < 0x10000 then [(0xE0 + c / 0x1000) as char, (0x80 + c / 0x40 % 0x40) as char, (0x80 + c % 0x40) as char]
    else [(0xF0 + c / 0x40000) as char, (0x80 + c / 0x1000 % 0x40) as char, (0x80 + c / 0x40 % 0x40) as char,
          (0x80 + c % 0x40) as char]
  }

  function Utf8Length(c: nat): nat
  {
    if c < 0x80 then 1 else if c < 0x800 then 2 else if c < 0x10000 then 3 else 4
  }

  /** 0xC0, 0xE0 or 0xF0 for the first byte of several. */
  function Mark(c: nat): nat
  {
    if c < 0x80 then 0 else if c < 0x800 then 0xC0 else if c < 0x10000 then 0xE0 else 0xF0
  }

  /** The code point without its last n groups of six bits. */
  function Shifted(c: nat, n: nat): nat
  {
    if n == 0 then c else Shifted(c, n - 1) / 0x40
  }

  lemma ShiftedValues(c: nat)
    ensures Shifted(c, 1) == c / 0x40 && Shifted(c, 2) == c / 0x1000 && Shifted(c, 3) == c / 0x40000
  {
    assert Shifted(c, 2) == Shifted(c, 1) / 0x40;
    assert Shifted(c, 3) == Shifted(c, 2) / 0x40;
  }

  lemma Utf8At(c: nat, k: nat)
    requires c <= 0x10FFFF && k < Utf8Length(c)
    ensures |Utf8Bytes(c)| == Utf8Length(c) && Shifted(c, k) <= 0x10FFFF
    ensures k == Utf8Length(c) - 1 ==> Mark(c) + Shifted(c, k) < 256
                                       && Utf8Bytes(c)[0] == (Mark(c) + Shifted(c, k)) as char
    ensures k < Utf8Length(c) - 1 ==> Utf8Bytes(c)[Utf8Length(c) - 1 - k] == (0x80 + Shifted(c, k) % 0x40) as char
  {
    ShiftedValues(c);
  }

  /** Encode as UTF-8: the last bytes first, six bits each, then the first byte with its mark. */
  method Encode(codepoint: nat, output: array<Byte>, o: nat) returns (length: nat)
    requires codepoint <= 0x10FFFF && o + |Utf8Bytes(codepoint)| <= output.Length
    modifies output
    ensures length == |Utf8Bytes(codepoint)| && output[o..o + length] == Utf8Bytes(codepoint)
    ensures forall k :: 0 <= k < output.Length && !(o <= k < o + length) ==> output[k] == old(output[k])
  {
    var mark := 0;
    if codepoint < 0x80 {
      length := 1;
    } else if codepoint < 0x800 {
      length, mark := 2, 0xC0;
    } else if codepoint < 0x10000 {
      length, mark := 3, 0xE0;
    } else {
      length, mark := 4, 0xF0;
    }
    Utf8At(codepoint, 0);
    var rest := EncodeTail(codepoint, length, output, o);
    Utf8At(codepoint, length - 1);
    output[o] := (mark + rest) as char;
  }

  /** The bytes behind the first one, from the last to the first. */
  method EncodeTail(codepoint: nat, length: nat, output: array<Byte>, o: nat) returns (rest: nat)
    requires codepoint <= 0x10FFFF && length == Utf8Length(codepoint) == |Utf8Bytes(codepoint)| && o
        + length <= output.Length
    modifies output
    ensures rest == Shifted(codepoint, length - 1)
    ensures forall k :: 0 < k < length ==> output[o + k] == Utf8Bytes(codepoint)[k]
    ensures forall k :: 0 <= k < output.Length && !(o < k < o + length) ==> output[k] == old(output[k])
  {
    ghost var all := Utf8Bytes(codepoint);
    var position: nat := length - 1;
    rest := codepoint;
    while position > 0
      invariant position < length && rest == Shifted(codepoint, length - 1 - position)
      invariant forall k :: position < k < length ==> output[o + k] == all[k]
      invariant forall k :: 0 <= k < output.Length && !(o < k < o + length) ==> output[k] == old(output[k])
    {
      Utf8At(codepoint, length - 1 - position);
      output[o + position] := (0x80 + rest % 0x40) as char;
      rest := rest / 0x40;
      position := position - 1;
    }
  }

  /** utf16_literal_to_utf8: the length of the literal, or 0. */
  method Utf16ToUtf8(content: Text, p: nat, end: nat, output: array<Byte>, o: nat) returns (sequence: nat, written: nat)
    requires p <= end <= |content|
    requires Utf16(content, p, end).Some? ==> o + |Utf8Bytes(Utf16(content, p, end).value.codepoint)| <= output.Length
    modifies output
    ensures var r := Utf16(content, p, end);
            if r.None? then sequence == 0 && output[..] == old(output[..])
            else sequence == r.value.length && written == |Utf8Bytes(r.value.codepoint)|
                 && output[o..o + written] == Utf8Bytes(r.value.codepoint)
    ensures forall k :: 0 <= k < output.Length && !(o <= k < o + written) ==> output[k] == old(output[k])
  {
    sequence, written := 0, 0;
    if end - p < 6 { return; }
    var first := ParseHex4(content[p + 2..p + 6]);
    if 0xDC00 <= first <= 0xDFFF { return; }
    var codepoint, length := first, 6;
    if 0xD800 <= first <= 0xDBFF {
      length := 12;
      if end - (p + 6) < 6 { return; }
      if content[p + 6] != '\\' || content[p + 7] != 'u' { return; }
      var second := ParseHex4(content[p + 8..p + 12]);
      if second < 0xDC00 || second > 0xDFFF { return; }
      codepoint := 0x10000 + first % 0x400 * 0x400 + second % 0x400;
    }
    written := Encode(codepoint, output, o);
    sequence := length;
  }
}
