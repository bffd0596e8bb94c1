/** unmask_payload of src/websocket.c: masking by machine words. */
module WebsocketMask {
  import opened Words

  /** Section 5.3 of RFC 6455: octet i is XORed with octet i modulo 4 of the masking key. */
  function Masked(data: seq<Byte>, mask: seq<Byte>): (r: seq<Byte>)
    requires |mask| == 4
    ensures |r| == |data|
  {
    seq(|data|, i requires 0 <= i < |data| => data[i] ^ mask[i % 4])
  }

  /** Masking twice restores the payload. */
  lemma MaskedTwice(data: seq<Byte>, mask: seq<Byte>)
    requires |mask| == 4
    ensures Masked(Masked(data, mask), mask) == data
  {
    forall i | 0 <= i < |data| ensures data[i] ^ mask[i % 4] ^ mask[i % 4] == data[i] {}
  }

  /** Octets [0, i) of the buffer are masked and the others untouched. */
  ghost predicate MaskedUpTo(now: seq<Byte>, was: seq<Byte>, mask: seq<Byte>, i: nat)
    requires |mask| == 4
  {
    |now| == |was| && forall j :: 0 <= j < |was| ==> now[j] == if j < i then was[j] ^ mask[j % 4] else was[j]
  }

  /** One word of the main loop. */
  method XorWordAt(buffer: array<Byte>, at: nat, word: seq<Byte>)
    requires Word(word) && at + |word| <= buffer.Length
    modifies buffer
    ensures forall j :: 0 <= j < buffer.Length ==>
              buffer[j] == if at <= j < at + |word| then old(buffer[j]) ^ word[j - at] else old(buffer[j])
  {
    var v := buffer[at..at + |word|];
    var r := XorWord(v, word);
    forall j | 0 <= j < |word| ensures r[j] == buffer[at + j] ^ word[j] { XorWordIsBytewise(v, word, j); }
    forall j | 0 <= j < |word| { buffer[at + j] := r[j]; }
  }

  /** The bytes before the first aligned word, then whole words. */
  method UnmaskWords(buffer: array<Byte>, pre: nat, width: nat, mask: seq<Byte>)
    requires |mask| == 4 && (width == 4 || width == 8) && pre < width <= buffer.Length
    modifies buffer
    ensures MaskedUpTo(buffer[..], old(buffer[..]), mask, buffer.Length - (buffer.Length - pre) % width)
  {
    ghost var was := buffer[..];
    MaskBytes(buffer, mask, 0, pre, was);
    var main := (buffer.Length - pre) / width;
    var word := seq(width, i => mask[(i + pre) % 4]);
    var at := pre;
    LastWord(buffer.Length - pre, width);
    for n := 0 to main
      invariant at == pre + n * width && at <= buffer.Length && MaskedUpTo(buffer[..], was, mask, at)
    {
      InBounds(n, main, width);
      assert (at - pre) % 4 == 0;
      MaskWordAt(buffer, pre, at, word, mask, was);
      at := at + width;
    }
  }

  lemma LastWord(n: nat, width: nat)
    requires width == 4 || width == 8
    ensures n / width * width + n % width == n
  {
  }

  /** One turn of the main loop, on the next aligned word. */
  method MaskWordAt(buffer: array<Byte>, pre: nat, at: nat, word: seq<Byte>, mask: seq<Byte>, ghost was: seq<Byte>)
    requires |mask| == 4 && Word(word) && at + |word| <= buffer.Length
    requires pre <= at && (at - pre) % 4 == 0
    requires forall i :: 0 <= i < |word| ==> word[i] == mask[(i + pre) % 4]
    requires MaskedUpTo(buffer[..], was, mask, at)
    modifies buffer
    ensures MaskedUpTo(buffer[..], was, mask, at + |word|)
  {
    XorWordAt(buffer, at, word);
    forall j | at <= j < at + |word| ensures word[j - at] == mask[j % 4] { SameKeyOctet(j, at, pre); }
  }

  lemma SameKeyOctet(j: nat, at: nat, pre: nat)
    requires pre <= at <= j && (at - pre) % 4 == 0
    ensures (j - at + pre) % 4 == j % 4
  {
  }

  /** unmask_payload for a buffer at the given address on a platform whose uint_fast32_t has the
      given width. */
  method UnmaskPayload(buffer: array<Byte>, address: nat, width: nat, mask: seq<Byte>)
    requires |mask| == 4 && (width == 4 || width == 8)
    modifies buffer
    ensures buffer[..] == Masked(old(buffer[..]), mask)
  {
    ghost var was := buffer[..];
    var length := buffer.Length;
    if length < width {
      MaskBytes(buffer, mask, 0, length, was);
    } else {
      var pre := (width - address % width) % width;
      UnmaskWords(buffer, pre, width, mask);
      MaskBytes(buffer, mask, length - (length - pre) % width, length, was);
    }
    assert buffer[..] == Masked(was, mask);
  }

  /** A byte loop over [from, to). */
  method MaskBytes(buffer: array<Byte>, mask: seq<Byte>, from: nat, to: nat, ghost was: seq<Byte>)
    requires |mask| == 4 && from <= to <= buffer.Length
    requires MaskedUpTo(buffer[..], was, mask, from)
    modifies buffer
    ensures MaskedUpTo(buffer[..], was, mask, to)
  {
    for i := from to to
      invariant MaskedUpTo(buffer[..], was, mask, i)
    {
      buffer[i] := buffer[i] ^ mask[i % 4];
    }
  }

  lemma InBounds(n: nat, main: nat, width: nat)
    requires n < main && (width == 4 || width == 8)
    ensures n * width + width <= main * width && n * width % 4 == 0
  {
    if width == 4 {
      assert n * width == 4 * n && main * width == 4 * main;
    } else {
      assert n * width == 8 * n && main * width == 8 * main;
    }
  }
}
