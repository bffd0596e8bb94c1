/** Copying a match out of the circular window and the output, src/zlib/inffast.c. */
module MatchCopy {
  import opened BitStream

  // ---------- LZ77 ----------

  /** A match copied byte by byte: each byte is the one `dist` places before it. */
  function Lz(h: seq<Byte>, dist: nat, len: nat): (r: seq<Byte>)
    requires 1 <= dist <= |h|
    ensures |r| == |h| + len && r[..|h|] == h
    decreases len
  {
    if len == 0 then h
    else var r := Lz(h, dist, len - 1); r + [r[|r| - dist]]
  }

  /** Every byte after h is the one dist places before it, whether or not the match overlaps itself. */
  ghost predicate Repeats(r: seq<Byte>, h: seq<Byte>, dist: nat, len: nat)
    requires 1 <= dist <= |h|
  {
    |r| == |h| + len && r[..|h|] == h && forall i :: |h| <= i < |r| ==> r[i] == r[i - dist]
  }

  lemma {:induction false} LzRepeats(h: seq<Byte>, dist: nat, len: nat, r: seq<Byte>)
    requires 1 <= dist <= |h|
    ensures r == Lz(h, dist, len) <==> Repeats(r, h, dist, len)
    decreases len
  {
    if len == 0 {
      if |r| == |h| { assert r[..|h|] == r; }
    } else if |r| == |h| + len {
      var t := r[..|r| - 1];
      LzRepeats(h, dist, len - 1, t);
      assert t[..|h|] == r[..|h|] && r == t + [r[|r| - 1]];
    }
  }

  // ---------- The copy ----------

  /** Where the next byte comes from: `from` points into the window or into the output. */
  datatype Pointer = InWindow(i: nat) | InOutput(i: nat)

  /** wsize, whave and wnext. updatewindow fills the window up to the end before it wraps around. */
  datatype Geometry = Geometry(size: nat, have: nat, next: nat) {
    predicate Valid()
    {
      have <= size && if have < size then next == have else next < size || next == 0
    }

    /** The window's bytes, oldest first. */
    function Oldest(window: seq<Byte>): (h: seq<Byte>)
      requires Valid() && |window| == size
      ensures |h| == have
    {
      if have < size then window[..have] else window[next..] + window[..next]
    }

    /** The next n bytes at that pointer are those of the history from `at` on; `out` bytes are written. */
    predicate Along(from: Pointer, at: int, n: int, out: nat)
    {
      match from
      case InWindow(i) =>
        && 0 <= at && at + n <= have && i + n <= size
        && if have < size then i == at
           else (at + n <= size - next && i == next + at) || (at >= size - next && i == at - (size - next))
      case InOutput(i) => i < out && at == have + i
    }
  }

  class Output {
    const w: Geometry
    const window: array<Byte>
    const buffer: array<Byte>
    /** out - beg. */
    var out: nat
    /** All bytes a distance can reach: those before `beg` and those written since. */
    ghost var history: seq<Byte>

    constructor (window: array<Byte>, w: Geometry, buffer: array<Byte>, out: nat)
      requires window != buffer && out <= buffer.Length && w.size == window.Length && w.Valid()
      ensures Valid() && this.window == window && this.buffer == buffer && this.out == out && this.w == w
    {
      this.w, this.window, this.buffer, this.out := w, window, buffer, out;
      history := w.Oldest(window[..]) + buffer[..out];
    }

    ghost predicate Valid()
      reads this, window, buffer
      ensures Valid() ==> out <= buffer.Length && |history| == w.have + out
    {
      && w.Valid() && window != buffer && window.Length == w.size && out <= buffer.Length
      && history == w.Oldest(window[..]) + buffer[..out]
    }

    /** The match of that distance after h is copied up to here. */
    ghost predicate Copying(h: seq<Byte>, dist: nat)
      reads this
    {
      1 <= dist <= |h| <= |history| && history == Lz(h, dist, |history| - |h|)
    }

    ghost predicate Untouched(was: seq<Byte>)
      reads this, buffer
    {
      |was| == buffer.Length && forall k :: out <= k < buffer.Length ==> buffer[k] == was[k]
    }

    /** One byte is copied, and both pointers move on. */
    method CopyByte(from: Pointer, ghost n: nat, ghost h: seq<Byte>, ghost dist: nat) returns (next: Pointer)
      requires Valid() && out < buffer.Length && Copying(h, dist)
      requires 0 < n && w.Along(from, |history| - dist, n, out)
      modifies this, buffer
      ensures Valid() && out == old(out) + 1 && Untouched(old(buffer[..])) && Copying(h, dist)
      ensures |history| == |old(history)| + 1
      ensures n > 1 ==> w.Along(next, |history| - dist, n - 1, out)
    {
      var b := Fetch(from, |history| - dist, n);
      Put(b);
      next := if from.InWindow? then InWindow(from.i + 1) else InOutput(from.i + 1);
    }

    method Fetch(from: Pointer, ghost at: nat, ghost n: nat) returns (b: Byte)
      requires Valid() && 0 < n && w.Along(from, at, n, out) && at < |history|
      ensures b == history[at]
    {
      b := if from.InWindow? then window[from.i] else buffer[from.i];
    }

    method Put(b: Byte)
      requires Valid() && out < buffer.Length
      modifies this, buffer
      ensures Valid() && out == old(out) + 1 && Untouched(old(buffer[..])) && history == old(history) + [b]
    {
      buffer[out] := b;
      out := out + 1;
      assert buffer[..out] == old(buffer[..out]) + [b];
      history := history + [b];
    }

    /** The loop that copies a number of bytes one by one. */
    method CopyBytes(start: Pointer, count: nat, ghost h: seq<Byte>, ghost dist: nat)
      requires Valid() && out + count <= buffer.Length && Copying(h, dist)
      requires 0 < count && w.Along(start, |history| - dist, count, out)
      modifies this, buffer
      ensures Valid() && out == old(out) + count && Untouched(old(buffer[..])) && Copying(h, dist)
    {
      var from, op := start, count;
      while op != 0
        invariant op <= count && Valid() && out == old(out) + count - op && Untouched(old(buffer[..]))
            && Copying(h, dist)
        invariant op > 0 ==> w.Along(from, |history| - dist, op, out)
      {
        from := CopyByte(from, op, h, dist);
        op := op - 1;
      }
    }

    /** Three bytes at a time, then the last one or two. */
    method CopyUnrolled(start: Pointer, count: nat, ghost h: seq<Byte>, ghost dist: nat)
      requires Valid() && out + count <= buffer.Length && Copying(h, dist)
      requires count > 0 ==> w.Along(start, |history| - dist, count, out)
      modifies this, buffer
      ensures Valid() && out == old(out) + count && Untouched(old(buffer[..])) && Copying(h, dist)
    {
      var from, len: nat := start, count;
      while len > 2
        invariant len <= count && Valid() && out == old(out) + count - len && Untouched(old(buffer[..]))
            && Copying(h, dist)
        invariant len > 0 ==> w.Along(from, |history| - dist, len, out)
      {
        from := CopyByte(from, len, h, dist);
        from := CopyByte(from, len - 1, h, dist);
        from := CopyByte(from, len - 2, h, dist);
        len := len - 3;
      }
      if len != 0 {
        from := CopyByte(from, len, h, dist);
        if len > 1 { from := CopyByte(from, len - 1, h, dist); }
      }
    }

    /** The three cases of a copy that starts in the window; back is the distance back into it. */
    method CopyFromWindow(length: nat, dist: nat, back: nat)
      requires Valid() && out + length <= buffer.Length && 1 <= length && back == dist - out && 1 <= back <= w.have
      modifies this, buffer
      ensures Valid() && out == old(out) + length && Untouched(old(buffer[..])) && Copying(old(history), dist)
    {
      ghost var h := history;
      var len, op := length, back;
      var from: Pointer;
      if w.next == 0 {
        from := InWindow(w.size - op);
        if op < len {
          len := len - op;
          CopyBytes(from, op, h, dist);
          from := InOutput(out - dist);
        }
      } else if w.next < op {
        from := InWindow(w.size + w.next - op);
        op := op - w.next;
        if op < len {
          len := len - op;
          CopyBytes(from, op, h, dist);
          from := InWindow(0);
          if w.next < len {
            op := w.next;
            len := len - op;
            CopyBytes(from, op, h, dist);
            from := InOutput(out - dist);
          }
        }
      } else {
        from := InWindow(w.next - op);
        if op < len {
          len := len - op;
          CopyBytes(from, op, h, dist);
          from := InOutput(out - dist);
        }
      }
      CopyUnrolled(from, len, h, dist);
    }

    /** A match of that length and distance: the bytes of the byte-by-byte copy, from whichever mixture
        of window end, window start and output, or an error if the distance is too far back. */
    method CopyMatch(len: nat, dist: nat) returns (ok: bool)
      requires Valid() && out + len <= buffer.Length && 3 <= len && 1 <= dist
      modifies this, buffer
      ensures Valid() && (ok <==> dist <= |old(history)|)
      ensures ok ==> out == old(out) + len && history == Lz(old(history), dist, len)
      ensures !ok ==> out == old(out) && history == old(history)
      ensures Untouched(old(buffer[..]))
    {
      if dist > out {
        var back := dist - out;
        if back > w.have { return false; }
        CopyFromWindow(len, dist, back);
      } else {
        CopyFromOutput(len, dist);
      }
      ok := true;
    }

    /** The copy from the output alone; the first three bytes need no test. */
    method CopyFromOutput(len: nat, dist: nat)
      requires Valid() && out + len <= buffer.Length && 3 <= len && 1 <= dist <= out
      modifies this, buffer
      ensures Valid() && out == old(out) + len && Untouched(old(buffer[..])) && Copying(old(history), dist)
    {
      ghost var h := history;
      var from := InOutput(out - dist);
      from := CopyByte(from, len, h, dist);
      from := CopyByte(from, len - 1, h, dist);
      from := CopyByte(from, len - 2, h, dist);
      CopyUnrolled(from, len - 3, h, dist);
    }
  }
}
