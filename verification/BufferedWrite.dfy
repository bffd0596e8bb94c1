/** The write queue of src/buffered_socket.c: no byte is lost, repeated or reordered. */
module BufferedWrite {

  type Byte = bv8

  function Flatten(vectors: seq<seq<Byte>>): seq<Byte>
  {
    if vectors == [] then [] else vectors[0] + Flatten(vectors[1..])
  }

  /** What the operating system does with one write of n > 0 bytes: it takes some of them, blocks,
      or fails. */
  datatype WriteEvent = Takes(count: nat) | Blocks | Fails

  datatype Sent = Some(count: nat) | WouldBlock | Error

  /** A socket with an arbitrary future; `wire` is all that it has taken. */
  class Socket {
    var future: seq<WriteEvent>
    var wire: seq<Byte>
    /** Some write has failed. */
    ghost var failed: bool

    constructor (future: seq<WriteEvent>)
      ensures this.future == future && wire == [] && !failed
    {
      this.future, wire, failed := future, [], false;
    }

    /** socket_writev_with_prefix on the concatenation of its arguments. */
    method Writev(data: seq<Byte>) returns (sent: Sent)
      modifies this
      ensures sent.Some? ==> sent.count <= |data| && wire == old(wire) + data[..sent.count]
      ensures sent.Some? && data != [] ==> sent.count > 0
      ensures !sent.Some? ==> wire == old(wire)
      ensures failed == (old(failed) || sent == Error)
    {
      var e := if future == [] then Blocks else future[0];
      if future != [] { future := future[1..]; }
      match e {
        case Takes(count) =>
          var k := if count == 0 || count > |data| then |data| else count;
          wire := wire + data[..k];
          sent := Some(k);
        case Blocks => sent := WouldBlock;
        case Fails =>
          failed := true;
          sent := Error;
      }
    }
  }

  /** What was taken off the queue is what has come onto the wire. */
  lemma Parts(b: array<Byte>, at: nat, n: nat, k: nat, wire: seq<Byte>)
    requires at + n <= b.Length && k <= n
    ensures wire + b[at..at + n] == (wire + b[at..at + n][..k]) + b[at + k..at + n]
  {
    assert b[at..at + n] == b[at..at + n][..k] + b[at + k..at + n];
  }

  class BufferedSocket {
    const sock: Socket
    const buffer: array<Byte>
    var toWrite: nat
    /** Everything that successful calls have accepted. */
    ghost var accepted: seq<Byte>

    /** Bytes on the wire, then bytes in the buffer, are all accepted bytes in order. */
    ghost predicate Valid()
      reads this, sock, buffer
    {
      toWrite <= buffer.Length && sock.wire + buffer[..toWrite] == accepted
    }

    constructor (sock: Socket, capacity: nat)
      requires sock.wire == []
      ensures Valid() && accepted == [] && this.sock == sock && buffer.Length == capacity && fresh(buffer)
    {
      this.sock := sock;
      buffer := new Byte[capacity](_ => 0);
      toWrite, accepted := 0, [];
    }

    /** memmove of n bytes at src to the start of the buffer. */
    method MoveToFront(src: nat, n: nat)
      requires src + n <= buffer.Length
      modifies buffer
      ensures buffer[..n] == old(buffer[src..src + n])
    {
      for i := 0 to n
        invariant forall j :: 0 <= j < i ==> buffer[j] == old(buffer[src + j])
        invariant forall j :: src + i <= j < buffer.Length ==> buffer[j] == old(buffer[j])
      {
        buffer[i] := buffer[src + i];
      }
    }

    /** send_buffer. */
    method SendBuffer() returns (ok: bool)
      requires Valid()
      modifies this`toWrite, sock, buffer
      ensures ok ==> Valid()
      ensures !ok ==> sock.failed && sock.wire <= accepted && toWrite <= buffer.Length
    {
      hide Flatten;
      var at := 0;
      while toWrite != 0
        invariant 0 <= at && at + toWrite <= buffer.Length
        invariant sock.wire + buffer[at..at + toWrite] == accepted
        invariant unchanged(buffer)
        decreases toWrite
      {
        ghost var wire := sock.wire;
        var sent := sock.Writev(buffer[at..at + toWrite]);
        match sent {
          case Error => return false;
          case WouldBlock =>
            MoveToFront(at, toWrite);
            return true;
          case Some(written) =>
            Parts(buffer, at, toWrite, written, wire);
            at := at + written;
            toWrite := toWrite - written;
        }
      }
      ok := true;
    }

    /** copy_single_buffer. */
    method CopySingle(data: seq<Byte>) returns (ok: bool)
      requires toWrite <= buffer.Length
      modifies this`toWrite, buffer
      ensures ok <==> |data| <= buffer.Length - old(toWrite)
      ensures toWrite <= buffer.Length
      ensures buffer[..toWrite] == old(buffer[..toWrite]) + if ok then data else []
    {
      if |data| > buffer.Length - toWrite { return false; }
      forall i | 0 <= i < |data| { buffer[toWrite + i] := data[i]; }
      toWrite := toWrite + |data|;
      ok := true;
    }

    /** copy_iovec_to_write_buffer: everything of the vectors after the first `skip` bytes. */
    method CopyVectors(vectors: seq<seq<Byte>>, skip: nat) returns (ok: bool)
      requires toWrite <= buffer.Length && skip <= |Flatten(vectors)|
      modifies this`toWrite, buffer
      ensures toWrite <= buffer.Length
      ensures ok <==> |Flatten(vectors)| - skip <= buffer.Length - old(toWrite)
      ensures ok ==> buffer[..toWrite] == old(buffer[..toWrite]) + Flatten(vectors)[skip..]
      ensures buffer[..toWrite] <= old(buffer[..toWrite]) + Flatten(vectors)[skip..]
    {
      ghost var all := Flatten(vectors);
      var skipped: nat := skip;
      for i := 0 to |vectors|
        invariant toWrite <= buffer.Length && skipped <= |Flatten(vectors[i..])|
        invariant buffer[..toWrite] + Flatten(vectors[i..])[skipped..] == old(buffer[..toWrite]) + all[skip..]
      {
        ghost var rest := Flatten(vectors[i + 1..]);
        assert Flatten(vectors[i..]) == vectors[i] + rest by { assert vectors[i..][1..] == vectors[i + 1..]; }
        if skipped < |vectors[i]| {
          assert (vectors[i] + rest)[skipped..] == vectors[i][skipped..] + rest;
          ghost var before := buffer[..toWrite];
          var copied := CopySingle(vectors[i][skipped..]);
          assert before + (vectors[i][skipped..] + rest) == old(buffer[..toWrite]) + all[skip..];
          if !copied { return false; }
          assert buffer[..toWrite] + rest == before + (vectors[i][skipped..] + rest);
          skipped := 0;
        } else {
          assert (vectors[i] + rest)[skipped..] == rest[skipped - |vectors[i]|..];
          skipped := skipped - |vectors[i]|;
        }
      }
      ok := true;
    }

    /** buffered_socket_writev. */
    method Writev(vectors: seq<seq<Byte>>) returns (ok: bool)
      requires Valid()
      modifies this, sock, buffer
      ensures accepted == old(accepted) + Flatten(vectors)
      ensures ok ==> Valid()
      ensures !ok ==> sock.wire <= accepted && toWrite <= buffer.Length
      // it fails only when the socket does or when what is not yet sent does not fit the buffer
      ensures !ok && !sock.failed ==> |accepted| - |sock.wire| > buffer.Length
      // in the latter case what is queued still follows what was sent
      ensures !ok && !sock.failed ==> sock.wire + buffer[..toWrite] <= accepted
    {
      ghost var data := Flatten(vectors);
      accepted := accepted + data;
      ghost var queue := buffer[..toWrite];
      var sent := sock.Writev(buffer[..toWrite] + Flatten(vectors));
      var written := if sent.Some? then sent.count else 0;
      assert sock.wire + (queue + data)[written..] == accepted;
      if sent.Some? && written == toWrite + |Flatten(vectors)| {
        toWrite := 0;
        return true;
      }
      if sent == Error { return false; }
      var vectorsWritten := 0;
      if written <= toWrite {
        assert (queue + data)[written..] == queue[written..] + data;
        toWrite := toWrite - written;
        MoveToFront(written, toWrite);
      } else {
        vectorsWritten := written - toWrite;
        assert (queue + data)[written..] == [] + data[vectorsWritten..];
        toWrite := 0;
      }
      assert sock.wire + (buffer[..toWrite] + data[vectorsWritten..]) == accepted;
      ghost var kept := buffer[..toWrite];
      var copied := CopyVectors(vectors, vectorsWritten);
      assert sock.wire + buffer[..toWrite] <= sock.wire + (kept + data[vectorsWritten..]);
      if !copied { return false; }
      if sent == WouldBlock { return true; }
      ok := SendBuffer();
    }
  }
}
