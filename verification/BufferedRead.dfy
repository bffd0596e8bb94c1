/** The read buffer of src/buffered_socket.c: what is delivered does not depend on how the socket
    cuts the stream. */
module BufferedRead {

  type Byte = bv8

  // ---------- What the stream alone determines ----------

  datatype Request = Exactly(count: nat) | Until(delimiter: seq<Byte>)

  /** Block: that many bytes are delivered; TooMuch: the request can never be met; Starved: more
      bytes would be needed than the stream has. */
  datatype Answer = Block(length: nat) | TooMuch | Starved

  predicate EndsAt(s: seq<Byte>, d: seq<Byte>, k: nat)
  {
    |d| <= k <= |s| && s[k - |d|..k] == d
  }

  /** The length of the shortest prefix of s, of at least `from` bytes, that ends in d. */
  function ShortestFrom(s: seq<Byte>, d: seq<Byte>, from: nat): (r: Answer)
    requires |d| <= from
    ensures r.Block? ==> from <= r.length && EndsAt(s, d, r.length)
    ensures r.Block? ==> forall k :: from <= k < r.length ==> !EndsAt(s, d, k)
    ensures !r.Block? ==> r == Starved && forall k :: from <= k ==> !EndsAt(s, d, k)
    decreases |s| - from
  {
    if from > |s| then Starved
    else if EndsAt(s, d, from) then Block(from)
    else ShortestFrom(s, d, from + 1)
  }

  function Min(a: nat, b: nat): nat { if a < b then a else b }

  /** The answer to a request when the stream still holds `rest` and the buffer holds `capacity`. */
  function Expected(capacity: nat, rest: seq<Byte>, q: Request): (r: Answer)
    ensures r.Block? ==> r.length <= |rest|
  {
    match q
    case Exactly(n) => if n > capacity then TooMuch else if n <= |rest| then Block(n) else Starved
    case Until(d) =>
      var r := ShortestFrom(rest[..Min(capacity, |rest|)], d, |d|);
      if r.Block? then r else if |rest| >= capacity then TooMuch else Starved
  }

  lemma PrefixSlice(s: seq<Byte>, t: seq<Byte>, a: nat, b: nat)
    requires s <= t && a <= b <= |s|
    ensures s[a..b] == t[a..b]
  {
    forall i | 0 <= i < b - a ensures s[a..b][i] == t[a..b][i] { assert s[a + i] == t[a + i]; }
  }

  /** TOOMUCHDATA is the answer exactly when the prefix that is needed exceeds the buffer. */
  lemma TooMuchExactly(capacity: nat, rest: seq<Byte>, d: seq<Byte>)
    ensures Expected(capacity, rest, Until(d)) == TooMuch <==>
            |rest| >= capacity && forall k: nat :: EndsAt(rest, d, k) ==> k > capacity
    ensures forall k: nat :: Expected(capacity, rest, Until(d)) == Block(k) ==>
            EndsAt(rest, d, k) && forall j: nat :: j < k ==> !EndsAt(rest, d, j)
  {
    var window := rest[..Min(capacity, |rest|)];
    forall k | 0 <= k <= |window| ensures EndsAt(window, d, k) <==> EndsAt(rest, d, k) {
      if k >= |d| { PrefixSlice(window, rest, k - |d|, k); }
    }
    var r := ShortestFrom(window, d, |d|);
    if r.Block? { assert EndsAt(rest, d, r.length); }
  }

  /** Seeing more of the stream does not change an answer that the bytes seen already give. */
  lemma ShortestGrows(s: seq<Byte>, t: seq<Byte>, d: seq<Byte>, from: nat)
    requires s <= t && |d| <= from && ShortestFrom(s, d, from).Block?
    ensures ShortestFrom(t, d, from) == ShortestFrom(s, d, from)
  {
    var k, r := ShortestFrom(s, d, from).length, ShortestFrom(t, d, from);
    forall j | |d| <= j <= |s| ensures EndsAt(s, d, j) <==> EndsAt(t, d, j) {
      PrefixSlice(s, t, j - |d|, j);
    }
    assert EndsAt(t, d, k);
  }

  /** What it means that the bytes seen so far do not hold the delimiter. */
  lemma Unfound(capacity: nat, rest: seq<Byte>, unread: seq<Byte>, d: seq<Byte>)
    requires unread <= rest && |unread| <= capacity && !ShortestFrom(unread, d, |d|).Block?
    ensures |unread| == capacity ==> Expected(capacity, rest, Until(d)) == TooMuch
    ensures unread == rest && |rest| < capacity ==> Expected(capacity, rest, Until(d)) == Starved
  {
    if |unread| == capacity { assert rest[..Min(capacity, |rest|)] == unread; }
    if unread == rest { assert rest[..|rest|] == rest; }
  }

  /** A client: what it has been given so far determines what it asks for next. */
  type Client = seq<seq<Byte>> -> Request

  /** All blocks a client is given out of `rest`, after those in `given`, and how that ends. A
      block of no bytes ends it too, as go_reading takes it for a closed connection. */
  function Transcript(capacity: nat, client: Client, rest: seq<Byte>, given: seq<seq<Byte>>): (seq<seq<Byte>>, Answer)
    decreases |rest|
  {
    var a := Expected(capacity, rest, client(given));
    if a.Block? && a.length > 0 then Transcript(capacity, client, rest[a.length..], given + [rest[..a.length]])
    else (given, a)
  }

  lemma {:induction false} TranscriptExtends(capacity: nat, client: Client, rest: seq<Byte>, given: seq<seq<Byte>>)
    ensures given <= Transcript(capacity, client, rest, given).0
    decreases |rest|
  {
    var a := Expected(capacity, rest, client(given));
    if a.Block? && a.length > 0 {
      TranscriptExtends(capacity, client, rest[a.length..], given + [rest[..a.length]]);
    }
  }

  /** A block that the bytes so far allow stays the answer when the stream goes on. */
  lemma BlockStays(capacity: nat, s: seq<Byte>, t: seq<Byte>, q: Request)
    requires s <= t && Expected(capacity, s, q).Block?
    ensures Expected(capacity, t, q) == Expected(capacity, s, q)
  {
    match q
    case Exactly(n) =>
    case Until(d) => ShortestGrows(s[..Min(capacity, |s|)], t[..Min(capacity, |t|)], d, |d|);
  }

  /** The blocks that a stream allows begin those of every longer stream. */
  lemma {:induction false} LongerStream(capacity: nat, client: Client, s: seq<Byte>, t: seq<Byte>,
      given: seq<seq<Byte>>)
    requires s <= t
    ensures Transcript(capacity, client, s, given).0 <= Transcript(capacity, client, t, given).0
    decreases |s|
  {
    var a := Expected(capacity, s, client(given));
    if a.Block? && a.length > 0 {
      BlockStays(capacity, s, t, client(given));
      assert s[..a.length] == t[..a.length];
      LongerStream(capacity, client, s[a.length..], t[a.length..], given + [s[..a.length]]);
    } else {
      TranscriptExtends(capacity, client, t, given);
    }
  }

  // ---------- The socket and the buffer ----------

  datatype ReadEvent = Gives(count: nat) | Blocks | Fails

  const PEER_CLOSED := 0
  const WOULD_BLOCK := -1
  const IO_ERROR := -2
  const TOO_MUCH_DATA := -3

  /** A socket that delivers a fixed stream in arbitrary chunks and closes at its end. */
  class Source {
    const stream: seq<Byte>
    var received: nat
    var future: seq<ReadEvent>

    ghost predicate Valid() reads this { received <= |stream| }

    constructor (stream: seq<Byte>, future: seq<ReadEvent>)
      ensures Valid() && this.stream == stream && received == 0 && this.future == future
    {
      this.stream, this.future, received := stream, future, 0;
    }

    /** socket_read of at most `room` bytes, as the count or an error code. */
    method Read(room: nat) returns (r: int)
      requires Valid() && room > 0
      modifies this
      ensures Valid() && (r == PEER_CLOSED || r == WOULD_BLOCK || r == IO_ERROR || 1 <= r <= room)
      ensures received == old(received) + (if r > 0 then r else 0)
      ensures r == PEER_CLOSED ==> received == |stream|
      ensures |future| <= |old(future)|
      ensures old(future) != [] ==> |future| < |old(future)|
      ensures old(future) == [] ==> r == WOULD_BLOCK
    {
      if future == [] { return WOULD_BLOCK; }
      var e := future[0];
      future := future[1..];
      match e {
        case Blocks => r := WOULD_BLOCK;
        case Fails => r := IO_ERROR;
        case Gives(count) =>
          var most := Min(room, |stream| - received);
          r := if count == 0 || count > most then most else count;
          received := received + r;
      }
    }
  }

  lemma SubSlice(s: seq<Byte>, a: nat, b: nat, c: nat, d: nat)
    requires a <= b <= |s| && c <= d <= b - a
    ensures s[a..b][c..d] == s[a + c..a + d]
  {
    var t := s[a..b];
    forall i | 0 <= i < d - c ensures t[c..d][i] == s[a + c..a + d][i] { assert t[c + i] == s[a + (c + i)]; }
  }

  lemma WindowEnds(b: array<Byte>, r: nat, w: nat, d: seq<Byte>, k: nat)
    requires r <= w <= b.Length && |d| <= k <= w - r
    ensures EndsAt(b[r..w], d, k) <==> b[r + k - |d|..r + k] == d
  {
    SubSlice(b[..], r, w, k - |d|, k);
  }

  lemma Adjacent(s: seq<Byte>, a: nat, b: nat, c: nat)
    requires a <= b <= c <= |s|
    ensures s[a..b] + s[b..c] == s[a..c]
  {
  }

  class BufferedSocket {
    const source: Source
    const buffer: array<Byte>
    var readPtr: nat
    var writePtr: nat

    /** Every received byte is consumed or waits, in order, between the two pointers. */
    ghost predicate Valid()
      reads this, source, buffer
    {
      source.Valid() && readPtr <= writePtr <= buffer.Length && writePtr - readPtr <= source.received
      && buffer[readPtr..writePtr] == source.stream[Consumed()..source.received]
    }

    ghost function Consumed(): (n: int)
      reads this, source
    {
      source.received - (writePtr - readPtr)
    }

    /** The stream from the first byte not yet delivered. */
    ghost function Rest(): seq<Byte>
      requires Valid()
      reads this, source, buffer
    {
      source.stream[Consumed()..]
    }

    constructor (source: Source, capacity: nat)
      requires source.Valid() && source.received == 0
      ensures Valid() && this.source == source && buffer.Length == capacity && fresh(buffer) && Rest() == source.stream
    {
      this.source := source;
      buffer := new Byte[capacity](_ => 0);
      readPtr, writePtr := 0, 0;
    }

    /** reorganize_read_buffer. */
    method Reorganize()
      requires Valid()
      modifies this`readPtr, this`writePtr, buffer
      ensures Valid() && readPtr == 0 && Consumed() == old(Consumed())
    {
      var from, unread := readPtr, writePtr - readPtr;
      readPtr, writePtr := 0, unread;
      MoveToFront(from, unread);
    }

    /** memmove of n bytes at `from` to the start of the buffer. */
    method MoveToFront(from: nat, n: nat)
      requires from + n <= buffer.Length
      modifies buffer
      ensures buffer[..n] == old(buffer[from..from + n])
    {
      for i := 0 to n
        invariant forall j :: 0 <= j < i ==> buffer[j] == old(buffer[from + j])
        invariant forall j :: from + i <= j < buffer.Length ==> buffer[j] == old(buffer[j])
      {
        buffer[i] := buffer[from + i];
      }
    }

    /** fill_buffer: room for `count` more bytes, then one read. */
    method Fill(count: nat) returns (r: int)
      requires Valid() && count > 0
      modifies this`readPtr, this`writePtr, buffer, source
      ensures Valid() && Consumed() == old(Consumed())
      ensures r == TOO_MUCH_DATA <==> old(writePtr - readPtr) + count > buffer.Length
      ensures r == TOO_MUCH_DATA || r == PEER_CLOSED || r == WOULD_BLOCK || r == IO_ERROR || r > 0
      ensures source.received == old(source.received) + (if r > 0 then r else 0)
      ensures r == PEER_CLOSED ==> source.received == |source.stream|
      ensures |source.future| <= |old(source.future)|
      ensures r != TOO_MUCH_DATA && old(source.future) != [] ==> |source.future| < |old(source.future)|
      ensures r != TOO_MUCH_DATA && old(source.future) == [] ==> r == WOULD_BLOCK
    {
      if buffer.Length - writePtr < count {
        Reorganize();
        if buffer.Length - writePtr < count { return TOO_MUCH_DATA; }
      }
      r := Receive();
    }

    /** One read of as much as fits behind the write pointer. */
    method Receive() returns (r: int)
      requires Valid() && writePtr < buffer.Length
      modifies this`writePtr, buffer, source
      ensures Valid() && Consumed() == old(Consumed())
      ensures r == PEER_CLOSED || r == WOULD_BLOCK || r == IO_ERROR || r > 0
      ensures source.received == old(source.received) + (if r > 0 then r else 0)
      ensures r == PEER_CLOSED ==> source.received == |source.stream|
      ensures |source.future| <= |old(source.future)|
      ensures old(source.future) != [] ==> |source.future| < |old(source.future)|
      ensures old(source.future) == [] ==> r == WOULD_BLOCK
    {
      r := source.Read(buffer.Length - writePtr);
      if r > 0 {
        Adjacent(source.stream, Consumed() - r, source.received - r, source.received);
        Store(source.stream[source.received - r..source.received]);
      }
    }

    /** What socket_read stores behind the write pointer. */
    method Store(data: seq<Byte>)
      requires readPtr <= writePtr && writePtr + |data| <= buffer.Length
      modifies this`writePtr, buffer
      ensures writePtr == old(writePtr) + |data|
      ensures buffer[readPtr..writePtr] == old(buffer[readPtr..writePtr]) + data
    {
      forall i | 0 <= i < |data| { buffer[writePtr + i] := data[i]; }
      writePtr := writePtr + |data|;
    }

    /** The outcome of one call of a reader: a block, a request too large, or nothing yet. */
    twostate predicate Answered(q: Request, code: int, block: seq<Byte>)
      requires old(Valid()) && Valid()
      reads this, source, buffer
    {
      var before := old(Rest());
      var a := Expected(buffer.Length, before, q);
      || (code >= 0 && a == Block(code) && block == before[..code] && Rest() == before[code..])
      || (code == TOO_MUCH_DATA && a == TooMuch && block == [] && Rest() == before)
      || ((code == WOULD_BLOCK || code == IO_ERROR || code == PEER_CLOSED) && block == [] && Rest() == before
          && (source.received == |source.stream| ==> a == Starved)
          && (code == PEER_CLOSED ==> source.received == |source.stream|))
    }

    /** The bytes `count` deep into the buffer are those of the stream. */
    method Take(count: nat) returns (block: seq<Byte>)
      requires Valid() && count <= writePtr - readPtr
      modifies this`readPtr
      ensures Valid() && block == old(Rest())[..count] && Rest() == old(Rest())[count..]
    {
      block := buffer[readPtr..readPtr + count];
      ghost var s, c, unread := source.stream, Consumed(), writePtr - readPtr;
      SubSlice(buffer[..], readPtr, writePtr, 0, count);
      SubSlice(buffer[..], readPtr, writePtr, count, unread);
      SubSlice(s, c, c + unread, 0, count);
      SubSlice(s, c, c + unread, count, unread);
      assert s[c..][..count] == s[c..c + count] && s[c..][count..] == s[c + count..];
      readPtr := readPtr + count;
    }

    /** get_read_ptr. */
    method GetReadPtr(count: nat) returns (code: int, block: seq<Byte>)
      requires Valid()
      modifies this`readPtr, this`writePtr, buffer, source
      ensures Valid() && Answered(Exactly(count), code, block)
      ensures code == TOO_MUCH_DATA <==> count > buffer.Length
      ensures |source.future| <= |old(source.future)|
      ensures code == WOULD_BLOCK ==> old(source.future) == [] || |source.future| < |old(source.future)|
    {
      while true
        invariant Valid() && Rest() == old(Rest()) && |source.future| <= |old(source.future)|
        decreases |source.stream| - source.received
      {
        var available := writePtr - readPtr;
        if available >= count {
          block := Take(count);
          return count, block;
        }
        var r := Fill(count - available);
        if r <= 0 { return r, []; }
      }
    }

    /** jet_memmem: the end of the first occurrence of d in the unread bytes. */
    method Memmem(d: seq<Byte>) returns (r: Answer)
      requires Valid()
      ensures r == ShortestFrom(buffer[readPtr..writePtr], d, |d|)
    {
      hide EndsAt;
      var k := |d|;
      while k <= writePtr - readPtr
        invariant ShortestFrom(buffer[readPtr..writePtr], d, k) == ShortestFrom(buffer[readPtr..writePtr], d, |d|)
        invariant |d| <= k
      {
        WindowEnds(buffer, readPtr, writePtr, d, k);
        if buffer[readPtr + k - |d|..readPtr + k] == d { return Block(k); }
        k := k + 1;
      }
      r := Starved;
    }

    /** internal_read_until. */
    method ReadUntil(d: seq<Byte>) returns (code: int, block: seq<Byte>)
      requires Valid()
      modifies this`readPtr, this`writePtr, buffer, source
      ensures Valid() && Answered(Until(d), code, block)
      ensures |source.future| <= |old(source.future)|
      ensures code == WOULD_BLOCK ==> old(source.future) == [] || |source.future| < |old(source.future)|
    {
      while true
        invariant Valid() && Rest() == old(Rest()) && |source.future| <= |old(source.future)|
        decreases |source.stream| - source.received
      {
        ghost var rest, unread := Rest(), buffer[readPtr..writePtr];
        ghost var window := rest[..Min(buffer.Length, |rest|)];
        assert unread == rest[..|unread|] == window[..|unread|];
        var found := Memmem(d);
        if found.Block? {
          ShortestGrows(unread, window, d, |d|);
          block := Take(found.length);
          return found.length, block;
        }
        Unfound(buffer.Length, rest, unread, d);
        var r := Fill(1);
        if r <= 0 {
          assert source.received == |source.stream| ==> unread == rest;
          return r, [];
        }
      }
    }

    /** go_reading, called again by the event loop as long as the socket has a future. */
    method Serve(client: Client) returns (given: seq<seq<Byte>>, code: int)
      requires Valid()
      modifies this, buffer, source
      ensures Valid()
      ensures given <= Transcript(buffer.Length, client, old(Rest()), []).0
      ensures code == TOO_MUCH_DATA ==> Transcript(buffer.Length, client, old(Rest()), []) == (given, TooMuch)
      ensures code != TOO_MUCH_DATA && source.received == |source.stream| ==>
                given == Transcript(buffer.Length, client, old(Rest()), []).0
    {
      given := [];
      ghost var whole := Transcript(buffer.Length, client, Rest(), []);
      while true
        invariant Valid() && Transcript(buffer.Length, client, Rest(), given) == whole
        decreases |Rest()|, |source.future|
      {
        TranscriptExtends(buffer.Length, client, Rest(), given);
        var block: seq<Byte>;
        match client(given) {
          case Exactly(n) => code, block := GetReadPtr(n);
          case Until(d) => code, block := ReadUntil(d);
        }
        if code > 0 {
          given := given + [block];
        } else if code != WOULD_BLOCK || source.future == [] {
          return;
        }
      }
    }
  }

  /** Two connections that carry the same stream, however differently it is cut, give a client the
      same blocks: one run is a prefix of the other, and they are equal once both have received
      the whole stream. */
  method ReadIndependence(stream: seq<Byte>, cut1: seq<ReadEvent>, cut2: seq<ReadEvent>, capacity: nat, client: Client)
    returns (given1: seq<seq<Byte>>, given2: seq<seq<Byte>>, all1: bool, all2: bool)
    ensures given1 <= given2 || given2 <= given1
    ensures all1 && all2 ==> given1 == given2
    ensures all1 ==> given1 == Transcript(capacity, client, stream, []).0
  {
    var source1 := new Source(stream, cut1);
    var socket1 := new BufferedSocket(source1, capacity);
    var code1, code2;
    given1, code1 := socket1.Serve(client);
    all1 := source1.received == |stream|;
    var source2 := new Source(stream, cut2);
    var socket2 := new BufferedSocket(source2, capacity);
    given2, code2 := socket2.Serve(client);
    all2 := source2.received == |stream|;
    ghost var t := Transcript(capacity, client, stream, []).0;
    assert given1 == t[..|given1|] && given2 == t[..|given2|];
  }
}
