/** Whole calls of http_parser_execute, src/http-parser/http_parser.c, byte by byte. */
module HttpRuns {
  import opened HttpState
  import opened HttpSteps

  /** What the callbacks are given: the bytes of the strings, one by one, and the notes. */
  datatype Item = Piece(kind: Kind, b: Byte) | Noted(note: Note)

  /** The answer of the headers_complete callback, from everything given before. */
  type Choice = seq<Item> -> nat

  function Pieces(k: Kind, s: seq<Byte>): (r: seq<Item>)
    ensures |r| == |s|
  {
    seq(|s|, i requires 0 <= i < |s| => Piece(k, s[i]))
  }

  lemma PiecesOfSum(k: Kind, s: seq<Byte>, t: seq<Byte>)
    ensures Pieces(k, s + t) == Pieces(k, s) + Pieces(k, t)
  {
  }

  /** Within a call: the record and its count of header bytes, whether the last byte was read by the loop
      over a name or a value, and whether that loop skips bytes, what was given to the callbacks, the bytes
      that wait behind a mark, whether the call has ended early, and how many bytes it has used. */
  datatype Config = Config(p: Parser, nread: nat, looping: bool, skipping: bool, items: seq<Item>, pending: seq<Byte>,
                           halted: bool, used: nat)

  /** A value that is not looked at any more. */
  predicate IgnoresValue(p: Parser)
  {
    p.state.HeaderValue? && p.headerState.General?
  }

  predicate Running(c: Config)
  {
    Valid(c.p) && !c.halted && (c.pending != [] ==> KindOf(c.p.state) != NoString) && (c.skipping ==> IgnoresValue(c.p))
    && (c.looping ==> c.p.state.HeaderField? || c.p.state.HeaderValue?)
  }

  function ItemsAfter(c: Config, a: Action, pending: seq<Byte>): seq<Item>
  {
    match a.emit
    case Nothing => c.items
    case Notify(n) => c.items + [Noted(n)]
    case Deliver(k) => c.items + Pieces(k, pending)
  }

  predicate InLoop(p: Parser, q: Parser)
  {
    (p.state.HeaderField? && q.state.HeaderField?) || (p.state.HeaderValue? && q.state.HeaderValue?)
  }

  /** The effect of one action. */
  function After(c: Config, a: Action, ch: Byte, choose: Choice): Config
  {
    var pending := if a.take then c.pending + [ch] else c.pending;
    Config(if a.emit == Notify(HeadersComplete) then Answered(a.p, choose(c.items)) else a.p,
           if ResetsCount(c.p.state) && !a.next.Failed? then 0 else c.nread,
           InLoop(c.p, a.p),
           IgnoresValue(c.p) && IgnoresValue(a.p),
           ItemsAfter(c, a, pending),
           if a.emit.Deliver? then [] else pending,
           a.next.Exit? || a.next.Failed?,
           if a.next.Consume? || a.next.Exit? then c.used + 1 else c.used)
  }

  lemma AfterRunning(c: Config, a: Action, ch: Byte, choose: Choice)
    requires Running(c) && Sound(c.p, a)
    ensures var d := After(c, a, ch, choose);
            Valid(d.p) && (!d.halted ==> Running(d))
                && (a.next.Again? ==> !d.halted && Rank(d.p.state) < Rank(c.p.state))
            && (!a.next.Failed? ==> d.p.errno == c.p.errno)
  {
  }

  /** What happens at one byte once it is counted. */
  function Settle(c: Config, ch: Byte, choose: Choice): (d: Config)
    requires Running(c)
    ensures Valid(d.p) && (!d.halted ==> Running(d) && d.used == c.used + 1) && c.used <= d.used <= c.used + 1
    ensures !d.halted ==> d.p.errno == c.p.errno
    decreases Rank(c.p.state)
  {
    var a := Transition(c.p, c.skipping, ch);
    EveryStepSound(c.p, c.skipping, ch);
    AfterRunning(c, a, ch, choose);
    var d := After(c, a, ch, choose);
    if a.next.Again? then Settle(d, ch, choose) else d
  }

  lemma SettleOnce(c: Config, a: Action, ch: Byte, choose: Choice)
    requires Running(c) && a == Transition(c.p, c.skipping, ch)
    ensures a.next.Again? ==> Running(After(c, a, ch, choose))
    ensures Settle(c, ch, choose)
            == if a.next.Again? then Settle(After(c, a, ch, choose), ch, choose) else After(c, a, ch, choose)
  {
    hide Transition, After, Sound, Rank;
    EveryStepSound(c.p, c.skipping, ch);
    AfterRunning(c, a, ch, choose);
  }

  /** COUNT_HEADER_SIZE(1), without its limit. */
  function Counted(c: Config): Config
  {
    if ParsingHeader(c.p.state) then c.(nread := c.nread + 1) else c
  }

  /** All that happens at one byte. */
  function Next(c: Config, ch: Byte, choose: Choice): (d: Config)
    requires Running(c)
    ensures Valid(d.p) && (!d.halted ==> Running(d) && d.used == c.used + 1) && c.used <= d.used <= c.used + 1
    ensures !d.halted ==> d.p.errno == c.p.errno
  {
    Settle(Counted(c), ch, choose)
  }

  /** The bytes of a call up to its end. */
  function Fold(c: Config, data: seq<Byte>, choose: Choice): (d: Config)
    requires Running(c)
    ensures Valid(d.p) && (!d.halted ==> Running(d) && d.used == c.used + |data|) && d.used <= c.used + |data|
    ensures !d.halted ==> d.p.errno == c.p.errno
    decreases |data|
  {
    if data == [] then c
    else
      var d := Fold(c, data[..|data| - 1], choose);
      if d.halted then d else Next(d, data[|data| - 1], choose)
  }

  function Begin(p: Parser, nread: nat, items: seq<Item>): Config
  {
    Config(p, nread, false, false, items, [], false, 0)
  }

  /** The end of a call that has not ended early: what is behind a mark is delivered, and a loop over a name
      or a value that is cut off has counted one byte twice. */
  function Flush(c: Config): Config
  {
    if c.halted then c
    else c.(items := c.items + Pieces(KindOf(c.p.state), c.pending), pending := [],
            nread := if c.looping then c.nread + 1 else c.nread, looping := false, skipping := false)
  }

  /** A call without bytes, which stands for the end of the stream. */
  function AtEof(p: Parser, nread: nat, items: seq<Item>): Config
  {
    var c := Begin(p, nread, items);
    if p.state.BodyIdentityEof? then c.(items := items + [Noted(MessageComplete)])
    else if p.state.Dead? || p.state.StartReqOrRes? || p.state.StartRes? || p.state.StartReq? then c
    else c.(p := p.(errno := InvalidEofState), halted := true, used := 1)
  }

  /** A whole call; a record with an error uses nothing. */
  function Call(p: Parser, nread: nat, items: seq<Item>, data: seq<Byte>, choose: Choice): (c: Config)
    requires Valid(p)
    ensures Valid(c.p) && (!c.halted ==> c.used == |data| && c.p.errno == NoError)
  {
    if p.errno != NoError then Begin(p, nread, items).(halted := true)
    else if data == [] then AtEof(p, nread, items)
    else Flush(Fold(Begin(p, nread, items), data, choose))
  }

  lemma {:induction false} FoldSplit(c: Config, a: seq<Byte>, b: seq<Byte>, choose: Choice)
    requires Running(c)
    ensures var d := Fold(c, a, choose);
            Fold(c, a + b, choose) == if d.halted then d else Fold(d, b, choose)
    decreases |b|
  {
    hide Next;
    if b == [] {
      assert a + b == a;
    } else {
      var n := |b| - 1;
      FoldSplit(c, a, b[..n], choose);
      assert (a + b)[..|a + b| - 1] == a + b[..n] && (a + b)[|a + b| - 1] == b[n];
    }
  }

  lemma FoldNone(c: Config, choose: Choice)
    requires Running(c)
    ensures Fold(c, [], choose) == c
  {
    hide Next;
  }

  lemma FoldOne(c: Config, ch: Byte, choose: Choice)
    requires Running(c)
    ensures Fold(c, [ch], choose) == Next(c, ch, choose)
  {
    hide Next;
    assert [ch][..0] == [];
    FoldNone(c, choose);
  }

  /** What a byte does if it is looked at once. */
  lemma NextIs(c: Config, a: Action, ch: Byte, choose: Choice)
    requires Running(c) && a == Transition(c.p, c.skipping, ch) && !a.next.Again?
    ensures Next(c, ch, choose) == After(Counted(c), a, ch, choose)
  {
    hide Transition, After, Rank;
  }

  /** What a byte does if it is looked at again. */
  lemma NextAgain(c: Config, a: Action, b: Action, ch: Byte, choose: Choice)
    requires Running(c) && a == Transition(c.p, c.skipping, ch) && a.next.Again?
    requires var d := After(Counted(c), a, ch, choose); Running(d) && b == Transition(d.p, d.skipping, ch)
                                                        && !b.next.Again?
    ensures Next(c, ch, choose) == After(After(Counted(c), a, ch, choose), b, ch, choose)
  {
    hide Transition, After, Rank;
    var d := After(Counted(c), a, ch, choose);
    assert Settle(Counted(c), ch, choose) == Settle(d, ch, choose);
    assert Settle(d, ch, choose) == After(d, b, ch, choose);
  }

  lemma FoldNext(c: Config, data: seq<Byte>, i: nat, choose: Choice)
    requires Running(c) && i < |data|
    ensures var d := Fold(c, data[..i], choose);
            Fold(c, data[..i + 1], choose) == if d.halted then d else Next(d, data[i], choose)
  {
    hide Next;
    assert data[..i + 1][..i] == data[..i];
  }

  lemma {:induction false} HaltedStays(c: Config, b: seq<Byte>, i: nat, choose: Choice)
    requires Running(c) && i <= |b| && Fold(c, b[..i], choose).halted
    ensures Fold(c, b, choose) == Fold(c, b[..i], choose)
    decreases |b|
  {
    hide Next;
    if i < |b| {
      assert b[..|b| - 1][..i] == b[..i];
      HaltedStays(c, b[..|b| - 1], i, choose);
    } else {
      assert b[..i] == b;
    }
  }

  // ---------- What is given only grows ----------

  lemma {:induction false} SettleItems(c: Config, ch: Byte, choose: Choice)
    requires Running(c)
    ensures c.items <= Settle(c, ch, choose).items
    decreases Rank(c.p.state)
  {
    hide Transition, Sound, Rank, Pieces;
    var a := Transition(c.p, c.skipping, ch);
    EveryStepSound(c.p, c.skipping, ch);
    AfterRunning(c, a, ch, choose);
    if a.next.Again? { SettleItems(After(c, a, ch, choose), ch, choose); }
  }

  /** What one action gives is part of it. */
  lemma ActionItems(c: Config, a: Action, ch: Byte, choose: Choice)
    requires Running(c) && a == Transition(c.p, c.skipping, ch)
    ensures After(c, a, ch, choose).items <= Settle(c, ch, choose).items
  {
    hide Transition, After, Rank, Sound;
    SettleOnce(c, a, ch, choose);
    if a.next.Again? { SettleItems(After(c, a, ch, choose), ch, choose); }
  }

  lemma {:induction false} FoldItems(c: Config, s: seq<Byte>, i: nat, choose: Choice)
    requires Running(c) && i <= |s|
    ensures Fold(c, s[..i], choose).items <= Fold(c, s, choose).items
    decreases |s|
  {
    hide Settle;
    if i < |s| {
      var n := |s| - 1;
      FoldItems(c, s[..n], i, choose);
      assert s[..n][..i] == s[..i];
      var d := Fold(c, s[..n], choose);
      if !d.halted { SettleItems(Counted(d), s[n], choose); }
    } else {
      assert s[..i] == s;
    }
  }
}
