/** The places where http_parser_execute, src/http-parser/http_parser.c, moves over many bytes at once. */
module HttpBulk {
  import opened HttpState
  import opened HttpSteps
  import opened HttpRuns
  import opened HttpBodies

  lemma FoldStep(c: Config, data: seq<Byte>, i: nat, j: nat, choose: Choice)
    requires Running(c) && i <= j < |data|
    ensures var d := Fold(c, data[i..j], choose);
            Fold(c, data[i..j + 1], choose) == if d.halted then d else Next(d, data[j], choose)
  {
    hide Next;
    FoldOver(c, data[i..j + 1], data[i..j], data[j], choose);
  }

  lemma FoldOver(c: Config, s: seq<Byte>, t: seq<Byte>, ch: Byte, choose: Choice)
    requires Running(c) && s == t + [ch]
    ensures Fold(c, s, choose) == if Fold(c, t, choose).halted then Fold(c, t, choose)
        else Next(Fold(c, t, choose), ch, choose)
  {
    hide Next;
    assert s[..|s| - 1] == t;
  }

  /** A call that has ended does not look at the rest. */
  lemma EndsHere(c: Config, data: seq<Byte>, i: nat, j: nat, choose: Choice)
    requires Running(c) && i <= j <= |data| && Fold(c, data[i..j], choose).halted
    ensures Fold(c, data[i..], choose) == Fold(c, data[i..j], choose)
  {
    hide Fold;
    assert data[i..][..j - i] == data[i..j];
    HaltedStays(c, data[i..], j - i, choose);
  }

  // ---------- Header names ----------

  /** Some bytes of a name or a value, read by its loop. */
  function Looped(c: Config, q: Parser, s: seq<Byte>, skipping: bool): Config
  {
    c.(p := q, nread := c.nread + |s|, looping := c.looping || s != [], skipping := skipping, pending := c.pending + s,
       used := c.used + |s|)
  }

  lemma LoopedNext(c: Config, q: Parser, s: seq<Byte>, ch: Byte, k: bool, r: Parser, l: bool)
    ensures Looped(Looped(c, q, s, k), r, [ch], l) == Looped(c, r, s + [ch], l)
  {
    assert (c.pending + s) + [ch] == c.pending + (s + [ch]);
  }

  lemma LoopedNone(c: Config)
    ensures Looped(c, c.p, [], c.skipping) == c
  {
    assert c.pending + [] == c.pending;
  }

  lemma NameAction(p: Parser, ch: Byte)
    requires Valid(p) && p.state.HeaderField? && IsToken(ch)
    ensures Transition(p, false, ch) == Take(NameChar(p, TokenOf(ch)))
  {
    hide NameChar, TokenOf, IsToken;
  }

  lemma NameNext(c: Config, ch: Byte, choose: Choice)
    requires Running(c) && c.p.state.HeaderField? && IsToken(ch)
    ensures var q := NameChar(c.p, TokenOf(ch));
            Valid(q) && q.state.HeaderField? && q.errno == c.p.errno && Next(c, ch, choose) == Looped(c, q, [ch], false)
  {
    hide Next, Transition, NameChar, TokenOf, IsToken, Valid;
    NameAction(c.p, ch);
    NameSound(c.p, TokenOf(ch));
    NextIs(c, Take(NameChar(c.p, TokenOf(ch))), ch, choose);
  }

  // ---------- Header values ----------

  predicate LineEnd(ch: Byte) { ch == '\r' || ch == '\n' }

  lemma ValueAction(p: Parser, skipping: bool, ch: Byte)
    requires Valid(p) && p.state.HeaderValue? && !LineEnd(ch)
    ensures skipping || p.lenient || IsHeaderChar(ch) ==> Transition(p, skipping, ch) == ValueChar(p, ch)
    ensures !(skipping || p.lenient || IsHeaderChar(ch)) ==>
              Transition(p, skipping, ch) == Fail(p.(headerState := General), InvalidHeaderToken)
  {
    hide ValueChar, IsHeaderChar;
  }

  lemma ValueNext(c: Config, ch: Byte, choose: Choice)
    requires Running(c) && c.p.state.HeaderValue? && !LineEnd(ch) && (c.skipping || c.p.lenient || IsHeaderChar(ch))
    requires !ValueChar(c.p, ch).next.Failed?
    ensures var q := ValueChar(c.p, ch).p;
            Valid(q) && q.state.HeaderValue? && q.errno == c.p.errno
            && Next(c, ch, choose) == Looped(c, q, [ch], IgnoresValue(c.p) && IgnoresValue(q))
  {
    hide Next, Transition, ValueChar, IsHeaderChar, Valid;
    ValueAction(c.p, c.skipping, ch);
    ValueSound(c.p, ch);
    NextIs(c, ValueChar(c.p, ch), ch, choose);
  }

  /** A value that is ignored is skipped up to its line end. */
  lemma {:induction false} SkipRun(c: Config, s: seq<Byte>, choose: Choice)
    requires Running(c) && IgnoresValue(c.p) && s != [] && (c.skipping || c.p.lenient || IsHeaderChar(s[0]))
    requires forall k :: 0 <= k < |s| ==> !LineEnd(s[k])
    ensures Fold(c, s, choose) == Looped(c, c.p, s, true)
    decreases |s|
  {
    hide Next, IsHeaderChar, Valid;
    var n := |s| - 1;
    if n == 0 {
      assert s == [s[0]];
      FoldOne(c, s[0], choose);
      ValueNext(c, s[0], choose);
    } else {
      SkipRun(c, s[..n], choose);
      var d := Looped(c, c.p, s[..n], true);
      ValueNext(d, s[n], choose);
      LoopedNext(c, c.p, s[..n], s[n], true, c.p, true);
      assert s[..n] + [s[n]] == s;
    }
  }

  // ---------- Bodies ----------

  lemma EofAction(p: Parser, ch: Byte)
    requires Valid(p) && p.state.BodyIdentityEof?
    ensures Transition(p, false, ch) == Take(p)
  {
  }

  /** A body up to the end of the stream. */
  lemma {:induction false} EofRun(c: Config, s: seq<Byte>, choose: Choice)
    requires Running(c) && c.p.state.BodyIdentityEof?
    ensures Fold(c, s, choose) == c.(pending := c.pending + s, used := c.used + |s|)
    decreases |s|
  {
    hide Next;
    if s == [] {
      assert c.pending + s == c.pending;
    } else {
      var n := |s| - 1;
      EofRun(c, s[..n], choose);
      assert (c.pending + s[..n]) + [s[n]] == c.pending + s;
      EofNext(c.(pending := c.pending + s[..n], used := c.used + n), s[n], choose);
    }
  }

  lemma EofNext(c: Config, ch: Byte, choose: Choice)
    requires Running(c) && c.p.state.BodyIdentityEof?
    ensures Next(c, ch, choose) == c.(pending := c.pending + [ch], used := c.used + 1)
  {
    hide Next, Transition;
    EofAction(c.p, ch);
    NextIs(c, Take(c.p), ch, choose);
  }

  /** The last byte of a body with a length: the body is delivered, and the byte is looked at again. */
  function BodyDone(c: Config, ch: Byte): Config
  {
    Config(c.p.(contentLength := 0, state := MessageDone), c.nread, false, false, c.items
        + Pieces(Body, c.pending + [ch]),
           [], false, c.used)
  }

  lemma BodyDoneNext(c: Config, ch: Byte, choose: Choice)
    requires Running(c) && c.p.state.BodyIdentity? && c.p.contentLength == 1
    ensures Running(BodyDone(c, ch)) && Next(c, ch, choose) == Settle(BodyDone(c, ch), ch, choose)
  {
    hide Transition;
    IdentityAction(c.p, ch);
    var q := c.p.(contentLength := 0, state := MessageDone);
    assert After(Counted(c), Action(q, true, Deliver(Body), Again), ch, choose) == BodyDone(c, ch);
  }

  // ---------- The loops, step by step ----------

  lemma NameLoopStep(c: Config, q: Parser, s: seq<Byte>, ch: Byte, choose: Choice)
    requires Running(c) && c.p.state.HeaderField? && IsToken(ch)
    requires Valid(q) && q.state.HeaderField? && Fold(c, s, choose) == Looped(c, q, s, false)
    ensures Fold(c, s + [ch], choose) == Looped(c, NameChar(q, TokenOf(ch)), s + [ch], false)
  {
    hide Fold, Next, NameChar, TokenOf, IsToken, Valid;
    FoldOver(c, s + [ch], s, ch, choose);
    NameNext(Looped(c, q, s, false), ch, choose);
    LoopedNext(c, q, s, ch, false, NameChar(q, TokenOf(ch)), false);
  }

  lemma ValueLooped(c: Config, q: Parser, s: seq<Byte>)
    requires Running(c) && c.p.state.HeaderValue? && q.state.HeaderValue?
    ensures var d := Looped(c, q, s, false);
            d.p == q && !d.skipping && (Valid(q) && !d.halted ==> Running(d)) && (Running(d) ==> Valid(q))
  {
  }

  lemma LoopedSum(c: Config, q: Parser, s: seq<Byte>, t: seq<Byte>)
    requires t != []
    ensures Looped(Looped(c, q, s, false), q, t, true) == Looped(c, q, s + t, true)
  {
    assert (c.pending + s) + t == c.pending + (s + t);
  }

  lemma ValueLoopStep(c: Config, q: Parser, s: seq<Byte>, ch: Byte, r: Parser, choose: Choice)
    requires Running(c) && c.p.state.HeaderValue? && !LineEnd(ch) && q.state.HeaderValue?
        && (q.lenient || IsHeaderChar(ch))
    requires !ValueChar(q, ch).next.Failed? && r == ValueChar(q, ch).p
    requires Fold(c, s, choose) == Looped(c, q, s, false)
    ensures Fold(c, s + [ch], choose) == Looped(c, r, s + [ch], IgnoresValue(q) && IgnoresValue(r))
  {
    ValueLooped(c, q, s);
    hide Fold, Next, ValueChar, IsHeaderChar, IgnoresValue, Valid, Running;
    FoldOver(c, s + [ch], s, ch, choose);
    ValueNext(Looped(c, q, s, false), ch, choose);
    LoopedNext(c, q, s, ch, false, r, IgnoresValue(q) && IgnoresValue(r));
  }

  lemma ValueLoopSkips(c: Config, q: Parser, s: seq<Byte>, t: seq<Byte>, choose: Choice)
    requires Running(c) && c.p.state.HeaderValue? && IgnoresValue(q) && t != [] && (q.lenient || IsHeaderChar(t[0]))
    requires forall x :: 0 <= x < |t| ==> !LineEnd(t[x])
    requires Fold(c, s, choose) == Looped(c, q, s, false)
    ensures Fold(c, s + t, choose) == Looped(c, q, s + t, true)
  {
    ValueLooped(c, q, s);
    hide Fold, IsHeaderChar, IgnoresValue, Valid, Running, LineEnd;
    SkipRun(Looped(c, q, s, false), t, choose);
    FoldSplit(c, s, t, choose);
    LoopedSum(c, q, s, t);
  }

  /** One byte behind the bytes of a loop. */
  lemma OneMore(c: Config, data: seq<Byte>, i: nat, j: nat, d: Config, a: Action, choose: Choice)
    requires Running(c) && i <= j < |data| && Fold(c, data[i..j], choose) == d && Running(d)
    requires a == Transition(d.p, d.skipping, data[j]) && !a.next.Again?
    ensures var e := After(Counted(d), a, data[j], choose);
            Fold(c, data[i..j + 1], choose) == e && (e.halted ==> Fold(c, data[i..], choose) == e)
  {
    hide Fold, Next, After, Transition, Valid;
    FoldStep(c, data, i, j, choose);
    NextIs(d, a, data[j], choose);
    if After(Counted(d), a, data[j], choose).halted { EndsHere(c, data, i, j + 1, choose); }
  }

  lemma NameEndAction(p: Parser, ch: Byte)
    requires p.state.HeaderField? && Valid(p) && !IsToken(ch)
    ensures var a := ReadName(p, ch);
            (a.p.state.HeaderField? || a.p.state.ValueDiscardWs?) && (a.next.Consume? || a.next.Failed?)
  {
    hide IsToken, NameChar, TokenOf, Valid;
  }

  lemma NameEnds(d: Config, ch: Byte, choose: Choice)
    requires Running(d) && d.p.state.HeaderField? && !IsToken(ch)
    ensures var a := ReadName(d.p, ch); var e := After(Counted(d), a, ch, choose);
            a == Transition(d.p, d.skipping, ch) && !a.next.Again? && !a.next.Exit?
                && (!a.next.Failed? ==> !e.looping && !e.skipping)
            && e.halted == a.next.Failed? && e.used == if a.next.Failed? then d.used else d.used + 1
  {
    hide IsToken, NameChar, TokenOf;
  }

  /** What the line end behind a value does. */
  function EndAction(p: Parser, ch: Byte): Action
  {
    Action(p.(state := HeaderAlmostDone), false, HttpSteps.Deliver(Value), if ch == '\r' then Consume else Again)
  }

  /** The configuration behind it. */
  function ValueGiven(d: Config, ch: Byte): Config
  {
    d.(p := d.p.(state := HeaderAlmostDone), looping := false, skipping := false,
       items := d.items + Pieces(Value, d.pending), pending := [], used := if ch == '\r' then d.used + 1 else d.used)
  }

  lemma ValueEnds(d: Config, ch: Byte, choose: Choice)
    requires Running(d) && d.p.state.HeaderValue? && LineEnd(ch)
    ensures EndAction(d.p, ch) == Transition(d.p, d.skipping, ch) && Sound(d.p, EndAction(d.p, ch))
    ensures After(d, EndAction(d.p, ch), ch, choose) == ValueGiven(d, ch)
  {
    hide ValueChar, IsHeaderChar;
    ValueEndSound(d.p, d.skipping, ch);
  }

  /** The loop over a value stops at a byte that it refuses. */
  lemma ValueLoopFails(c: Config, q: Parser, data: seq<Byte>, i: nat, j: nat, choose: Choice)
    requires Running(c) && c.p.state.HeaderValue? && i <= j < |data| && !LineEnd(data[j]) && q.state.HeaderValue?
    requires Fold(c, data[i..j], choose) == Looped(c, q, data[i..j], false)
    requires !(q.lenient || IsHeaderChar(data[j])) || ValueChar(q, data[j]).next.Failed?
    ensures var d := Fold(c, data[i..], choose);
            d.halted && d.items == c.items && d.used == c.used + (j - i)
            && d.p == if q.lenient || IsHeaderChar(data[j]) then q.(errno := InvalidContentLength)
                      else q.(headerState := General, errno := InvalidHeaderToken)
  {
    ValueLooped(c, q, data[i..j]);
    hide Fold, Next, ValueChar, IsHeaderChar, Valid, Transition, Running;
    var d := Looped(c, q, data[i..j], false);
    ValueAction(q, false, data[j]);
    ValueSound(q, data[j]);
    OneMore(c, data, i, j, d, Transition(q, false, data[j]), choose);
  }

  /** One byte that is looked at again behind the bytes of a loop. */
  lemma OneMoreAgain(c: Config, data: seq<Byte>, i: nat, j: nat, d: Config, a: Action, choose: Choice)
    requires Running(c) && i <= j < |data| && Fold(c, data[i..j], choose) == d && Running(d)
    requires a == Transition(d.p, d.skipping, data[j]) && a.next.Again?
    ensures var e := After(Counted(d), a, data[j], choose);
            Running(e) && Fold(c, data[i..j + 1], choose) == Settle(e, data[j], choose)
  {
    hide Fold, After, Transition, Valid;
    FoldStep(c, data, i, j, choose);
    SettleOnce(Counted(d), a, data[j], choose);
  }

  /** Some bytes lead to another look at the last of them in configuration e. */
  ghost predicate FoldsTo(c: Config, e: Config, data: seq<Byte>, i: nat, at: nat, choose: Choice)
  {
    && Running(c) && Running(e) && i <= at < |data| && !e.skipping && e.used == at
    && var f := Settle(e, data[at], choose);
       && Fold(c, data[i..at + 1], choose) == f && (f.halted ==> Fold(c, data[i..], choose) == f)
       && (!f.halted ==> !f.looping && !f.skipping && f.used == at + 1)
  }

  /** The last byte of a body with a length, behind the others. */
  lemma BodyEnds(c: Config, data: seq<Byte>, i: nat, j: nat, choose: Choice)
    requires Running(c) && i <= j < |data| && c.p.state.BodyIdentity? && c.p.contentLength == j + 1 - i && c.used == i
    ensures FoldsTo(c, Config(c.p.(contentLength := 0, state := MessageDone), c.nread, false, false,
                              c.items + Pieces(Body, c.pending + data[i..j + 1]), [], false, j), data, i, j, choose)
  {
    hide Fold, Next, Settle, Transition, Valid;
    var d := c.(p := c.p.(contentLength := 1), pending := c.pending + data[i..j], used := c.used + (j - i));
    IdentityPart(c, data[i..j], choose);
    FoldStep(c, data, i, j, choose);
    BodyDoneNext(d, data[j], choose);
    assert d.pending + [data[j]] == c.pending + data[i..j + 1];
    DoneSettles(BodyDone(d, data[j]), data[j], choose);
    if Fold(c, data[i..j + 1], choose).halted { EndsHere(c, data, i, j + 1, choose); }
  }

  lemma DoneSettles(c: Config, ch: Byte, choose: Choice)
    requires Running(c) && c.p.state.MessageDone?
    ensures !Settle(c, ch, choose).looping && !Settle(c, ch, choose).skipping
  {
    MessageDoneAction(c.p, ch);
    hide Transition, NewMessage;
  }

  lemma {:induction false} OrdinarySettles(c: Config, ch: Byte, choose: Choice)
    requires Running(c) && !c.p.state.HeaderField? && !c.p.state.HeaderValue?
    ensures var d := Settle(c, ch, choose); !d.halted ==> !d.looping && !d.skipping
    decreases Rank(c.p.state)
  {
    hide Transition, Rank, Settle, Valid;
    var a := Transition(c.p, c.skipping, ch);
    EveryStepSound(c.p, c.skipping, ch);
    SettleOnce(c, a, ch, choose);
    if a.next.Again? { OrdinarySettles(After(c, a, ch, choose), ch, choose); }
  }

  /** One byte, looked at as often as it takes. */
  lemma OneByte(c: Config, data: seq<Byte>, i: nat, choose: Choice)
    requires Running(c) && i < |data| && !c.p.state.HeaderField? && !c.p.state.HeaderValue? && !c.skipping
        && c.used == i
    ensures FoldsTo(c, Counted(c), data, i, i, choose)
  {
    hide Fold, Settle;
    FoldNone(c, choose);
    assert data[i..i] == [];
    FoldStep(c, data, i, i, choose);
    OrdinarySettles(Counted(c), data[i], choose);
    if Fold(c, data[i..i + 1], choose).halted { EndsHere(c, data, i, i + 1, choose); }
  }
}
