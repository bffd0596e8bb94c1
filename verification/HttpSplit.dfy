/** What splitting the input of http_parser_execute, src/http-parser/http_parser.c, changes. */
module HttpSplit {
  import opened HttpState
  import opened HttpSteps
  import opened HttpRuns

  /** The same parser in a run over the whole input and in one that was cut: the cut run has delivered the
      bytes of `lead` already that the other one may still hold behind its mark. */
  predicate Twins(w: Config, s: Config, k: Kind, lead: seq<Byte>, base: seq<Item>, n: nat)
  {
    w.p == s.p && w.halted == s.halted && w.used == n + s.used
    && (Behind(w, s, k, lead, base)
        || (w.items == s.items && w.pending == s.pending && |w.items| >= |base| + |lead|))
  }

  predicate Behind(w: Config, s: Config, k: Kind, lead: seq<Byte>, base: seq<Item>)
  {
    w.pending == lead + s.pending && w.items == base && s.items == base + Pieces(k, lead)
    && (!w.halted ==> KindOf(w.p.state) == k)
  }

  /** While the bytes are still behind the mark, an action keeps them there or delivers them. */
  lemma BehindAfter(w: Config, s: Config, k: Kind, lead: seq<Byte>, base: seq<Item>, a: Action, ch: Byte,
      choose: Choice)
    requires Behind(w, s, k, lead, base) && !w.halted && k != NoString && w.p == s.p && Sound(w.p, a)
    ensures var v, t := After(w, a, ch, choose), After(s, a, ch, choose);
            v.p == t.p && (Behind(v, t, k, lead, base)
                           || (v.items == t.items && v.pending == t.pending && |v.items| >= |base| + |lead|))
  {
    hide Valid, Rank, Ordinary;
    var more := if a.take then s.pending + [ch] else s.pending;
    assert (lead + s.pending) + [ch] == lead + (s.pending + [ch]);
    PiecesOfSum(k, lead, more);
    if a.emit.Deliver? {
      assert w.items + (Pieces(k, lead) + Pieces(k, more)) == (w.items + Pieces(k, lead)) + Pieces(k, more);
    }
  }

  lemma TwinsAfter(w: Config, s: Config, k: Kind, lead: seq<Byte>, base: seq<Item>, n: nat, a: Action, ch: Byte,
                   choose: Choice)
    requires Twins(w, s, k, lead, base, n) && !w.halted && k != NoString && Sound(w.p, a)
    ensures var v, t := After(w, a, ch, choose), After(s, a, ch, choose);
            Twins(v, t, k, lead, base, n) && v.skipping == t.skipping
  {
    hide Sound, Pieces;
    if Behind(w, s, k, lead, base) { BehindAfter(w, s, k, lead, base, a, ch, choose); }
  }

  lemma {:induction false} TwinsSettle(w: Config, s: Config, k: Kind, lead: seq<Byte>, base: seq<Item>, n: nat,
      ch: Byte, choose: Choice)
    requires Running(w) && Running(s) && Twins(w, s, k, lead, base, n) && k != NoString
    requires Transition(w.p, w.skipping, ch) == Transition(s.p, s.skipping, ch)
    ensures var v, t := Settle(w, ch, choose), Settle(s, ch, choose);
            Twins(v, t, k, lead, base, n) && v.skipping == t.skipping
    decreases Rank(w.p.state)
  {
    hide Transition, Sound, After, Behind, Rank;
    var a := Transition(w.p, w.skipping, ch);
    EveryStepSound(w.p, w.skipping, ch);
    TwinsAfter(w, s, k, lead, base, n, a, ch, choose);
    AfterRunning(w, a, ch, choose);
    AfterRunning(s, a, ch, choose);
    if a.next.Again? {
      TwinsSettle(After(w, a, ch, choose), After(s, a, ch, choose), k, lead, base, n, ch, choose);
    }
  }

  /** A byte that is skipped as part of a value but would be refused if it were looked at. */
  predicate Unchecked(c: Config, ch: Byte)
  {
    c.skipping && !c.p.lenient && !IsHeaderChar(ch)
  }

  lemma CheckedAlike(p: Parser, ch: Byte)
    requires Valid(p) && (p.state.HeaderValue? ==> p.lenient || IsHeaderChar(ch))
    ensures Transition(p, true, ch) == Transition(p, false, ch)
  {
    hide IsHeaderChar;
  }

  lemma SameAction(w: Config, s: Config, ch: Byte)
    requires Running(w) && Running(s) && w.p == s.p && (s.skipping ==> w.skipping) && !Unchecked(w, ch)
    ensures Transition(w.p, w.skipping, ch) == Transition(s.p, s.skipping, ch)
  {
    hide Transition;
    if w.skipping { CheckedAlike(w.p, ch); }
  }

  lemma CountedTwins(w: Config, s: Config, k: Kind, lead: seq<Byte>, base: seq<Item>, n: nat, ch: Byte)
    requires Running(w) && Running(s) && Twins(w, s, k, lead, base, n) && k != NoString && (s.skipping ==> w.skipping)
    requires !Unchecked(w, ch)
    ensures Running(Counted(w)) && Running(Counted(s)) && Twins(Counted(w), Counted(s), k, lead, base, n)
    ensures Transition(Counted(w).p, Counted(w).skipping, ch) == Transition(Counted(s).p, Counted(s).skipping, ch)
  {
    hide Transition;
    SameAction(Counted(w), Counted(s), ch);
  }

  lemma {:induction false} TwinsFold(w: Config, s: Config, k: Kind, lead: seq<Byte>, base: seq<Item>, n: nat,
      b: seq<Byte>, choose: Choice)
    requires Running(w) && Running(s) && Twins(w, s, k, lead, base, n) && k != NoString && (s.skipping ==> w.skipping)
    requires b != [] && !Unchecked(w, b[0])
    ensures var v, t := Fold(w, b, choose), Fold(s, b, choose);
            Twins(v, t, k, lead, base, n) && v.skipping == t.skipping
    decreases |b|
  {
    hide Next, Behind, Unchecked;
    var m := |b| - 1;
    if m == 0 {
      TwinsFirst(w, s, k, lead, base, n, b[0], choose);
      assert Fold(w, b[..0], choose) == w && Fold(s, b[..0], choose) == s;
    } else {
      TwinsFold(w, s, k, lead, base, n, b[..m], choose);
      var v, t := Fold(w, b[..m], choose), Fold(s, b[..m], choose);
      if !v.halted { TwinsStep(v, t, k, lead, base, n, b[m], choose); }
    }
  }

  lemma TwinsFirst(w: Config, s: Config, k: Kind, lead: seq<Byte>, base: seq<Item>, n: nat, ch: Byte, choose: Choice)
    requires Running(w) && Running(s) && Twins(w, s, k, lead, base, n) && k != NoString && (s.skipping ==> w.skipping)
    requires !Unchecked(w, ch)
    ensures var v, t := Next(w, ch, choose), Next(s, ch, choose);
            Twins(v, t, k, lead, base, n) && v.skipping == t.skipping
  {
    hide Settle, Transition, Unchecked;
    CountedTwins(w, s, k, lead, base, n, ch);
    TwinsSettle(Counted(w), Counted(s), k, lead, base, n, ch, choose);
  }

  lemma TwinsStep(w: Config, s: Config, k: Kind, lead: seq<Byte>, base: seq<Item>, n: nat, ch: Byte, choose: Choice)
    requires Running(w) && Running(s) && Twins(w, s, k, lead, base, n) && k != NoString && s.skipping == w.skipping
    ensures var v, t := Next(w, ch, choose), Next(s, ch, choose);
            Twins(v, t, k, lead, base, n) && v.skipping == t.skipping
  {
    hide Settle, Transition;
    TwinsSettle(Counted(w), Counted(s), k, lead, base, n, ch, choose);
  }

  // ---------- The end of a run ----------

  predicate Refused(c: Config) { c.p.errno != NoError }

  /** A call that ends early without an error has nothing behind a mark. */
  lemma {:induction false} ExitDelivered(c: Config, data: seq<Byte>, choose: Choice)
    requires Running(c)
    ensures var d := Fold(c, data, choose); d.halted && !Refused(d) ==> d.pending == []
    decreases |data|
  {
    hide Settle;
    if data != [] {
      ExitDelivered(c, data[..|data| - 1], choose);
      var d := Fold(c, data[..|data| - 1], choose);
      if !d.halted { ExitSettled(Counted(d), data[|data| - 1], choose); }
    }
  }

  lemma {:induction false} ExitSettled(c: Config, ch: Byte, choose: Choice)
    requires Running(c)
    ensures var d := Settle(c, ch, choose); d.halted && !Refused(d) ==> d.pending == []
    decreases Rank(c.p.state)
  {
    hide Transition, Rank;
    var a := Transition(c.p, c.skipping, ch);
    EveryStepSound(c.p, c.skipping, ch);
    AfterRunning(c, a, ch, choose);
    if a.next.Again? { ExitSettled(After(c, a, ch, choose), ch, choose); }
  }

  predicate SameEnd(w: Config, s: Config, n: nat)
  {
    w.p == s.p && w.halted == s.halted && w.used == n + s.used
  }

  /** The configuration in which the second call begins. */
  function Recut(c: Config): Config { Begin(c.p, Flush(c).nread, Flush(c).items) }

  /** The string that is being read, if any. */
  function Reading(c: Config): Kind
  {
    if KindOf(c.p.state) == NoString then Url else KindOf(c.p.state)
  }

  lemma CutTwins(c: Config)
    requires Running(c)
    ensures Running(Recut(c)) && Twins(c, Recut(c), Reading(c), c.pending, c.items, c.used)
  {
    hide Valid;
  }

  lemma EndsAlike(c: Config, b: seq<Byte>, choose: Choice)
    requires Running(c) && b != []
    ensures Running(Recut(c))
    ensures SameEnd(Fold(c, b, choose), Fold(Recut(c), b, choose), c.used) <==> !Unchecked(c, b[0])
  {
    hide Fold;
    CutTwins(c);
    if Unchecked(c, b[0]) {
      CutUncovers(c, b, choose);
    } else {
      TwinsFold(c, Recut(c), Reading(c), c.pending, c.items, c.used, b, choose);
    }
  }

  lemma {:induction false} UsedMonotone(c: Config, b: seq<Byte>, i: nat, choose: Choice)
    requires Running(c) && i <= |b|
    ensures Fold(c, b[..i], choose).used <= Fold(c, b, choose).used
    decreases |b|
  {
    hide Settle;
    if i < |b| {
      UsedMonotone(c, b[..|b| - 1], i, choose);
      assert b[..|b| - 1][..i] == b[..i];
    } else {
      assert b[..i] == b;
    }
  }

  lemma SkippedTransition(p: Parser, ch: Byte)
    requires Valid(p) && IgnoresValue(p) && !IsHeaderChar(ch)
    ensures Transition(p, true, ch) == Take(p)
    ensures !p.lenient ==> Transition(p, false, ch) == Fail(p, InvalidHeaderToken)
  {
  }

  lemma SkippedIsUsed(c: Config, ch: Byte, choose: Choice)
    requires Running(c) && IgnoresValue(c.p) && !IsHeaderChar(ch)
    ensures c.skipping ==> Settle(c, ch, choose).used == c.used + 1
    ensures !c.skipping && !c.p.lenient ==>
              Settle(c, ch, choose).used == c.used && Settle(c, ch, choose).halted
              && Settle(c, ch, choose).p.errno == InvalidHeaderToken
  {
    hide Transition;
    SkippedTransition(c.p, ch);
  }

  lemma CutUncovers(c: Config, b: seq<Byte>, choose: Choice)
    requires Running(c) && b != [] && Unchecked(c, b[0])
    ensures Fold(c, b, choose).used > c.used
    ensures var t := Fold(Recut(c), b, choose); t.used == 0 && t.halted && t.p.errno == InvalidHeaderToken
  {
    hide Settle, IsHeaderChar;
    var s := Recut(c);
    CutTwins(c);
    assert b[..1] == [b[0]] && b[..0] == [];
    FoldNext(c, b, 0, choose);
    FoldNext(s, b, 0, choose);
    SkippedIsUsed(Counted(c), b[0], choose);
    SkippedIsUsed(Counted(s), b[0], choose);
    UsedMonotone(c, b, 1, choose);
    HaltedStays(s, b, 1, choose);
  }

  // ---------- When bytes are skipped ----------

  lemma {:induction false} SkippingMeans(c: Config, ch: Byte, choose: Choice)
    requires Running(c)
    ensures var d := Settle(c, ch, choose); !d.halted ==> (d.skipping <==> IgnoresValue(c.p) && IgnoresValue(d.p))
    decreases Rank(c.p.state)
  {
    hide Transition, Rank;
    var a := Transition(c.p, c.skipping, ch);
    EveryStepSound(c.p, c.skipping, ch);
    AfterRunning(c, a, ch, choose);
    if a.next.Again? {
      var d := After(c, a, ch, choose);
      if c.p.state.HeaderValue? {
        AgainLeavesValue(c.p, c.skipping, ch);
        LineEndSettles(d, choose);
      } else {
        SkippingMeans(d, ch, choose);
      }
    }
  }

  /** A value that is left with this byte is not read again at this byte. */
  lemma AgainLeavesValue(p: Parser, skipping: bool, ch: Byte)
    requires Valid(p) && p.state.HeaderValue? && Transition(p, skipping, ch).next.Again?
    ensures Transition(p, skipping, ch).p.state.HeaderAlmostDone? && ch == '\n'
  {
    hide IsHeaderChar;
    if ch != '\r' && ch != '\n' { ValueSound(p, ch); }
  }

  lemma LineEndSettles(c: Config, choose: Choice)
    requires Running(c) && c.p.state.HeaderAlmostDone?
    ensures Settle(c, '\n', choose).p.state.ValueLws? && !Settle(c, '\n', choose).skipping
  {
    assert Transition(c.p, c.skipping, '\n') == Go(c.p, ValueLws);
    hide Transition;
  }

  // ---------- The results ----------

  /** The record before the last byte of the first part, as a caller would see it. */
  function BeforeLast(p: Parser, nread: nat, items: seq<Item>, a: seq<Byte>, choose: Choice): Parser
    requires Valid(p) && a != []
  {
    if |a| == 1 then p else Call(p, nread, items, a[..|a| - 1], choose).p
  }

  /** The last byte of the first part and the first byte of the second one are in the middle of a value that
      is not looked at any more, and the latter must not occur in a value. */
  predicate UncoversByte(p: Parser, nread: nat, items: seq<Item>, a: seq<Byte>, b: seq<Byte>, choose: Choice)
    requires Valid(p) && a != [] && b != []
  {
    IgnoresValue(BeforeLast(p, nread, items, a, choose)) && IgnoresValue(Call(p, nread, items, a, choose).p)
    && !Call(p, nread, items, a, choose).p.lenient && !IsHeaderChar(b[0])
  }

  lemma UncoversMeans(p: Parser, nread: nat, items: seq<Item>, a: seq<Byte>, b: seq<Byte>, choose: Choice)
    requires Valid(p) && p.errno == NoError && a != [] && b != [] && !Call(p, nread, items, a, choose).halted
    ensures UncoversByte(p, nread, items, a, b, choose) <==> Unchecked(Fold(Begin(p, nread, items), a, choose), b[0])
  {
    hide Settle, IsHeaderChar;
    var c, n := Begin(p, nread, items), |a| - 1;
    var d := Fold(c, a[..n], choose);
    if n == 0 { assert a[..n] == []; }
    SkippingMeans(Counted(d), a[n], choose);
  }

  lemma Parts(p: Parser, nread: nat, items: seq<Item>, a: seq<Byte>, b: seq<Byte>, choose: Choice)
    requires Valid(p) && p.errno == NoError && a != [] && b != [] && !Call(p, nread, items, a, choose).halted
    ensures var c, r := Fold(Begin(p, nread, items), a, choose), Call(p, nread, items, a, choose);
            Running(c) && Recut(c) == Begin(r.p, r.nread, r.items) && c.used == |a| && !Refused(c)
            && Call(p, nread, items, a + b, choose) == Flush(Fold(c, b, choose))
            && Call(r.p, r.nread, r.items, b, choose) == Flush(Fold(Recut(c), b, choose))
  {
    hide Settle;
    FoldSplit(Begin(p, nread, items), a, b, choose);
  }

  /** If the first part already ends the call, the rest is not looked at. */
  lemma SplitStops(p: Parser, nread: nat, items: seq<Item>, a: seq<Byte>, b: seq<Byte>, choose: Choice)
    requires Valid(p) && a != [] && Call(p, nread, items, a, choose).halted
    ensures Call(p, nread, items, a + b, choose) == Call(p, nread, items, a, choose)
  {
    hide Settle;
    FoldSplit(Begin(p, nread, items), a, b, choose);
  }

  /** One call with both parts ends like one call for each, if and only if the cut does not uncover a byte
      that one call would have skipped. */
  lemma SplitIff(p: Parser, nread: nat, items: seq<Item>, a: seq<Byte>, b: seq<Byte>, choose: Choice)
    requires Valid(p) && p.errno == NoError && a != [] && b != [] && !Call(p, nread, items, a, choose).halted
    ensures var r := Call(p, nread, items, a, choose);
            SameEnd(Call(p, nread, items, a + b, choose), Call(r.p, r.nread, r.items, b, choose), |a|)
            <==> !UncoversByte(p, nread, items, a, b, choose)
  {
    hide Fold, UncoversByte;
    Parts(p, nread, items, a, b, choose);
    UncoversMeans(p, nread, items, a, b, choose);
    EndsAlike(Fold(Begin(p, nread, items), a, choose), b, choose);
  }

  /** What the two ways of calling give to the callbacks. */
  lemma GivenAlike(c: Config, b: seq<Byte>, choose: Choice)
    requires Running(c) && !Refused(c) && b != [] && !Unchecked(c, b[0])
    ensures Running(Recut(c))
    ensures var w, s := Flush(Fold(c, b, choose)), Flush(Fold(Recut(c), b, choose));
            s.items == if Refused(w) && w.items == c.items then w.items + Pieces(KindOf(c.p.state), c.pending)
                else w.items
  {
    hide Settle, Behind, IsHeaderChar;
    CutTwins(c);
    TwinsFold(c, Recut(c), Reading(c), c.pending, c.items, c.used, b, choose);
    ExitDelivered(c, b, choose);
    FlushedAlike(Fold(c, b, choose), Fold(Recut(c), b, choose), Reading(c), c.pending, c.items, c.used);
    if c.pending == [] { assert Pieces(KindOf(c.p.state), []) == Pieces(Reading(c), []); }
  }

  lemma FlushedAlike(v: Config, t: Config, k: Kind, lead: seq<Byte>, base: seq<Item>, n: nat)
    requires Twins(v, t, k, lead, base, n) && (v.halted && !Refused(v) ==> v.pending == []) && (Refused(v) ==> v.halted)
    ensures Flush(t).items == if Refused(v) && v.items == base then Flush(v).items + Pieces(k, lead) else Flush(v).items
  {
    PiecesOfSum(k, lead, t.pending);
  }

  /** The callbacks are given the same bytes and notes too, except that a string in which an error occurs is
      dropped from the mark on: of such a string, the calls for the parts have delivered what came before the cut. */
  lemma SplitItems(p: Parser, nread: nat, items: seq<Item>, a: seq<Byte>, b: seq<Byte>, choose: Choice)
    requires Valid(p) && p.errno == NoError && a != [] && b != [] && !Call(p, nread, items, a, choose).halted
    requires !UncoversByte(p, nread, items, a, b, choose)
    ensures var c, r := Fold(Begin(p, nread, items), a, choose), Call(p, nread, items, a, choose);
            var w, s := Call(p, nread, items, a + b, choose), Call(r.p, r.nread, r.items, b, choose);
            s.items == if Refused(w) && w.items == c.items then r.items else w.items
  {
    hide Fold, UncoversByte;
    Parts(p, nread, items, a, b, choose);
    UncoversMeans(p, nread, items, a, b, choose);
    GivenAlike(Fold(Begin(p, nread, items), a, choose), b, choose);
  }

  /** What a caller can rely on: if the second part begins with a character that may occur in a value, both
      ways end alike, and without an error the callbacks are given the same. */
  lemma SplitAlike(p: Parser, nread: nat, items: seq<Item>, a: seq<Byte>, b: seq<Byte>, choose: Choice)
    requires Valid(p) && p.errno == NoError && a != [] && b != [] && !Call(p, nread, items, a, choose).halted
    requires Call(p, nread, items, a, choose).p.lenient || IsHeaderChar(b[0])
    ensures var r := Call(p, nread, items, a, choose);
            var w, s := Call(p, nread, items, a + b, choose), Call(r.p, r.nread, r.items, b, choose);
            SameEnd(w, s, |a|) && (!Refused(w) ==> s.items == w.items)
  {
    hide Call, IsHeaderChar;
    SplitIff(p, nread, items, a, b, choose);
    SplitItems(p, nread, items, a, b, choose);
  }

  // ---------- Any number of parts ----------

  function Joined(parts: seq<seq<Byte>>): seq<Byte>
  {
    if parts == [] then [] else parts[0] + Joined(parts[1..])
  }

  /** A call for each part, up to one that ends early. */
  function InParts(p: Parser, nread: nat, items: seq<Item>, parts: seq<seq<Byte>>, choose: Choice): (c: Config)
    requires Valid(p) && parts != []
    ensures Valid(c.p)
    decreases |parts|
  {
    var r := Call(p, nread, items, parts[0], choose);
    if r.halted || |parts| == 1 then r
    else
      var s := InParts(r.p, r.nread, r.items, parts[1..], choose);
      s.(used := |parts[0]| + s.used)
  }

  /** Every part but the first begins with a character that may occur in a value. */
  predicate CleanCuts(parts: seq<seq<Byte>>)
  {
    (forall k :: 0 <= k < |parts| ==> parts[k] != []) && forall k :: 1 <= k < |parts| ==> IsHeaderChar(parts[k][0])
  }

  /** The same for any number of parts. */
  lemma {:induction false} SplitMany(p: Parser, nread: nat, items: seq<Item>, parts: seq<seq<Byte>>, choose: Choice)
    requires Valid(p) && p.errno == NoError && parts != [] && CleanCuts(parts)
    ensures var w, s := Call(p, nread, items, Joined(parts), choose), InParts(p, nread, items, parts, choose);
            SameEnd(w, s, 0) && (!Refused(w) ==> s.items == w.items)
    decreases |parts|
  {
    hide Call, IsHeaderChar;
    var a, b := parts[0], Joined(parts[1..]);
    var r := Call(p, nread, items, a, choose);
    if |parts| == 1 {
      assert a + b == a;
    } else {
      assert b == parts[1] + Joined(parts[2..]) by { assert parts[1..][1..] == parts[2..]; }
      if r.halted {
        SplitStops(p, nread, items, a, b, choose);
      } else {
        SplitAlike(p, nread, items, a, b, choose);
        SplitMany(r.p, r.nread, r.items, parts[1..], choose);
      }
    }
  }
}
