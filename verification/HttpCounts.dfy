/** How the count of header bytes of http_parser_execute, src/http-parser/http_parser.c, depends on the cuts of its
    input, and when its limit is exceeded. */
module HttpCounts {
  import opened HttpState
  import opened HttpSteps
  import opened HttpRuns
  import opened HttpSplit
  import HttpBodies

  /** The end of the headers was among what was given from that place on. */
  predicate HeadersGiven(items: seq<Item>, from: nat)
  {
    exists k :: from <= k < |items| && items[k] == Noted(HeadersComplete)
  }

  lemma GivenMore(items: seq<Item>, more: seq<Item>, from: nat)
    requires from <= |items|
    ensures HeadersGiven(items + more, from) <==> HeadersGiven(items, from) || HeadersGiven(more, 0)
  {
    if HeadersGiven(more, 0) {
      var k :| 0 <= k < |more| && more[k] == Noted(HeadersComplete);
      assert (items + more)[|items| + k] == more[k];
    }
    if HeadersGiven(items, from) {
      var k :| from <= k < |items| && items[k] == Noted(HeadersComplete);
      assert (items + more)[k] == items[k];
    }
    if HeadersGiven(items + more, from) {
      var k :| from <= k < |items + more| && (items + more)[k] == Noted(HeadersComplete);
      if k < |items| { assert items[k] == (items + more)[k]; } else { assert more[k - |items|] == (items + more)[k]; }
    }
  }

  /** The states that are reached only behind the end of the headers. */
  predicate InChunks(s: State)
  {
    InChunkSize(s) || s.ChunkData? || s.ChunkDataAlmostDone? || s.ChunkDataDone?
  }

  /** An action ends the headers and looks at the line feed again, or it does not reach the states behind them. */
  predicate InOrder(p: Parser, ch: Byte, a: Action)
  {
    && (a.emit == Notify(HeadersComplete) <==> a.p.state.HeadersDone? && !p.state.HeadersDone?)
    && (a.emit == Notify(HeadersComplete) ==> ch == '\n' && a.next.Again?)
    && (p.state.HeadersDone? && ch == '\n' ==> !a.next.Failed? && !a.p.state.HeadersDone?)
    && (InChunks(a.p.state) ==> InChunks(p.state) || p.state.HeadersDone?)
  }

  /** An action that has nothing to do with the end of the headers. */
  predicate Elsewhere(a: Action)
  {
    a.emit != Notify(HeadersComplete) && !a.p.state.HeadersDone? && !InChunks(a.p.state)
  }

  lemma StartElsewhere(p: Parser, ch: Byte)
    requires InStart(p.state)
    ensures Elsewhere(Start(p, ch))
  {
    hide IsAlpha, FirstGuess, Lower;
  }

  lemma MethodElsewhere(p: Parser, ch: Byte)
    requires Valid(p) && p.state.ReqMethod?
    ensures Elsewhere(ReadMethod(p, ch))
  {
    hide IsAlpha, OtherMethod, MethodName;
  }

  lemma UrlElsewhere(p: Parser, ch: Byte)
    requires p.state.ReqSpacesBeforeUrl? || InUrl(p.state)
    ensures Elsewhere(ReadUrl(p, ch))
  {
    hide ParseUrlChar;
    UrlCharSound(p.state, ch);
    UrlCharSound(ReqServerStart, ch);
  }

  lemma VersionElsewhere(p: Parser, ch: Byte)
    requires InVersion(p.state)
    ensures Elsewhere(ReadVersion(p, ch))
  {
    hide Digit, MoreDigits;
  }

  lemma StatusElsewhere(p: Parser, ch: Byte)
    requires InStatus(p.state)
    ensures Elsewhere(ReadStatus(p, ch))
  {
    hide Digit, MoreDigits;
  }

  lemma ConstantElsewhere(p: Parser, ch: Byte)
    requires InConstant(p.state)
    ensures Elsewhere(ReadConstant(p, ch))
  {
  }

  lemma NameElsewhere(p: Parser, ch: Byte)
    requires Valid(p) && (p.state.HeaderFieldStart? || p.state.HeaderField?)
    ensures Elsewhere(ReadName(p, ch))
  {
    hide NameChar, IsToken, TokenOf, Valid;
    if p.state.HeaderField? && IsToken(ch) { NameSound(p, TokenOf(ch)); }
  }

  lemma ValueElsewhere(p: Parser, skipping: bool, ch: Byte)
    requires Valid(p) && p.state.HeaderValue?
    ensures Elsewhere(ReadValue(p, skipping, ch))
  {
    hide ValueChar, IsHeaderChar, Valid;
    ValueSound(p, ch);
  }

  lemma BetweenElsewhere(p: Parser, ch: Byte)
    requires InBetween(p.state)
    ensures Elsewhere(BetweenValues(p, ch))
  {
    hide FlagsOf, Lower;
  }

  lemma EndInOrder(p: Parser, ch: Byte)
    requires Valid(p) && (p.state.HeadersAlmostDone? || p.state.HeadersDone?)
    ensures InOrder(p, ch, EndHeaders(p, ch))
  {
    hide NewMessage, MessageNeedsEof;
    HttpBodies.NewMessageIs(p);
  }

  lemma ChunkSizeInOrder(p: Parser, ch: Byte)
    requires Valid(p) && InChunkSize(p.state)
    ensures InOrder(p, ch, ReadChunkSize(p, ch))
  {
    hide Unhex;
  }

  lemma BodyInOrder(p: Parser, ch: Byte)
    requires Valid(p) && InBody(p.state)
    ensures InOrder(p, ch, ReadBody(p, ch))
  {
    hide NewMessage;
    HttpBodies.NewMessageIs(p);
  }

  lemma EveryStepInOrder(p: Parser, skipping: bool, ch: Byte)
    requires Valid(p)
    ensures InOrder(p, ch, Transition(p, skipping, ch))
  {
    var s := p.state;
    hide Valid, Start, ReadMethod, ReadVersion, ReadStatus, ReadConstant, ReadName, ReadValue, BetweenValues,
        EndHeaders, ReadChunkSize, ReadBody, ReadUrl;
    if InStart(s) { StartElsewhere(p, ch); }
    else if s.ReqMethod? { MethodElsewhere(p, ch); }
    else if InVersion(s) { VersionElsewhere(p, ch); }
    else if InStatus(s) { StatusElsewhere(p, ch); }
    else if InConstant(s) { ConstantElsewhere(p, ch); }
    else if s.HeaderFieldStart? || s.HeaderField? { NameElsewhere(p, ch); }
    else if s.HeaderValue? { ValueElsewhere(p, skipping, ch); }
    else if InBetween(s) { BetweenElsewhere(p, ch); }
    else if s.HeadersAlmostDone? || s.HeadersDone? { EndInOrder(p, ch); }
    else if InChunkSize(s) { ChunkSizeInOrder(p, ch); }
    else if InBody(s) { BodyInOrder(p, ch); }
    else { UrlElsewhere(p, ch); }
  }

  // ---------- The counts of two runs ----------

  /** The counts of a run over the whole input and of one that was cut: if the cut lay in the loop over a name or a
      value, the latter is larger by one until the headers end. */
  predicate Counts(w: Config, s: Config, from: nat, inLoop: bool)
  {
    && from <= |s.items| && w.p == s.p
    && s.nread == w.nread + (if inLoop && !HeadersGiven(s.items, from) then 1 else 0)
    && (inLoop ==> !w.p.state.HeadersDone? && (!HeadersGiven(s.items, from) ==> !InChunks(w.p.state)))
  }

  /** The same while a byte is looked at: when the headers have ended, both counts are about to be set back. */
  predicate CountsAt(w: Config, s: Config, from: nat, inLoop: bool, ch: Byte)
  {
    if inLoop && w.p.state.HeadersDone? then
      ch == '\n' && w.p == s.p && from <= |s.items| && HeadersGiven(s.items, from)
    else Counts(w, s, from, inLoop)
  }

  lemma GivenAfter(s: Config, a: Action, ch: Byte, from: nat, choose: Choice)
    requires from <= |s.items|
    ensures |After(s, a, ch, choose).items| >= from
    ensures HeadersGiven(After(s, a, ch, choose).items, from)
            <==> HeadersGiven(s.items, from) || a.emit == Notify(HeadersComplete)
  {
    var more := match a.emit
      case Nothing => []
      case Notify(n) => [Noted(n)]
      case Deliver(k) => Pieces(k, if a.take then s.pending + [ch] else s.pending);
    assert s.items + [] == s.items;
    assert a.emit.Notify? ==> [Noted(a.emit.note)][0] == Noted(a.emit.note);
    GivenMore(s.items, more, from);
  }

  lemma CountsAfter(w: Config, s: Config, from: nat, inLoop: bool, a: Action, ch: Byte, choose: Choice)
    requires CountsAt(w, s, from, inLoop, ch) && InOrder(w.p, ch, a)
    requires After(w, a, ch, choose).p == After(s, a, ch, choose).p
    ensures var v, t := After(w, a, ch, choose), After(s, a, ch, choose);
            CountsAt(v, t, from, inLoop, ch) && v.looping == t.looping
            && (!a.next.Again? ==> Counts(v, t, from, inLoop))
  {
    GivenAfter(s, a, ch, from, choose);
    hide HeadersGiven, ItemsAfter;
  }

  lemma {:induction false} CountsSettle(w: Config, s: Config, k: Kind, lead: seq<Byte>, base: seq<Item>, n: nat,
      from: nat, inLoop: bool, ch: Byte, choose: Choice)
    requires Running(w) && Running(s) && Twins(w, s, k, lead, base, n) && k != NoString
    requires Transition(w.p, w.skipping, ch) == Transition(s.p, s.skipping, ch) && CountsAt(w, s, from, inLoop, ch)
    ensures var v, t := Settle(w, ch, choose), Settle(s, ch, choose);
            Counts(v, t, from, inLoop) && v.looping == t.looping
    decreases Rank(w.p.state)
  {
    hide Transition, Sound, After, Behind, Rank, Counts, CountsAt, InOrder;
    var a := Transition(w.p, w.skipping, ch);
    EveryStepSound(w.p, w.skipping, ch);
    EveryStepInOrder(w.p, w.skipping, ch);
    TwinsAfter(w, s, k, lead, base, n, a, ch, choose);
    CountsAfter(w, s, from, inLoop, a, ch, choose);
    AfterRunning(w, a, ch, choose);
    AfterRunning(s, a, ch, choose);
    if a.next.Again? {
      CountsSettle(After(w, a, ch, choose), After(s, a, ch, choose), k, lead, base, n, from, inLoop, ch, choose);
    }
  }

  lemma CountsNext(w: Config, s: Config, k: Kind, lead: seq<Byte>, base: seq<Item>, n: nat, from: nat, inLoop: bool,
      ch: Byte, choose: Choice)
    requires Running(w) && Running(s) && Twins(w, s, k, lead, base, n) && k != NoString
    requires Transition(w.p, w.skipping, ch) == Transition(s.p, s.skipping, ch) && Counts(w, s, from, inLoop)
    ensures var v, t := Next(w, ch, choose), Next(s, ch, choose);
            Counts(v, t, from, inLoop) && v.looping == t.looping
  {
    hide Settle, Transition, HeadersGiven, InChunks;
    CountsSettle(Counted(w), Counted(s), k, lead, base, n, from, inLoop, ch, choose);
  }

  lemma {:induction false} CountsFold(w: Config, s: Config, k: Kind, lead: seq<Byte>, base: seq<Item>, n: nat,
      from: nat, inLoop: bool, b: seq<Byte>, choose: Choice)
    requires Running(w) && Running(s) && Twins(w, s, k, lead, base, n) && k != NoString && (s.skipping ==> w.skipping)
    requires b != [] && !Unchecked(w, b[0]) && Counts(w, s, from, inLoop)
    ensures var v, t := Fold(w, b, choose), Fold(s, b, choose);
            Counts(v, t, from, inLoop) && v.looping == t.looping
    decreases |b|
  {
    hide Next, Behind, Unchecked, Counts, Transition;
    var m := |b| - 1;
    if m == 0 {
      SameAction(w, s, b[0]);
      CountsNext(w, s, k, lead, base, n, from, inLoop, b[0], choose);
      assert Fold(w, b[..0], choose) == w && Fold(s, b[..0], choose) == s;
    } else {
      CountsFold(w, s, k, lead, base, n, from, inLoop, b[..m], choose);
      TwinsFold(w, s, k, lead, base, n, b[..m], choose);
      var v, t := Fold(w, b[..m], choose), Fold(s, b[..m], choose);
      if !v.halted { CountsNext(v, t, k, lead, base, n, from, inLoop, b[m], choose); }
    }
  }

  // ---------- The results ----------

  lemma {:induction false} LoopingMeans(c: Config, ch: Byte, choose: Choice)
    requires Running(c)
    ensures var d := Settle(c, ch, choose); !d.halted ==> (d.looping <==> InLoop(c.p, d.p))
    decreases Rank(c.p.state)
  {
    hide Transition;
    var a := Transition(c.p, c.skipping, ch);
    EveryStepSound(c.p, c.skipping, ch);
    AfterRunning(c, a, ch, choose);
    if a.next.Again? {
      var d := After(c, a, ch, choose);
      if c.p.state.HeaderValue? {
        AgainLeavesValue(c.p, c.skipping, ch);
        LineEndSettles(d, choose);
      }
      LoopingMeans(d, ch, choose);
    }
  }

  /** The first part ends in the loop over a name or a value. */
  predicate CutInLoop(p: Parser, nread: nat, items: seq<Item>, a: seq<Byte>, choose: Choice)
    requires Valid(p) && a != []
  {
    InLoop(BeforeLast(p, nread, items, a, choose), Call(p, nread, items, a, choose).p)
  }

  lemma CutInLoopMeans(p: Parser, nread: nat, items: seq<Item>, a: seq<Byte>, choose: Choice)
    requires Valid(p) && p.errno == NoError && a != [] && !Call(p, nread, items, a, choose).halted
    ensures CutInLoop(p, nread, items, a, choose) <==> Fold(Begin(p, nread, items), a, choose).looping
  {
    hide Settle;
    var c, n := Begin(p, nread, items), |a| - 1;
    var d := Fold(c, a[..n], choose);
    if n == 0 { assert a[..n] == []; }
    LoopingMeans(Counted(d), a[n], choose);
  }

  lemma CountsBegin(c: Config)
    requires Running(c)
    ensures Running(Recut(c)) && Counts(c, Recut(c), |Recut(c).items|, c.looping)
  {
    hide Valid;
  }

  lemma FlushedCounts(v: Config, t: Config, from: nat, inLoop: bool)
    requires Counts(v, t, from, inLoop) && v.looping == t.looping && v.halted == t.halted
    ensures Flush(t).nread == Flush(v).nread + (if inLoop && !HeadersGiven(Flush(t).items, from) then 1 else 0)
  {
    GivenMore(t.items, Pieces(KindOf(t.p.state), t.pending), from);
    hide HeadersGiven;
  }

  /** One call with both parts counts the header bytes that the calls for the parts count, but for one more if the
      cut lies in the loop over a name or a value whose headers have not ended since. */
  lemma SplitCount(p: Parser, nread: nat, items: seq<Item>, a: seq<Byte>, b: seq<Byte>, choose: Choice)
    requires Valid(p) && p.errno == NoError && a != [] && b != [] && !Call(p, nread, items, a, choose).halted
    requires !UncoversByte(p, nread, items, a, b, choose)
    ensures var r := Call(p, nread, items, a, choose);
            var w, s := Call(p, nread, items, a + b, choose), Call(r.p, r.nread, r.items, b, choose);
            s.nread == w.nread + if CutInLoop(p, nread, items, a, choose) && !HeadersGiven(s.items, |r.items|) then 1
                                 else 0
  {
    hide Fold, UncoversByte, CutInLoop, Unchecked, HeadersGiven, Counts;
    Parts(p, nread, items, a, b, choose);
    UncoversMeans(p, nread, items, a, b, choose);
    CutInLoopMeans(p, nread, items, a, choose);
    var c := Fold(Begin(p, nread, items), a, choose);
    CutTwins(c);
    CountsBegin(c);
    CountsFold(c, Recut(c), Reading(c), c.pending, c.items, c.used, |Recut(c).items|, c.looping, b, choose);
    TwinsFold(c, Recut(c), Reading(c), c.pending, c.items, c.used, b, choose);
    FlushedCounts(Fold(c, b, choose), Fold(Recut(c), b, choose), |Recut(c).items|, c.looping);
  }

  // ---------- The limit ----------

  /** COUNT_HEADER_SIZE finds more than that many bytes at the given place, or at the end of the call. */
  predicate OverAt(c: Config, data: seq<Byte>, k: nat, limit: nat, choose: Choice)
    requires Running(c) && k <= |data|
  {
    var d := Fold(c, data[..k], choose);
    !d.halted && (if k == |data| then Flush(d).nread else Counted(d).nread) > limit
  }

  ghost predicate Exceeds(c: Config, data: seq<Byte>, limit: nat, choose: Choice)
    requires Running(c)
  {
    exists k :: 0 <= k <= |data| && OverAt(c, data, k, limit, choose)
  }

  /** A call in which more than that many header bytes are counted. */
  ghost predicate CallExceeds(p: Parser, nread: nat, items: seq<Item>, data: seq<Byte>, limit: nat, choose: Choice)
    requires Valid(p)
  {
    p.errno == NoError && data != [] && Exceeds(Begin(p, nread, items), data, limit, choose)
  }

  /** In the first part the counts are the same. */
  lemma OverInFirst(o: Config, a: seq<Byte>, b: seq<Byte>, k: nat, limit: nat, choose: Choice)
    requires Running(o) && k <= |a| && b != [] && a != []
    ensures k < |a| ==> (OverAt(o, a + b, k, limit, choose) <==> OverAt(o, a, k, limit, choose))
    ensures OverAt(o, a, |a|, limit, choose) ==> OverAt(o, a + b, |a|, limit, choose)
  {
    hide Next, Pieces;
    assert (a + b)[..k] == a[..k] && (a + b)[..|a|] == a == a[..|a|];
  }

  /** In the second part the counts differ by at most one, and not at all if the cut is not in a loop. */
  lemma OverInSecond(o: Config, a: seq<Byte>, b: seq<Byte>, k: nat, limit: nat, choose: Choice)
    requires Running(o) && a != [] && b != [] && k <= |b|
    requires var c := Fold(o, a, choose); !c.halted && !Unchecked(c, b[0])
    ensures var c := Fold(o, a, choose);
            && Running(Recut(c))
            && (OverAt(o, a + b, |a| + k, limit, choose) ==> OverAt(Recut(c), b, k, limit, choose))
            && (OverAt(Recut(c), b, k, limit, choose) ==>
                  (limit > 0 ==> OverAt(o, a + b, |a| + k, limit - 1, choose))
                  && (c.looping || OverAt(o, a + b, |a| + k, limit, choose)))
  {
    hide Next, Unchecked, Pieces, HeadersGiven, Transition, Valid, KindOf, Behind;
    var c := Fold(o, a, choose);
    CountsBegin(c);
    CutTwins(c);
    assert (a + b)[..|a| + k] == a + b[..k];
    FoldSplit(o, a, b[..k], choose);
    if k == 0 {
      assert b[..0] == [];
    } else {
      CountsFold(c, Recut(c), Reading(c), c.pending, c.items, c.used, |Recut(c).items|, c.looping, b[..k], choose);
      TwinsFold(c, Recut(c), Reading(c), c.pending, c.items, c.used, b[..k], choose);
    }
  }

  /** A limit that the calls for the parts respect is respected by one call with both. */
  lemma WithinLimit(p: Parser, nread: nat, items: seq<Item>, a: seq<Byte>, b: seq<Byte>, limit: nat, choose: Choice)
    requires Valid(p) && p.errno == NoError && a != [] && b != [] && !Call(p, nread, items, a, choose).halted
    requires !UncoversByte(p, nread, items, a, b, choose)
    ensures var r := Call(p, nread, items, a, choose);
            CallExceeds(p, nread, items, a + b, limit, choose) ==>
              CallExceeds(p, nread, items, a, limit, choose)
              || CallExceeds(r.p, r.nread, r.items, b, limit, choose)
  {
    hide Fold, UncoversByte, Unchecked, OverAt;
    var o := Begin(p, nread, items);
    Parts(p, nread, items, a, b, choose);
    UncoversMeans(p, nread, items, a, b, choose);
    if CallExceeds(p, nread, items, a + b, limit, choose) {
      var k :| 0 <= k <= |a + b| && OverAt(o, a + b, k, limit, choose);
      if k < |a| {
        OverInFirst(o, a, b, k, limit, choose);
      } else {
        OverInSecond(o, a, b, k - |a|, limit, choose);
      }
    }
  }

  /** A cut costs at most one byte of the limit, and none if it does not lie in the loop over a name or a value. */
  lemma CutCosts(p: Parser, nread: nat, items: seq<Item>, a: seq<Byte>, b: seq<Byte>, limit: nat, choose: Choice)
    requires Valid(p) && p.errno == NoError && a != [] && b != [] && !Call(p, nread, items, a, choose).halted
    requires !UncoversByte(p, nread, items, a, b, choose)
    requires var r := Call(p, nread, items, a, choose);
             CallExceeds(p, nread, items, a, limit, choose) || CallExceeds(r.p, r.nread, r.items, b, limit, choose)
    ensures limit > 0 ==> CallExceeds(p, nread, items, a + b, limit - 1, choose)
    ensures !CutInLoop(p, nread, items, a, choose) ==> CallExceeds(p, nread, items, a + b, limit, choose)
  {
    hide Fold, UncoversByte, Unchecked, OverAt, CutInLoop;
    var o := Begin(p, nread, items);
    Parts(p, nread, items, a, b, choose);
    UncoversMeans(p, nread, items, a, b, choose);
    CutInLoopMeans(p, nread, items, a, choose);
    var r := Call(p, nread, items, a, choose);
    if CallExceeds(p, nread, items, a, limit, choose) {
      var k :| 0 <= k <= |a| && OverAt(o, a, k, limit, choose);
      OverInFirst(o, a, b, k, limit, choose);
      LessIsOver(o, a + b, k, limit, choose);
    } else {
      var c := Fold(o, a, choose);
      var k :| 0 <= k <= |b| && OverAt(Recut(c), b, k, limit, choose);
      OverInSecond(o, a, b, k, limit, choose);
      assert |a| + k <= |a + b|;
    }
  }

  lemma LessIsOver(o: Config, data: seq<Byte>, k: nat, limit: nat, choose: Choice)
    requires Running(o) && k <= |data| && OverAt(o, data, k, limit, choose)
    ensures limit > 0 ==> OverAt(o, data, k, limit - 1, choose)
  {
    hide Fold;
  }

  /** What a caller can rely on: if neither of two calls counts too many header bytes and the second part begins with
      a character that may occur in a value, then one call does not count too many either, and it ends alike. */
  lemma SplitWithin(p: Parser, nread: nat, items: seq<Item>, a: seq<Byte>, b: seq<Byte>, limit: nat, choose: Choice)
    requires Valid(p) && p.errno == NoError && a != [] && b != [] && !Call(p, nread, items, a, choose).halted
    requires Call(p, nread, items, a, choose).p.lenient || IsHeaderChar(b[0])
    requires var r := Call(p, nread, items, a, choose);
             !CallExceeds(p, nread, items, a, limit, choose) && !CallExceeds(r.p, r.nread, r.items, b, limit, choose)
    ensures var r := Call(p, nread, items, a, choose);
            var w, s := Call(p, nread, items, a + b, choose), Call(r.p, r.nread, r.items, b, choose);
            && !CallExceeds(p, nread, items, a + b, limit, choose)
            && SameEnd(w, s, |a|) && (!Refused(w) ==> s.items == w.items) && w.nread <= s.nread <= w.nread + 1
  {
    hide Call, IsHeaderChar, CallExceeds, CutInLoop, HeadersGiven;
    WithinLimit(p, nread, items, a, b, limit, choose);
    SplitAlike(p, nread, items, a, b, choose);
    SplitCount(p, nread, items, a, b, choose);
  }

  // ---------- Any number of parts ----------

  /** One of the calls for the parts counts more than that many header bytes. */
  ghost predicate PartsExceed(p: Parser, nread: nat, items: seq<Item>, parts: seq<seq<Byte>>, limit: nat,
      choose: Choice)
    requires Valid(p) && parts != []
    decreases |parts|
  {
    var r := Call(p, nread, items, parts[0], choose);
    CallExceeds(p, nread, items, parts[0], limit, choose)
    || (!r.halted && |parts| > 1 && PartsExceed(r.p, r.nread, r.items, parts[1..], limit, choose))
  }

  lemma StopsWithin(p: Parser, nread: nat, items: seq<Item>, a: seq<Byte>, b: seq<Byte>, limit: nat, choose: Choice)
    requires Valid(p) && a != [] && b != [] && Call(p, nread, items, a, choose).halted
    ensures CallExceeds(p, nread, items, a + b, limit, choose) ==> CallExceeds(p, nread, items, a, limit, choose)
  {
    hide Next, Pieces;
    if CallExceeds(p, nread, items, a + b, limit, choose) {
      var o := Begin(p, nread, items);
      var k :| 0 <= k <= |a + b| && OverAt(o, a + b, k, limit, choose);
      if k < |a| {
        OverInFirst(o, a, b, k, limit, choose);
        assert OverAt(o, a, k, limit, choose);
      } else {
        assert (a + b)[..k] == a + b[..k - |a|];
        FoldSplit(o, a, b[..k - |a|], choose);
      }
    }
  }

  /** A limit that the calls for any number of parts respect is respected by one call with all of them. */
  lemma {:induction false} ManyWithin(p: Parser, nread: nat, items: seq<Item>, parts: seq<seq<Byte>>, limit: nat,
      choose: Choice)
    requires Valid(p) && p.errno == NoError && parts != [] && CleanCuts(parts)
    ensures CallExceeds(p, nread, items, Joined(parts), limit, choose) ==>
              PartsExceed(p, nread, items, parts, limit, choose)
    decreases |parts|
  {
    hide Call, IsHeaderChar, CallExceeds;
    var a, b := parts[0], Joined(parts[1..]);
    var r := Call(p, nread, items, a, choose);
    if |parts| == 1 {
      assert a + b == a;
    } else {
      assert b == parts[1] + Joined(parts[2..]) by { assert parts[1..][1..] == parts[2..]; }
      if r.halted {
        StopsWithin(p, nread, items, a, b, limit, choose);
      } else {
        WithinLimit(p, nread, items, a, b, limit, choose);
        ManyWithin(r.p, r.nread, r.items, parts[1..], limit, choose);
      }
    }
  }

  // ---------- Growing counts ----------

  lemma {:induction false} SettleCount(c: Config, ch: Byte, choose: Choice)
    requires Running(c)
    ensures Settle(c, ch, choose).nread <= c.nread
    decreases Rank(c.p.state)
  {
    hide Transition, Sound, Rank;
    var a := Transition(c.p, c.skipping, ch);
    EveryStepSound(c.p, c.skipping, ch);
    AfterRunning(c, a, ch, choose);
    if a.next.Again? { SettleCount(After(c, a, ch, choose), ch, choose); }
  }

  lemma {:induction false} FoldCount(c: Config, s: seq<Byte>, choose: Choice)
    requires Running(c)
    ensures Fold(c, s, choose).nread <= c.nread + |s|
    decreases |s|
  {
    hide Settle;
    if s != [] {
      FoldCount(c, s[..|s| - 1], choose);
      var d := Fold(c, s[..|s| - 1], choose);
      if !d.halted { SettleCount(Counted(d), s[|s| - 1], choose); }
    }
  }

  // ---------- Within a call ----------

  /** The first bytes are counted without exceeding the largest size of headers. */
  ghost predicate Within(c: Config, data: seq<Byte>, n: nat, choose: Choice)
    requires Running(c)
  {
    forall k :: 0 <= k < n && k <= |data| ==> !OverAt(c, data, k, MAX_HEADER_SIZE, choose)
  }

  /** The limit is exceeded at some byte, and the callbacks were given what the bytes before it give, or it as well. */
  ghost predicate Overflowed(c: Config, data: seq<Byte>, given: seq<Item>, choose: Choice)
    requires Running(c)
  {
    exists k :: 0 <= k <= |data| && OverAt(c, data, k, MAX_HEADER_SIZE, choose) && GivenAt(c, data, k, given, choose)
  }

  predicate GivenAt(c: Config, data: seq<Byte>, k: nat, given: seq<Item>, choose: Choice)
    requires Running(c) && k <= |data|
  {
    given == Fold(c, data[..k], choose).items || (k < |data| && given == Fold(c, data[..k + 1], choose).items)
  }

  /** Every byte counts once at most. */
  lemma WithinGrowth(c: Config, data: seq<Byte>, n: nat, choose: Choice)
    requires Running(c) && n <= |data| && c.nread + n <= MAX_HEADER_SIZE
    ensures Within(c, data, n, choose)
  {
    hide Fold;
    forall k | 0 <= k < n ensures !OverAt(c, data, k, MAX_HEADER_SIZE, choose) { FoldCount(c, data[..k], choose); }
  }

  /** Nothing is counted behind the end of a call. */
  lemma WithinEnded(c: Config, data: seq<Byte>, n: nat, choose: Choice)
    requires Running(c) && n <= |data| && Fold(c, data[..n], choose).halted && Within(c, data, n, choose)
    ensures Within(c, data, |data| + 1, choose)
  {
    hide Fold;
    forall k | 0 <= k <= |data| ensures !OverAt(c, data, k, MAX_HEADER_SIZE, choose) {
      if k >= n {
        assert data[..k][..n] == data[..n];
        HaltedStays(c, data[..k], n, choose);
      }
    }
  }

  /** From the bytes behind some place to all bytes. */
  lemma OverShifts(o: Config, data: seq<Byte>, i: nat, k: nat, choose: Choice)
    requires Running(o) && i <= i + k <= |data| && Running(Fold(o, data[..i], choose))
    ensures var c := Fold(o, data[..i], choose);
            && Fold(o, data[..i + k], choose) == Fold(c, data[i..][..k], choose)
            && (OverAt(c, data[i..], k, MAX_HEADER_SIZE, choose) <==> OverAt(o, data, i + k, MAX_HEADER_SIZE, choose))
  {
    hide Fold;
    assert data[..i] + data[i..][..k] == data[..i + k];
    FoldSplit(o, data[..i], data[i..][..k], choose);
  }

  lemma WithinShifts(o: Config, data: seq<Byte>, i: nat, n: nat, choose: Choice)
    requires Running(o) && i <= |data| && Running(Fold(o, data[..i], choose)) && Within(o, data, i, choose)
    requires Within(Fold(o, data[..i], choose), data[i..], n, choose)
    ensures Within(o, data, i + n, choose)
  {
    hide Fold, OverAt;
    forall k | 0 <= k < i + n && k <= |data| ensures !OverAt(o, data, k, MAX_HEADER_SIZE, choose) {
      if k >= i { OverShifts(o, data, i, k - i, choose); }
    }
  }

  lemma OverflowShifts(o: Config, data: seq<Byte>, i: nat, given: seq<Item>, choose: Choice)
    requires Running(o) && i <= |data| && Running(Fold(o, data[..i], choose))
    requires Overflowed(Fold(o, data[..i], choose), data[i..], given, choose)
    ensures Overflowed(o, data, given, choose)
  {
    hide Fold, OverAt;
    var c := Fold(o, data[..i], choose);
    var k :| 0 <= k <= |data[i..]| && OverAt(c, data[i..], k, MAX_HEADER_SIZE, choose)
             && GivenAt(c, data[i..], k, given, choose);
    OverShifts(o, data, i, k, choose);
    if i + k < |data| { OverShifts(o, data, i, k + 1, choose); }
    assert GivenAt(o, data, i + k, given, choose);
  }
}
