/** A request that http_parser_execute, src/http-parser/http_parser.c, accepts in one piece and refuses in two because
    of the size of its headers. */
module HttpLimit {
  import opened HttpState
  import opened HttpSteps
  import opened HttpRuns
  import opened HttpSplit
  import opened HttpCounts
  import opened HttpExample
  import HttpBulk

  /** The bytes that fill up the headers to the largest size. */
  function Filling(): (s: seq<Byte>)
    ensures |s| == MAX_HEADER_SIZE - 25 && forall i :: 0 <= i < |s| ==> s[i] == 'b'
  {
    var b: Byte := 'b';
    seq(MAX_HEADER_SIZE - 25, _ => b)
  }

  function LongHead(): seq<Byte> { HEAD_PART + Filling() }

  const END_PART: seq<Byte> := ['\r', '\n', '\r', '\n']

  /** The configuration behind the long header. */
  function Filled(choose: Choice): Config { Fold(Begin(Init(Request, false), 0, []), LongHead(), choose) }

  lemma FilledIs(choose: Choice)
    ensures var c := Filled(choose);
            Simple(c, HeaderValue) && c.p.headerState.General? && c.skipping && c.looping
            && c.used == MAX_HEADER_SIZE - 4
  {
    hide Fold, Settle;
    HeadConfig(choose);
    var c := Before(21, choose);
    FoldSplit(Begin(Init(Request, false), 0, []), HEAD_PART, Filling(), choose);
    HttpBulk.SkipRun(c, Filling(), choose);
  }

  lemma EndNext(c: Config, i: nat, choose: Choice)
    requires Running(c) && i < 4
    ensures var d := Fold(c, END_PART[..i], choose);
            Fold(c, END_PART[..i + 1], choose) == if d.halted then d else Next(d, END_PART[i], choose)
    ensures Fold(c, END_PART[..0], choose) == c && END_PART[..4] == END_PART
  {
    hide Next;
    FoldNext(c, END_PART, i, choose);
    assert END_PART[..0] == [];
  }

  /** The first i bytes lead to that state. */
  predicate Reaches(c: Config, i: nat, s: State, choose: Choice)
    requires Running(c) && i <= 4
  {
    var d := Fold(c, END_PART[..i], choose);
    Simple(d, s) && d.p.headerState.General? && d.used == c.used + i
  }

  lemma LineNext(c: Config, i: nat, s: State, t: State, choose: Choice)
    requires Running(c) && i < 4 && Reaches(c, i, s, choose) && Leads(s, END_PART[i], t) && !t.HeaderValue?
    ensures Reaches(c, i + 1, t, choose)
  {
    hide Fold, Next, Leads;
    EndNext(c, i, choose);
    LineEnd(Fold(c, END_PART[..i], choose), s, END_PART[i], t, choose);
  }

  /** The steps from there to the end of the headers. */
  lemma LinesRead(c: Config, choose: Choice)
    requires Simple(c, HeaderValue) && c.p.headerState.General?
    ensures var d := Fold(c, END_PART[..3], choose); Simple(d, HeadersAlmostDone) && d.used == c.used + 3
  {
    hide Fold, Next, Settle, Transition, Valid, KindOf;
    EndNext(c, 0, choose);
    assert Reaches(c, 0, HeaderValue, choose);
    hide Reaches;
    LineNext(c, 0, HeaderValue, HeaderAlmostDone, choose);
    LineNext(c, 1, HeaderAlmostDone, ValueLws, choose);
    LastLine(c, choose);
  }

  lemma LastLine(c: Config, choose: Choice)
    requires Running(c) && Reaches(c, 2, ValueLws, choose)
    ensures var d := Fold(c, END_PART[..3], choose); Simple(d, HeadersAlmostDone) && d.used == c.used + 3
  {
    hide Fold, Next, Settle, Transition, Valid, KindOf;
    EndNext(c, 2, choose);
    LastHeaderEnds(Fold(c, END_PART[..2], choose), choose);
  }

  lemma EndRead(c: Config, choose: Choice)
    requires Simple(c, HeaderValue) && c.p.headerState.General? && forall x :: choose(x) == 0
    ensures var d := Fold(c, END_PART, choose);
            !d.halted && d.p.errno == NoError && Noted(MessageComplete) in d.items && d.nread == 0
  {
    hide Fold, Next, Settle;
    LinesRead(c, choose);
    EndNext(c, 3, choose);
    EmptyLine(Fold(c, END_PART[..3], choose), choose);
  }

  /** In one call the message is complete, and the header bytes just fit; in two calls the second one counts too
      many, although it is given the last four bytes only. */
  lemma CutExceeds(choose: Choice)
    requires forall x :: choose(x) == 0
    ensures var p := Init(Request, false);
            var w := Call(p, 0, [], LongHead() + END_PART, choose);
            && !w.halted && w.p.errno == NoError && Noted(MessageComplete) in w.items
            && !CallExceeds(p, 0, [], LongHead() + END_PART, MAX_HEADER_SIZE, choose)
    ensures var p := Init(Request, false);
            var r := Call(p, 0, [], LongHead(), choose);
            && !r.halted && r.p.errno == NoError && r.nread == MAX_HEADER_SIZE - 3
            && !CallExceeds(p, 0, [], LongHead(), MAX_HEADER_SIZE, choose)
            && CallExceeds(r.p, r.nread, r.items, END_PART, MAX_HEADER_SIZE, choose)
  {
    hide Fold, Filled;
    WholeFits(choose);
    HeadFits(choose);
    EndExceeds(choose);
  }

  lemma WholeFits(choose: Choice)
    requires forall x :: choose(x) == 0
    ensures var p := Init(Request, false);
            var w := Call(p, 0, [], LongHead() + END_PART, choose);
            && !w.halted && w.p.errno == NoError && Noted(MessageComplete) in w.items
            && !CallExceeds(p, 0, [], LongHead() + END_PART, MAX_HEADER_SIZE, choose)
  {
    hide Fold, Settle, Next;
    var o, data := Begin(Init(Request, false), 0, []), LongHead() + END_PART;
    FilledIs(choose);
    EndRead(Filled(choose), choose);
    FoldSplit(o, LongHead(), END_PART, choose);
    forall k | 0 <= k <= |data| ensures !OverAt(o, data, k, MAX_HEADER_SIZE, choose) {
      FoldCount(o, data[..k], choose);
      assert data[..|data|] == data;
    }
  }

  lemma HeadFits(choose: Choice)
    ensures var p := Init(Request, false);
            var r := Call(p, 0, [], LongHead(), choose);
            && !r.halted && r.p.errno == NoError && r.nread == MAX_HEADER_SIZE - 3
            && !CallExceeds(p, 0, [], LongHead(), MAX_HEADER_SIZE, choose)
  {
    hide Fold, Settle, Next;
    var o := Begin(Init(Request, false), 0, []);
    FilledIs(choose);
    forall k | 0 <= k <= |LongHead()| ensures !OverAt(o, LongHead(), k, MAX_HEADER_SIZE, choose) {
      FoldCount(o, LongHead()[..k], choose);
    }
  }

  lemma EndExceeds(choose: Choice)
    ensures var r := Call(Init(Request, false), 0, [], LongHead(), choose);
            CallExceeds(r.p, r.nread, r.items, END_PART, MAX_HEADER_SIZE, choose)
  {
    hide Fold, Settle, Next;
    var o, c := Begin(Init(Request, false), 0, []), Filled(choose);
    FilledIs(choose);
    LinesRead(c, choose);
    CutTwins(c);
    FoldSplit(o, LongHead(), END_PART[..3], choose);
    assert !Unchecked(c, END_PART[0]);
    TwinsFold(c, Recut(c), Reading(c), c.pending, c.items, c.used, END_PART[..3], choose);
    CountsBegin(c);
    CountsFold(c, Recut(c), Reading(c), c.pending, c.items, c.used, |Recut(c).items|, true, END_PART[..3], choose);
    assert OverAt(Recut(c), END_PART, 3, MAX_HEADER_SIZE, choose);
  }
}
