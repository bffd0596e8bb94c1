/** The streaming UTF-8 checker of src/utf8_checker.c against section 4 of RFC 3629. */
module Utf8 {
  import opened Words

  // ---------- The grammar of section 4 of RFC 3629 ----------

  predicate Tail(b: Byte) { 0x80 <= b <= 0xBF }

  predicate Utf8Char2(s: seq<Byte>) { |s| == 2 && 0xC2 <= s[0] <= 0xDF && Tail(s[1]) }

  predicate Utf8Char3(s: seq<Byte>)
  {
    |s| == 3 && Tail(s[2]) &&
    ( || (s[0] == 0xE0 && 0xA0 <= s[1] <= 0xBF)
      || (0xE1 <= s[0] <= 0xEC && Tail(s[1]))
      || (s[0] == 0xED && 0x80 <= s[1] <= 0x9F)
      || (0xEE <= s[0] <= 0xEF && Tail(s[1])))
  }

  predicate Utf8Char4(s: seq<Byte>)
  {
    |s| == 4 && Tail(s[2]) && Tail(s[3]) &&
    ( || (s[0] == 0xF0 && 0x90 <= s[1] <= 0xBF)
      || (0xF1 <= s[0] <= 0xF3 && Tail(s[1]))
      || (s[0] == 0xF4 && 0x80 <= s[1] <= 0x8F))
  }

  predicate Utf8Char(s: seq<Byte>)
  {
    (|s| == 1 && s[0] <= 0x7F) || Utf8Char2(s) || Utf8Char3(s) || Utf8Char4(s)
  }

  /** UTF8-octets: a sequence of UTF8-chars. */
  ghost predicate Octets(s: seq<Byte>)
  {
    s == [] || exists n :: 1 <= n <= 4 && n <= |s| && Utf8Char(s[..n]) && Octets(s[n..])
  }

  // ---------- The checker ----------

  const UC_FINISH: Byte := 0xFF

  datatype State = State(start: Byte, length: nat, next: nat)

  const INIT := State(UC_FINISH, 1, 1)

  /** The verdict on one byte and the state after it. */
  function Step(c: State, b: Byte): (bool, State)
  {
    var lead := c.next == 1;
    var ok :=
      if c.next == 1 then b <= 0x7F || 0xC2 <= b <= 0xF4
      else if c.next == 2 then
        (b & 0xC0) == 0x80 && (c.start == 0xE0 ==> 0xA0 <= b <= 0xBF) && (c.start == 0xED ==> 0x80 <= b <= 0x9F)
        && (c.start == 0xF0 ==> 0x90 <= b <= 0xBF) && (c.start == 0xF4 ==> 0x80 <= b <= 0x8F)
      else (c.next == 3 || c.next == 4) && (b & 0xC0) == 0x80;
    var length := if lead && 0xC2 <= b <= 0xF4 then LeadLength(b) else c.length;
    var finished := if lead then b <= 0x7F else c.next == length || c.next == 4;
    if finished || !ok then (ok, INIT)
    else (true, State(if lead then b else c.start, length, c.next + 1))
  }

  function LeadLength(b: Byte): nat { if b <= 0xDF then 2 else if b <= 0xEF then 3 else 4 }

  /** The byte loop: it stops at the first invalid byte, which resets the checker. */
  function Run(c: State, s: seq<Byte>): (bool, State)
    decreases s
  {
    if s == [] then (true, c)
    else
      var (ok, c') := Step(c, s[0]);
      if ok then Run(c', s[1..]) else (false, INIT)
  }

  class Checker {
    var start: Byte
    var length: nat
    var next: nat

    function S(): State reads this { State(start, length, next) }

    constructor Init()
      ensures S() == INIT
    {
      start, length, next := UC_FINISH, 1, 1;
    }

    method Reset()
      modifies this
      ensures S() == INIT
    {
      start, length, next := UC_FINISH, 1, 1;
    }

    method IsByteValid(b: Byte) returns (ret: bool)
      modifies this
      ensures (ret, S()) == Step(old(S()), b)
    {
      ret := true;
      var finished := false;
      match next {
        case 1 =>
          start := b;
          if b <= 0x7F { finished := true; }
          else if b <= 0xC1 { ret := false; }
          else if b <= 0xDF { length := 2; }
          else if b <= 0xEF { length := 3; }
          else if b <= 0xF4 { length := 4; }
          else { ret := false; }
        case 2 =>
          if (b & 0xC0) != 0x80 { ret := false; }
          if start == 0xE0 { if b < 0xA0 || b > 0xBF { ret := false; } }
          else if start == 0xED { if b < 0x80 || b > 0x9F { ret := false; } }
          else if start == 0xF0 { if b < 0x90 || b > 0xBF { ret := false; } }
          else if start == 0xF4 { if b < 0x80 || b > 0x8F { ret := false; } }
          if length == 2 { finished := true; }
        case 3 =>
          if (b & 0xC0) != 0x80 { finished := true; ret := false; }
          if length == 3 { finished := true; }
        case 4 =>
          if (b & 0xC0) != 0x80 { ret := false; }
          finished := true;
        case _ =>
          ret := false;
      }
      if finished || !ret {
        start, length, next := UC_FINISH, 1, 1;
      } else {
        next := next + 1;
      }
    }

    /** cjet_is_byte_sequence_valid. */
    method IsByteSequenceValid(s: seq<Byte>, isComplete: bool) returns (ret: bool)
      modifies this
      ensures (ret, S()) == Verdict(Run(old(S()), s), isComplete)
    {
      for i := 0 to |s|
        invariant Run(old(S()), s) == Run(S(), s[i..])
      {
        var ok := IsByteValid(s[i]);
        assert s[i..][1..] == s[i + 1..];
        if !ok { return false; }
      }
      if isComplete && start != UC_FINISH {
        Reset();
        return false;
      }
      ret := true;
    }
  }

  /** The end of a call: a complete text must not stop inside a character. */
  function Verdict(r: (bool, State), isComplete: bool): (bool, State)
  {
    if r.0 && isComplete && r.1.start != UC_FINISH then (false, INIT) else r
  }

  // ---------- The checker accepts exactly the grammar ----------

  /** p is a nonempty proper prefix of some character, or empty. */
  predicate Partial(p: seq<Byte>)
  {
    p == [] ||
    (0xC2 <= p[0] <= 0xF4 && |p| < LeadLength(p[0])
     && (|p| >= 2 ==> Utf8Char(p[..2] + seq(LeadLength(p[0]) - 2, _ => 0x80)))
     && (|p| >= 3 ==> Tail(p[2])))
  }

  function StateOf(p: seq<Byte>): State
    requires Partial(p)
  {
    if p == [] then INIT else State(p[0], LeadLength(p[0]), |p| + 1)
  }

  /** s is a sequence of characters followed by an unfinished character with state st. */
  ghost predicate Decodes(s: seq<Byte>, st: State)
  {
    (Partial(s) && StateOf(s) == st) || exists n :: 1 <= n <= 4 && n <= |s| && Utf8Char(s[..n]) && Decodes(s[n..], st)
  }

  lemma StepMeaning(p: seq<Byte>, b: Byte)
    requires Partial(p)
    ensures Step(StateOf(p), b) ==
            if Utf8Char(p + [b]) then (true, INIT)
            else if Partial(p + [b]) then (true, StateOf(p + [b])) else (false, INIT)
  {
    var q := p + [b];
    if |q| >= 2 {
      var two := q[..2] + seq(LeadLength(q[0]) - 2, _ => 0x80);
      assert |p| >= 2 ==> p[..2] == q[..2];
    }
  }

  /** Characters are prefix-free: cutting one short leaves an unfinished character. */
  lemma Cut(s: seq<Byte>, m: nat, n: nat)
    requires 0 < m < n <= |s| && (Utf8Char(s[..n]) || Partial(s[..n]))
    ensures Partial(s[..m]) && !Utf8Char(s[..m])
  {
    assert s[..n][0] == s[..m][0];
    if m >= 2 { assert s[..n][1] == s[..m][1]; }
    if m >= 3 { assert s[..n][2] == s[..m][2]; }
    if m >= 2 {
      var l := LeadLength(s[0]);
      var x, y := s[..m][..2] + seq(l - 2, _ => 0x80), s[..n][..2] + seq(l - 2, _ => 0x80);
      assert x == y;
    }
  }

  /** How a text that begins with the bytes p' decodes, when p' just finishes a character. */
  lemma DecodesAfterChar(t: seq<Byte>, m: nat, st: State)
    requires 1 <= m <= |t| && Utf8Char(t[..m])
    ensures Decodes(t, st) <==> Decodes(t[m..], st)
  {
    assert t[..|t|] == t;
    if Partial(t) {
      if m < |t| { Cut(t, m, |t|); }
    }
    forall n | 1 <= n <= 4 && n <= |t| && Utf8Char(t[..n]) ensures n == m {
      if n < m { Cut(t, n, m); } else if n > m { Cut(t, m, n); }
    }
  }

  /** Nothing decodes that begins with bytes that neither finish nor continue a character. */
  lemma NeverDecodes(t: seq<Byte>, m: nat, st: State)
    requires m < |t| && Partial(t[..m]) && !Utf8Char(t[..m + 1]) && !Partial(t[..m + 1])
    ensures !Decodes(t, st)
  {
    assert t[..|t|] == t;
    if Partial(t) && m + 1 < |t| { Cut(t, m + 1, |t|); }
    forall n | 1 <= n <= 4 && n <= |t| ensures !Utf8Char(t[..n]) {
      if n <= m { NoCharInside(t, n, m); } else if n > m + 1 && Utf8Char(t[..n]) { Cut(t, m + 1, n); }
    }
  }

  lemma UnfinishedDecodes(p: seq<Byte>, st: State)
    requires Partial(p)
    ensures Decodes(p, st) <==> StateOf(p) == st
  {
    assert p == p[..|p|];
    forall n | 1 <= n <= 4 && n <= |p| ensures !Utf8Char(p[..n]) { NoCharInside(p, n, |p|); }
  }

  /** From inside the unfinished character p, the byte loop accepts s and stops in state st exactly
      when p + s is characters followed by an unfinished character of state st. */
  lemma {:induction false} RunMeaning(p: seq<Byte>, s: seq<Byte>, st: State)
    requires Partial(p)
    ensures Run(StateOf(p), s) == (true, st) <==> Decodes(p + s, st)
    decreases s
  {
    var t := p + s;
    if s == [] {
      assert t == p;
      UnfinishedDecodes(p, st);
    } else {
      var p' := p + [s[0]];
      assert t == p' + s[1..] && t[..|p'|] == p' && t[..|p|] == p;
      StepMeaning(p, s[0]);
      if Utf8Char(p') {
        RunMeaning([], s[1..], st);
        assert [] + s[1..] == s[1..] == t[|p'|..];
        DecodesAfterChar(t, |p'|, st);
      } else if Partial(p') {
        RunMeaning(p', s[1..], st);
      } else {
        NeverDecodes(t, |p|, st);
      }
    }
  }

  lemma NoCharInside(t: seq<Byte>, n: nat, m: nat)
    requires 1 <= n <= m <= |t| && Partial(t[..m])
    ensures !Utf8Char(t[..n])
  {
    if n < m { Cut(t, n, m); }
  }

  lemma {:induction false} OctetsDecode(s: seq<Byte>)
    ensures Octets(s) <==> Decodes(s, INIT)
    decreases s
  {
    forall n | 1 <= n <= 4 && n <= |s| ensures Octets(s[n..]) <==> Decodes(s[n..], INIT) { OctetsDecode(s[n..]); }
  }

  lemma {:induction false} RunReaches(p: seq<Byte>, s: seq<Byte>) returns (q: seq<Byte>)
    requires Partial(p) && Run(StateOf(p), s).0
    ensures Partial(q) && Run(StateOf(p), s).1 == StateOf(q)
    decreases s
  {
    if s == [] { return p; }
    StepMeaning(p, s[0]);
    q := RunReaches(if Utf8Char(p + [s[0]]) then [] else p + [s[0]], s[1..]);
  }

  lemma {:induction false} RunConcat(c: State, a: seq<Byte>, b: seq<Byte>)
    ensures Run(c, a + b) == if Run(c, a).0 then Run(Run(c, a).1, b) else (false, INIT)
    decreases a
  {
    if a == [] {
      assert a + b == b;
    } else {
      assert (a + b)[1..] == a[1..] + b;
      if Step(c, a[0]).0 { RunConcat(Step(c, a[0]).1, a[1..], b); }
    }
  }

  /** A complete text is accepted exactly when it is UTF8-octets. */
  lemma AcceptsExactlyOctets(s: seq<Byte>)
    ensures Verdict(Run(INIT, s), true) == (Octets(s), INIT)
  {
    RunMeaning([], s, INIT);
    assert [] + s == s;
    OctetsDecode(s);
    if Run(INIT, s).0 { var q := RunReaches([], s); } else { RunFails(INIT, s); }
  }

  lemma {:induction false} RunFails(c: State, s: seq<Byte>)
    requires !Run(c, s).0
    ensures Run(c, s) == (false, INIT)
    decreases s
  {
    if Step(c, s[0]).0 { RunFails(Step(c, s[0]).1, s[1..]); }
  }

  /** The shortest bytes that finish the character p. */
  function Completion(p: seq<Byte>): seq<Byte>
    requires Partial(p)
  {
    if p == [] then []
    else
      var second: Byte := if p[0] == 0xE0 then 0xA0 else if p[0] == 0xF0 then 0x90 else 0x80;
      if |p| == 1 then [second] + seq(LeadLength(p[0]) - 2, _ => 0x80)
      else seq(LeadLength(p[0]) - |p|, _ => 0x80)
  }

  lemma CompletionCompletes(p: seq<Byte>)
    requires Partial(p)
    ensures Octets(p + Completion(p))
  {
    var t := p + Completion(p);
    if p != [] {
      assert t[..|t|] == t && t[|t|..] == [];
      if |p| >= 2 {
        var x := p[..2] + seq(LeadLength(p[0]) - 2, _ => 0x80);
        assert x[0] == t[0] && x[1] == t[1];
      }
      assert Utf8Char(t[..|t|]);
    }
  }

  /** An incomplete text is accepted exactly when it can still become UTF8-octets. */
  lemma AcceptsExactlyPrefixes(s: seq<Byte>)
    ensures Run(INIT, s).0 <==> exists e :: Octets(s + e)
  {
    if Run(INIT, s).0 {
      var q := RunReaches([], s);
      var e := Completion(q);
      CompletionCompletes(q);
      OctetsDecode(q + e);
      RunMeaning(q, e, INIT);
      RunConcat(INIT, s, e);
      AcceptsExactlyOctets(s + e);
      assert Octets(s + e);
    }
    forall e | Octets(s + e) ensures Run(INIT, s).0 {
      AcceptsExactlyOctets(s + e);
      RunConcat(INIT, s, e);
    }
  }

  function Flatten(parts: seq<seq<Byte>>): seq<Byte>
  {
    if parts == [] then [] else Flatten(parts[..|parts| - 1]) + parts[|parts| - 1]
  }

  /** However a text is cut into fragments, checking them one after the other, the last one as
      complete, accepts exactly UTF8-octets. */
  method CheckFragments(parts: seq<seq<Byte>>) returns (ret: bool)
    requires parts != []
    ensures ret <==> Octets(Flatten(parts))
  {
    var c := new Checker.Init();
    ghost var all := Flatten(parts);
    AcceptsExactlyOctets(all);
    assert parts[..|parts|] == parts;
    var i := 0;
    while i < |parts|
      invariant 0 <= i <= |parts|
      invariant i < |parts| ==> Run(INIT, Flatten(parts[..i])) == (true, c.S())
      invariant i == |parts| ==> Octets(all)
    {
      var last := i == |parts| - 1;
      ghost var before := Flatten(parts[..i]);
      assert parts[..i + 1][..i] == parts[..i];
      RunConcat(INIT, before, parts[i]);
      var ok := c.IsByteSequenceValid(parts[i], last);
      if !ok {
        if !last { FlattenSplit(parts, i + 1); RunConcat(INIT, Flatten(parts[..i + 1]), Flatten(parts[i + 1..])); }
        return false;
      }
      i := i + 1;
    }
    ret := true;
  }

  lemma {:induction false} FlattenSplit(parts: seq<seq<Byte>>, i: nat)
    requires i <= |parts|
    ensures Flatten(parts) == Flatten(parts[..i]) + Flatten(parts[i..])
    decreases |parts| - i
  {
    if i == |parts| {
      assert parts[..i] == parts;
    } else {
      var n := |parts| - 1;
      FlattenSplit(parts[..n], i);
      assert parts[..n][..i] == parts[..i];
      assert parts[i..][..n - i] == parts[..n][i..];
    }
  }

  // ---------- The word-at-a-time checkers ----------

  /** The fast path of cjet_is_word_sequence_valid: the word is skipped unread. */
  predicate Skip32(w: bv32)
  {
    || w & 0x80808080 == 0
    || (w & 0x8080C0E0 == 0x80C0 && w & 0x1F > 0x01)
    || (w & 0x80C0E080 == 0x80C000 && w & 0x1F00 > 0x0100)
    || (w & 0xC0E08080 == 0x80C00000 && w & 0x1F0000 > 0x010000)
    || (w & 0xC0E0C0E0 == 0x80C080C0 && w & 0x1F001F > 0x010001)
  }

  /** The fast path of cjet_is_word64_sequence_valid. */
  predicate Skip64(w: bv64)
  {
    || w & 0x8080808080808080 == 0
    || (w & 0xC0E0C0E0C0E0C0E0 == 0x80C080C080C080C0 && w & 0x001F001F001F001F > 0x0001000100010001)
  }

  /** C0 and C1, the two bytes that only ever start an overlong two-byte form. */
  predicate NoOverlong(s: seq<Byte>)
  {
    forall b :: b in s ==> b != 0xC0 && b != 0xC1
  }

  predicate Ascii(b: Byte) { b <= 0x7F }

  predicate Pair(a: Byte, b: Byte) { 0xC2 <= a <= 0xDF && Tail(b) }

  /** What the fast path of a 32-bit word tests, byte by byte. Its last test compares two lanes as
      one number, so it says something about the lanes only when neither lead is C0 or C1. */
  lemma Skip32Lanes(s: seq<Byte>)
    requires |s| == 4 && Skip32(Load32(s)) && NoOverlong(s)
    ensures || (Ascii(s[0]) && Ascii(s[1]) && Ascii(s[2]) && Ascii(s[3]))
            || (Pair(s[0], s[1]) && Ascii(s[2]) && Ascii(s[3]))
            || (Ascii(s[0]) && Pair(s[1], s[2]) && Ascii(s[3]))
            || (Ascii(s[0]) && Ascii(s[1]) && Pair(s[2], s[3]))
            || (Pair(s[0], s[1]) && Pair(s[2], s[3]))
  {
    assert s[0] in s && s[1] in s && s[2] in s && s[3] in s;
  }

  lemma Skip64Lanes(s: seq<Byte>)
    requires |s| == 8 && Skip64(Load64(s)) && NoOverlong(s)
    ensures || (forall i :: 0 <= i < 8 ==> Ascii(s[i]))
            || (Pair(s[0], s[1]) && Pair(s[2], s[3]) && Pair(s[4], s[5]) && Pair(s[6], s[7]))
  {
    assert s[0] in s && s[2] in s && s[4] in s && s[6] in s;
    var w := Load64(s);
    if w & 0x8080808080808080 == 0 {
      assert Ascii(s[0]) && Ascii(s[1]) && Ascii(s[2]) && Ascii(s[3]);
      assert Ascii(s[4]) && Ascii(s[5]) && Ascii(s[6]) && Ascii(s[7]);
    }
  }

  lemma RunAscii(s: seq<Byte>)
    requires s != [] && Ascii(s[0])
    ensures Run(INIT, s) == Run(INIT, s[1..])
  {
  }

  lemma RunPair(s: seq<Byte>)
    requires |s| >= 2 && Pair(s[0], s[1])
    ensures Run(INIT, s) == Run(INIT, s[2..])
  {
    assert s[1..][1..] == s[2..];
    assert (s[1] & 0xC0) == 0x80;
  }

  predicate Skip(w: seq<Byte>)
    requires Word(w)
  {
    if |w| == 4 then Skip32(Load32(w)) else Skip64(Load64(w))
  }

  /** The word loop on words of the given width. */
  function WordRun(width: nat, c: State, s: seq<Byte>): (bool, State)
    requires (width == 4 || width == 8) && |s| % width == 0
    decreases s
  {
    if s == [] then (true, c) else
    WholeWords(width, |s|);
    if c.next == 1 && Skip(s[..width]) then WordRun(width, c, s[width..])
    else
      var r := Run(c, s[..width]);
      if r.0 then WordRun(width, r.1, s[width..]) else (false, INIT)
  }

  ghost predicate Reachable(c: State) { exists p :: Partial(p) && StateOf(p) == c }

  lemma SkipSound(w: seq<Byte>)
    requires Word(w) && Skip(w) && NoOverlong(w)
    ensures Run(INIT, w) == (true, INIT)
  {
    if |w| == 4 {
      Skip32Lanes(w);
      SkipRuns(w);
    } else {
      Skip64Lanes(w);
      var v := w[4..];
      SkipRuns(w[..4]);
      SkipRuns(v);
      RunConcat(INIT, w[..4], v);
      assert w[..4] + v == w;
    }
  }

  lemma SkipRuns(w: seq<Byte>)
    requires |w| == 4
    requires || (Ascii(w[0]) && Ascii(w[1]) && Ascii(w[2]) && Ascii(w[3]))
             || (Pair(w[0], w[1]) && Ascii(w[2]) && Ascii(w[3]))
             || (Ascii(w[0]) && Pair(w[1], w[2]) && Ascii(w[3]))
             || (Ascii(w[0]) && Ascii(w[1]) && Pair(w[2], w[3]))
             || (Pair(w[0], w[1]) && Pair(w[2], w[3]))
    ensures Run(INIT, w) == (true, INIT)
  {
    if Ascii(w[0]) { RunAscii(w); } else { RunPair(w); }
    if Ascii(w[1]) { RunAscii(w[1..]); assert w[1..][1..] == w[2..]; }
    if Pair(w[1], w[2]) { RunPair(w[1..]); assert w[1..][2..] == w[3..]; }
    if Ascii(w[2]) {
      RunAscii(w[2..]);
      assert w[2..][1..] == w[3..];
    } else if Pair(w[2], w[3]) {
      RunPair(w[2..]);
      assert w[2..][2..] == [];
    }
    if Ascii(w[3]) { RunAscii(w[3..]); assert w[3..][1..] == []; }
  }

  lemma {:induction false} ValidHasNoOverlong(c: State, s: seq<Byte>)
    requires Run(c, s).0
    ensures NoOverlong(s)
    decreases s
  {
    if s != [] {
      ValidHasNoOverlong(Step(c, s[0]).1, s[1..]);
      assert s[0] != 0xC0 && s[0] != 0xC1;
      assert s == [s[0]] + s[1..];
    }
  }

  lemma NoOverlongSlice(s: seq<Byte>, i: nat, j: nat)
    requires NoOverlong(s) && i <= j <= |s|
    ensures NoOverlong(s[i..j])
  {
    forall b | b in s[i..j] ensures b in s {}
  }

  lemma WholeWords(width: nat, n: nat)
    requires (width == 4 || width == 8) && n % width == 0 && n > 0
    ensures n >= width && (n - width) % width == 0
  {
  }

  /** Free of C0 and C1, the word loop and the byte loop give the same verdict and state. */
  lemma {:induction false} WordRunIsRun(width: nat, c: State, s: seq<Byte>)
    requires (width == 4 || width == 8) && |s| % width == 0
    requires Reachable(c) && NoOverlong(s)
    ensures WordRun(width, c, s) == Run(c, s)
    decreases s
  {
    if s != [] {
      WholeWords(width, |s|);
      var w, t := s[..width], s[width..];
      assert s == w + t;
      NoOverlongSlice(s, 0, width);
      NoOverlongSlice(s, width, |s|);
      assert s[width..|s|] == t;
      RunConcat(c, w, t);
      var p :| Partial(p) && StateOf(p) == c;
      if c.next == 1 && Skip(w) {
        SkipSound(w);
        WordRunIsRun(width, c, t);
      } else if Run(c, w).0 {
        var q := RunReaches(p, w);
        WordRunIsRun(width, Run(c, w).1, t);
      }
    }
  }

  /** Exactly when the word loop can be trusted: a text is valid if and only if the word loop
      accepts it and it is free of C0 and C1. */
  lemma ValidIffWordValidAndNoOverlong(width: nat, c: State, s: seq<Byte>)
    requires (width == 4 || width == 8) && |s| % width == 0 && Reachable(c)
    ensures Run(c, s).0 <==> WordRun(width, c, s).0 && NoOverlong(s)
    ensures Run(c, s).0 ==> WordRun(width, c, s) == Run(c, s)
  {
    if Run(c, s).0 { ValidHasNoOverlong(c, s); }
    if NoOverlong(s) { WordRunIsRun(width, c, s); }
  }

  /** A text the word loop accepts although it is not UTF-8. */
  lemma WordLoopAcceptsOverlong()
    ensures var s := [0xC0, 0x80, 0xC2, 0x80];
            WordRun(4, INIT, s) == (true, INIT) && !Run(INIT, s).0
  {
    var s: seq<Byte> := [0xC0, 0x80, 0xC2, 0x80];
    assert s[..4] == s && s[4..] == [];
    assert Load32(s) == 0x80C280C0;
  }

  /** cjet_is_word_sequence_valid and cjet_is_word64_sequence_valid. */
  method IsWordSequenceValid(c: Checker, width: nat, mem: seq<Byte>, isComplete: bool) returns (ret: bool)
    requires (width == 4 || width == 8) && |mem| % width == 0
    modifies c
    ensures (ret, c.S()) == Verdict(WordRun(width, old(c.S()), mem), isComplete)
  {
    hide StateOf;
    var rest := mem;
    while rest != []
      invariant |rest| % width == 0
      invariant WordRun(width, old(c.S()), mem) == WordRun(width, c.S(), rest)
      decreases |rest|
    {
      var w := rest[..width];
      if c.next != 1 || !Skip(w) {
        ghost var before := c.S();
        for j := 0 to width
          invariant Run(before, w) == Run(c.S(), w[j..])
        {
          LaneIsByte(w, j);
          assert w[j..][1..] == w[j + 1..];
          var ok := c.IsByteValid(Lane(w, j));
          if !ok { return false; }
        }
      }
      rest := rest[width..];
    }
    if isComplete && c.start != UC_FINISH {
      c.Reset();
      return false;
    }
    ret := true;
  }

  /** Bytes up to the first aligned address, whole words, and the bytes that are left: all three are read,
      whatever the verdicts on those before. */
  function Parts(width: nat, c: State, s: seq<Byte>, pre: nat, main: nat): (bool, State)
    requires (width == 4 || width == 8) && pre + main <= |s| && main % width == 0
  {
    var r1 := Run(c, s[..pre]);
    var r2 := WordRun(width, r1.1, s[pre..pre + main]);
    var r3 := Run(r2.1, s[pre + main..]);
    (r1.0 && r2.0 && r3.0, r3.1)
  }

  /** The split of a text at the given address, on a platform whose uint_fast16_t has the given width. */
  function AutoAligned(c: State, fastWidth: nat, address: nat, s: seq<Byte>): (bool, State)
  {
    if |s| < 8 || (fastWidth != 8 && fastWidth != 4) then Run(c, s)
    else
      var pre := fastWidth - address % fastWidth;
      Parts(fastWidth, c, s, pre, (|s| - pre) / fastWidth * fastWidth)
  }

  /** The end of such a call: unlike elsewhere, a refused text is reset too if it stops inside a character. */
  function Ended(r: (bool, State), isComplete: bool): (bool, State)
  {
    if isComplete && r.1.start != UC_FINISH then (false, INIT) else r
  }

  /** cjet_is_word_sequence_valid_auto_alligned: the run in three parts; it accepts what the byte checker accepts,
      with the same end state, and without C0 and C1 nothing else. */
  method IsWordSequenceValidAutoAligned(c: Checker, fastWidth: nat, address: nat, s: seq<Byte>, isComplete: bool)
    returns (ret: bool)
    requires Reachable(c.S())
    modifies c
    ensures (ret, c.S()) == Ended(AutoAligned(old(c.S()), fastWidth, address, s), isComplete)
    ensures Run(old(c.S()), s).0 ==> (ret, c.S()) == Verdict(Run(old(c.S()), s), isComplete)
    ensures NoOverlong(s) ==> ret == Verdict(Run(old(c.S()), s), isComplete).0
    ensures NoOverlong(s) && ret ==> c.S() == Run(old(c.S()), s).1
  {
    hide Run, WordRun, Parts, NoOverlong, Reachable;
    var width := if |s| < 8 then 1 else fastWidth;
    if width == 8 {
      var pre := 8 - address % 8;
      ret := CheckParts(c, 8, pre, (|s| - pre) / 8 * 8, s);
    } else if width == 4 {
      var pre := 4 - address % 4;
      ret := CheckParts(c, 4, pre, (|s| - pre) / 4 * 4, s);
    } else {
      ret := c.IsByteSequenceValid(s, isComplete);
    }
    if isComplete && c.start != UC_FINISH {
      c.Reset();
      ret := false;
    }
  }

  method CheckParts(c: Checker, width: nat, pre: nat, main: nat, s: seq<Byte>) returns (ret: bool)
    requires (width == 4 || width == 8) && Reachable(c.S()) && pre + main <= |s| && main % width == 0
    modifies c
    ensures (ret, c.S()) == Parts(width, old(c.S()), s, pre, main)
    ensures NoOverlong(s) ==> ret == Run(old(c.S()), s).0
    ensures Run(old(c.S()), s).0 ==> NoOverlong(s) && c.S() == Run(old(c.S()), s).1
  {
    PartsAgree(width, c.S(), s, pre, main);
    var r1 := c.IsByteSequenceValid(s[..pre], false);
    var r2 := IsWordSequenceValid(c, width, s[pre..pre + main], false);
    var r3 := c.IsByteSequenceValid(s[pre + main..], false);
    ret := r1 && r2 && r3;
  }

  lemma PartsAgree(width: nat, c: State, s: seq<Byte>, pre: nat, main: nat)
    requires (width == 4 || width == 8) && Reachable(c) && pre + main <= |s| && main % width == 0
    ensures NoOverlong(s) ==> Parts(width, c, s, pre, main).0 == Run(c, s).0
    ensures Run(c, s).0 ==> NoOverlong(s) && Parts(width, c, s, pre, main).1 == Run(c, s).1
  {
    var a, b, d := s[..pre], s[pre..pre + main], s[pre + main..];
    assert s == a + b + d;
    RunConcat(c, a + b, d);
    RunConcat(c, a, b);
    if Run(c, s).0 { ValidHasNoOverlong(c, s); }
    if NoOverlong(s) && Run(c, a).0 {
      var p :| Partial(p) && StateOf(p) == c;
      var q := RunReaches(p, a);
      NoOverlongSlice(s, pre, pre + main);
      WordRunIsRun(width, Run(c, a).1, b);
    }
  }
}
