/** Where a JSON string ends and how much output it can need: the first loop of parse_string. */
module JsonScan {
  import opened JsonText
  import opened JsonString

  /** The byte is a backslash that starts an escape sequence, counted from the start of the string. */
  predicate EscapeStart(content: Text, begin: nat, k: nat)
    requires begin <= k < |content|
    decreases k
  {
    content[k] == '\\' && (k == begin || !EscapeStart(content, begin, k - 1))
  }

  /** The bytes before k that start no escape sequence: as many bytes of output are reserved. */
  function Budget(content: Text, begin: nat, k: nat): nat
    requires begin <= k <= |content|
    decreases k
  {
    if k == begin then 0 else Budget(content, begin, k - 1) + if EscapeStart(content, begin, k - 1) then 0 else 1
  }

  /** No escape sequence reaches across k. */
  predicate Between(content: Text, begin: nat, k: nat)
    requires begin <= k <= |content|
  {
    k == begin || !EscapeStart(content, begin, k - 1)
  }

  /** Of two bytes in a row at most one starts an escape sequence. */
  lemma BudgetOfTwo(content: Text, begin: nat, k: nat)
    requires begin <= k && k + 2 <= |content|
    ensures Budget(content, begin, k + 2) >= Budget(content, begin, k) + 1
  {
    assert Budget(content, begin, k + 2) >= Budget(content, begin, k + 1) >= Budget(content, begin, k);
  }

  lemma {:induction false} BudgetOfPairs(content: Text, begin: nat, k: nat, n: nat)
    requires begin <= k && k + 2 * n <= |content|
    ensures Budget(content, begin, k + 2 * n) >= Budget(content, begin, k) + n
    decreases n
  {
    if n > 0 {
      BudgetOfPairs(content, begin, k, n - 1);
      BudgetOfTwo(content, begin, k + 2 * (n - 1));
    }
  }

  lemma {:induction false} BudgetMonotone(content: Text, begin: nat, a: nat, b: nat)
    requires begin <= a <= b <= |content|
    ensures Budget(content, begin, a) <= Budget(content, begin, b)
    decreases b
  {
    if a < b { BudgetMonotone(content, begin, a, b - 1); }
  }

  /** The first quote that no escape sequence takes. */
  ghost predicate ClosesAt(content: Text, begin: nat, end: nat)
  {
    && begin <= end < |content| && content[end] == '\"' && Between(content, begin, end)
    && forall k :: begin <= k < end && content[k] == '\"' ==> !Between(content, begin, k)
  }

  // ---------- Printed strings ----------

  ghost predicate NoQuote(content: Text, begin: nat, end: nat)
  {
    begin <= end <= |content| && forall k :: begin <= k < end && content[k] == '\"' ==> !Between(content, begin, k)
  }

  /** One printed byte, seen by the scan. */
  lemma ScanByte(content: Text, begin: nat, at: nat, c: Byte, next: nat)
    requires begin <= at && Expect(content, at, EscapeByte(c)) && Between(content, begin, at)
        && NoQuote(content, begin, at)
    requires next == at + |EscapeByte(c)|
    ensures Between(content, begin, next) && NoQuote(content, begin, next)
  {
    var e := EscapeByte(c);
    ExpectAt(content, at, e, 0);
    if |e| == 1 {
      assert content[at] != '\\' && content[at] != '\"';
    } else {
      assert content[at] == '\\' && EscapeStart(content, begin, at) && !EscapeStart(content, begin, at + 1);
      if |e| == 6 {
        ExpectAt(content, at, e, 2);
        ExpectAt(content, at, e, 3);
        ExpectAt(content, at, e, 4);
        ExpectAt(content, at, e, 5);
        HexIsDigit(c as int / 16);
        HexIsDigit(c as int % 16);
      }
    }
  }

  lemma HexIsDigit(n: nat)
    requires n < 16
    ensures HEX[n] != '\\' && HEX[n] != '\"' && HexValue(HEX[n]) == n
  {
  }

  lemma {:induction false} ScanPrinted(content: Text, begin: nat, at: nat, s: Text, end: nat)
    requires begin <= at && Expect(content, at, Escape(s)) && Between(content, begin, at) && NoQuote(content, begin, at)
    requires end == at + |Escape(s)|
    ensures Between(content, begin, end) && NoQuote(content, begin, end)
    decreases |s|
  {
    if s != [] {
      var next := at + |EscapeByte(s[0])|;
      ExpectConcat(content, at, EscapeByte(s[0]), Escape(s[1..]));
      ScanByte(content, begin, at, s[0], next);
      ScanPrinted(content, begin, next, s[1..], end);
    }
  }

  /** The scan of a printed string stops at its closing quote. */
  lemma PrintedCloses(content: Text, begin: nat, s: Text)
    requires Expect(content, begin, Escape(s) + ['\"'])
    ensures ClosesAt(content, begin, begin + |Escape(s)|)
  {
    ExpectConcat(content, begin, Escape(s), ['\"']);
    ScanPrinted(content, begin, begin, s, begin + |Escape(s)|);
    ExpectAt(content, begin + |Escape(s)|, ['\"'], 0);
  }
}
