/** Invoice numbers: "INV-%d-%04d" of the year and the running count, and the parser that
    proves two different invoices never print alike. */
module InvoiceNumbers {
  const DIGITS := "0123456789"

  /** %d of a natural number. */
  function Decimal(n: nat): (s: string)
    ensures s != [] && '-' !in s
  {
    if n < 10 then [DIGITS[n]] else Decimal(n / 10) + [DIGITS[n % 10]]
  }

  /** %04d: padded with zeros to at least four places, longer numbers printed in full. */
  function Padded(n: nat): string {
    if n < 10 then "000" + Decimal(n)
    else if n < 100 then "00" + Decimal(n)
    else if n < 1000 then "0" + Decimal(n)
    else Decimal(n)
  }

  function Format(year: nat, n: nat): string { "INV-" + Decimal(year) + "-" + Padded(n) }

  // ---------- reading a number back ----------

  function DigitValue(c: char): nat { if '0' <= c <= '9' then c as nat - '0' as nat else 0 }

  function Value(s: string): nat {
    if s == [] then 0 else 10 * Value(s[..|s| - 1]) + DigitValue(s[|s| - 1])
  }

  /** The position of the first '-' at or after `from`. */
  function Dash(s: string, from: nat): (k: nat)
    requires from <= |s|
    decreases |s| - from
  {
    if from == |s| || s[from] == '-' then from else Dash(s, from + 1)
  }

  /** Year and count of a printed number. */
  function Parse(s: string): (nat, nat) {
    if |s| < 4 then (0, 0)
    else
      var k := Dash(s, 4);
      if k < 4 || k >= |s| then (0, 0) else (Value(s[4..k]), Value(s[k + 1..]))
  }

  lemma {:induction false} DecimalRoundTrip(n: nat)
    ensures Value(Decimal(n)) == n
  {
    assert forall d | 0 <= d < 10 :: DigitValue(DIGITS[d]) == d;
    var s := Decimal(n);
    if n < 10 {
      assert s[..|s| - 1] == [];
    } else {
      DecimalRoundTrip(n / 10);
      assert s[..|s| - 1] == Decimal(n / 10);
    }
  }

  lemma {:induction false} LeadingZero(s: string)
    ensures Value("0" + s) == Value(s)
  {
    if s == [] {
      assert ("0" + s)[..0] == [];
    } else {
      LeadingZero(s[..|s| - 1]);
      assert ("0" + s)[..|"0" + s| - 1] == "0" + s[..|s| - 1];
    }
  }

  lemma PaddedRoundTrip(n: nat)
    ensures Value(Padded(n)) == n
  {
    DecimalRoundTrip(n);
    LeadingZeros(Decimal(n));
  }

  lemma LeadingZeros(s: string)
    ensures Value("0" + s) == Value(s) && Value("00" + s) == Value(s) && Value("000" + s) == Value(s)
  {
    LeadingZero(s);
    LeadingZero("0" + s);
    LeadingZero("00" + s);
    assert "00" + s == "0" + ("0" + s) && "000" + s == "0" + ("00" + s);
  }

  lemma SeventhOfItsYear()
    ensures Format(2026, 7) == "INV-2026-0007"
  {
    assert Decimal(2026) == "2026" by {
      assert Decimal(2) == "2" && Decimal(20) == "20" && Decimal(202) == "202";
    }
  }

  /** Never fewer than four places, and no zero is added to a number that has four. */
  lemma PaddedWidth(n: nat)
    ensures n < 10000 ==> |Padded(n)| == 4
    ensures n >= 1000 ==> Padded(n) == Decimal(n)
  {
    if 10 <= n { assert |Decimal(n)| == |Decimal(n / 10)| + 1; }
    if 100 <= n { assert |Decimal(n / 10)| == |Decimal(n / 10 / 10)| + 1; }
    if 1000 <= n { assert |Decimal(n / 10 / 10)| == |Decimal(n / 10 / 10 / 10)| + 1; }
  }

  lemma {:induction false} DashAfterYear(s: string, from: nat, k: nat)
    requires from <= k < |s| && s[k] == '-' && forall i | from <= i < k :: s[i] != '-'
    ensures Dash(s, from) == k
    decreases k - from
  {
    if from < k { DashAfterYear(s, from + 1, k); }
  }

  /** Printing is undone by parsing, for every year and every count, four digits or more. */
  lemma FormatRoundTrip(year: nat, n: nat)
    ensures Parse(Format(year, n)) == (year, n)
  {
    var s, y := Format(year, n), Decimal(year);
    var k := 4 + |y|;
    assert s[4..k] == y;
    assert s[k] == '-';
    assert s[k + 1..] == Padded(n);
    forall i | 4 <= i < k ensures s[i] != '-' { assert s[i] == y[i - 4] && y[i - 4] in y; }
    DashAfterYear(s, 4, k);
    DecimalRoundTrip(year);
    PaddedRoundTrip(n);
  }

  lemma FormatIsInjective(year: nat, n: nat, year': nat, n': nat)
    ensures Format(year, n) == Format(year', n') <==> year == year' && n == n'
  {
    FormatRoundTrip(year, n);
    FormatRoundTrip(year', n');
  }
}
