/** The savings page: a monthly contribution derived from the budget form, a
    compounding projection, its contributed and interest totals, and the
    parsing of the "YYYY-MM" start month. Inputs arrive already coerced
    (`+x || 0`). */
module Savings {
  import opened Seqs
  import opened Text
  import Finance
  import SavingsProjection

  /** The monthly contribution the budget form implies: the savings rate's
      share of the combined income, or nothing without positive income. */
  function DerivedMonthlySavings(ryanIncome: real, steffIncome: real, savingsRate: real): (d: real)
    ensures d >= 0.0
    ensures ryanIncome + steffIncome <= 0.0 ==> d == 0.0
  {
    var total := ryanIncome + steffIncome;
    if total <= 0.0 then 0.0
    else
      Finance.MulNonNegative(Finance.Max(0.0, savingsRate) / 100.0, total);
      Finance.Max(0.0, savingsRate) / 100.0 * total
  }

  /** The derived contribution is the budget allocator's savings target,
      floored at zero, whatever the split method and the other pools. */
  lemma DerivedMatchesBudget(ryanIncome: real, steffIncome: real, monthlyBudget: real,
                             expensesTopUp: real, savingsRate: real, splitMethod: string)
    ensures DerivedMonthlySavings(ryanIncome, steffIncome, savingsRate)
         == Finance.Max(0.0, Finance.Calc(ryanIncome, steffIncome, monthlyBudget, expensesTopUp,
                                           savingsRate, splitMethod).ts)
  {
    var total := ryanIncome + steffIncome;
    var rate := Finance.Max(0.0, savingsRate) / 100.0;
    if total <= 0.0 {
      Finance.MulNonNegative(rate, -total);
      assert rate * total == -(rate * -total);
    }
  }

  /** The stored contribution after the budget form changes: an unset (None)
      or zero contribution is replaced by the derived one, any other kept. */
  function SyncMonthlySavings(monthlySavings: Option<real>, derived: real): (next: real)
    ensures monthlySavings.Some? && monthlySavings.value != 0.0 ==> next == monthlySavings.value
    ensures monthlySavings.None? || monthlySavings.value == 0.0 ==> next == derived
  {
    match monthlySavings
    case Some(v) => if v == 0.0 then derived else v
    case None => derived
  }

  /** Synchronising again with the same derived value changes nothing. */
  lemma SyncIdempotent(monthlySavings: Option<real>, derived: real)
    ensures var once := SyncMonthlySavings(monthlySavings, derived);
      SyncMonthlySavings(Some(once), derived) == once
  {
  }

  /** One projected month: its index from 0 and the balance at its end. */
  datatype Entry = Entry(monthIndex: nat, balance: real)

  /** The balance after `n` months of `bal * (1 + rate) + contrib`. */
  function Grow(start: real, rate: real, contrib: real, n: nat): real
  {
    if n == 0 then start else Grow(start, rate, contrib, n - 1) * (1.0 + rate) + contrib
  }

  /** The projection the page plots: one entry per month 1..months. */
  function Projection(currentBalance: real, annualRate: real, months: int,
                      monthlySavings: real, extraMonthly: real): (p: seq<Entry>)
    ensures |p| == if months > 0 then months else 0
    ensures forall i :: 0 <= i < |p| ==> p[i].monthIndex == i
  {
    var n := if months > 0 then months else 0;
    seq(n, i requires 0 <= i < n =>
      Entry(i, Grow(currentBalance, annualRate / 100.0 / 12.0, monthlySavings + extraMonthly, i + 1)))
  }

  /** The projection loop of the page. */
  method Project(currentBalance: real, annualRate: real, months: int,
                 monthlySavings: real, extraMonthly: real)
    returns (arr: seq<Entry>)
    ensures arr == Projection(currentBalance, annualRate, months, monthlySavings, extraMonthly)
  {
    arr := [];
    var rMonthly := annualRate / 100.0 / 12.0;
    var bal := currentBalance;
    var contrib := monthlySavings + extraMonthly;
    var m := 1;
    while m <= months
      invariant 1 <= m <= (if months > 0 then months else 0) + 1
      invariant |arr| == m - 1
      invariant bal == Grow(currentBalance, rMonthly, contrib, m - 1)
      invariant forall k :: 0 <= k < |arr| ==> arr[k] == Entry(k, Grow(currentBalance, rMonthly, contrib, k + 1))
    {
      bal := bal * (1.0 + rMonthly) + contrib;
      arr := arr + [Entry(m - 1, bal)];
      m := m + 1;
    }
  }

  /** With no interest the balance grows by one contribution a month. */
  lemma {:induction false} ZeroRateGrowth(start: real, contrib: real, n: nat)
    ensures Grow(start, 0.0, contrib, n) == start + (n as real) * contrib
  {
    if n > 0 {
      ZeroRateGrowth(start, contrib, n - 1);
    }
  }

  /** For a non-negative rate the page and the projection widget (with
      compounding on) compute the same balances. */
  lemma {:induction false} AgreesWithWidget(start: real, rate: real, contrib: real, n: nat)
    requires rate >= 0.0
    ensures Grow(start, rate, contrib, n) == SavingsProjection.BalanceAfter(start, contrib, rate, true, n)
  {
    if n > 0 {
      AgreesWithWidget(start, rate, contrib, n - 1);
    }
  }

  /** The balance the totals read: the last entry's, or 0 with no entries. */
  function LastBalance(projection: seq<Entry>): (last: real)
    ensures projection == [] ==> last == 0.0
    ensures projection != [] ==> last == projection[|projection| - 1].balance
  {
    if projection == [] then 0.0 else projection[|projection| - 1].balance
  }

  /** What the contributions add up to over `months` months. */
  function Contributed(monthlySavings: real, extraMonthly: real, months: int): real
  {
    (monthlySavings + extraMonthly) * (months as real)
  }

  /** The growth beyond the start and the contributions, never negative. */
  function InterestEarned(projection: seq<Entry>, currentBalance: real, contributed: real): (interest: real)
    ensures interest >= 0.0
    ensures interest >= LastBalance(projection) - currentBalance - contributed
    ensures interest == 0.0 || interest == LastBalance(projection) - currentBalance - contributed
  {
    Finance.Max(0.0, LastBalance(projection) - currentBalance - contributed)
  }

  /** Over a positive number of months the contributions reported are those
      the projection added, one per entry. */
  lemma ContributedPerEntry(currentBalance: real, annualRate: real, months: int,
                            monthlySavings: real, extraMonthly: real)
    requires months >= 0
    ensures Contributed(monthlySavings, extraMonthly, months)
         == (|Projection(currentBalance, annualRate, months, monthlySavings, extraMonthly)| as real)
            * (monthlySavings + extraMonthly)
  {
  }

  /** With a zero annual rate and at least one month, the projection ends at
      start + months × (monthly + extra) and no interest is reported. */
  lemma ZeroRateNoInterest(currentBalance: real, months: int, monthlySavings: real, extraMonthly: real)
    requires months >= 1
    ensures var p := Projection(currentBalance, 0.0, months, monthlySavings, extraMonthly);
      && LastBalance(p) == currentBalance + (months as real) * (monthlySavings + extraMonthly)
      && InterestEarned(p, currentBalance, Contributed(monthlySavings, extraMonthly, months)) == 0.0
  {
    var p := Projection(currentBalance, 0.0, months, monthlySavings, extraMonthly);
    assert 0.0 / 100.0 / 12.0 == 0.0;
    assert p[months - 1].balance == Grow(currentBalance, 0.0, monthlySavings + extraMonthly, months);
    ZeroRateGrowth(currentBalance, monthlySavings + extraMonthly, months);
  }

  // ---- Start month ------------------------------------------------------

  /** `s.slice(from, to)` for non-negative bounds: out-of-range ends are
      clamped to the length. */
  function Slice(s: string, from: nat, to: nat): (r: string)
    ensures |r| <= |s|
    ensures from <= to <= |s| ==> r == s[from..to]
  {
    var hi := if to <= |s| then to else |s|;
    var lo := if from <= hi then from else hi;
    s[lo..hi]
  }

  /** `Number(s)` for the decimal strings the month picker produces: blank
      text reads as 0, a string of digits as its value, anything else as NaN
      (None). */
  function NumberOf(s: string): (n: Option<nat>)
    ensures Trim(s) == [] ==> n == Some(0)
    ensures n.Some? && Trim(s) != [] ==>
      (forall k :: 0 <= k < |Trim(s)| ==> '0' <= Trim(s)[k] <= '9') && n.value == DigitsValue(Trim(s))
  {
    var t := Trim(s);
    if t == [] then Some(0)
    else if forall k :: 0 <= k < |t| ==> '0' <= t[k] <= '9' then Some(DigitsValue(t))
    else None
  }

  /** The start year and month index exactly as the page computes them: the
      year from characters 0-3 (the current year when that is 0 or not a
      number) and the month from characters 5-6 minus one (0 when that is not
      a number, but -1 when the characters are missing). */
  function StartYearMonthAsWritten(startMonth: string, currentYear: int): (ym: (int, int))
    ensures var y := NumberOf(Slice(startMonth, 0, 4));
      ym.0 == (if y.Some? && y.value != 0 then y.value else currentYear)
  {
    var y := NumberOf(Slice(startMonth, 0, 4));
    var m := NumberOf(Slice(startMonth, 5, 7));
    (if y.Some? && y.value != 0 then y.value else currentYear,
     if m.Some? then m.value - 1 else 0)
  }

  /** A cleared month picker (the empty string) starts the labels in month
      index -1, December of the previous year, not in January. */
  lemma ClearedPickerStartsBeforeJanuary(startMonth: string, currentYear: int)
    requires |startMonth| == 0
    ensures StartYearMonthAsWritten(startMonth, currentYear) == (currentYear, -1)
  {
    NoMonthDigits(startMonth, currentYear);
    BlankNumber(Slice(startMonth, 0, 4));
  }

  /** Any value too short to hold month digits gives month index -1. */
  lemma NoMonthDigits(startMonth: string, currentYear: int)
    requires |startMonth| <= 5
    ensures StartYearMonthAsWritten(startMonth, currentYear).1 == -1
  {
    BlankNumber(Slice(startMonth, 5, 7));
  }

  /** Empty text reads as the number 0. */
  lemma BlankNumber(s: string)
    requires |s| == 0
    ensures NumberOf(s) == Some(0)
  {
    assert Trim(s) == [];
  }

  /** The start year and month index with a missing or unreadable month
      falling back to January: only a month number 1..12 is taken. */
  function StartYearMonth(startMonth: string, currentYear: int): (ym: (int, int))
    ensures 0 <= ym.1 <= 11
    ensures ym.0 == StartYearMonthAsWritten(startMonth, currentYear).0
    ensures var m := StartYearMonthAsWritten(startMonth, currentYear).1;
      0 <= m <= 11 ==> ym.1 == m
  {
    var y := NumberOf(Slice(startMonth, 0, 4));
    var m := NumberOf(Slice(startMonth, 5, 7));
    (if y.Some? && y.value != 0 then y.value else currentYear,
     if m.Some? && 1 <= m.value <= 12 then m.value - 1 else 0)
  }

  /** `String(k).padStart(2, "0")` for k < 100. */
  function Pad2(k: nat): (r: string)
    requires k < 100
    ensures |r| == 2 && '0' <= r[0] <= '9' && '0' <= r[1] <= '9'
  {
    [DigitChar(k / 10), DigitChar(k % 10)]
  }

  /** The default start month, "YYYY-MM" for month index `m`. */
  function FormatYearMonth(year: nat, m: nat): string
    requires m < 99
  {
    NatToString(year) + "-" + Pad2(m + 1)
  }

  lemma DigitCharValue(d: nat)
    requires d < 10
    ensures DigitChar(d) as int - '0' as int == d
  {
  }

  lemma FourDigits(n: nat)
    requires 1000 <= n <= 9999
    ensures |NatToString(n)| == 4
  {
    assert |NatToString(n / 1000)| == 1;
    assert |NatToString(n / 100)| == 2;
    assert |NatToString(n / 10)| == 3;
  }

  lemma TrimDigits(s: string)
    requires s != [] && forall k :: 0 <= k < |s| ==> '0' <= s[k] <= '9'
    ensures Trim(s) == s
  {
    assert !IsSpace(s[0]);
    assert TrimStart(s) == s;
    assert !IsSpace(s[|s| - 1]);
  }

  lemma Pad2Value(k: nat)
    requires k < 100
    ensures DigitsValue(Pad2(k)) == k
  {
    var p := Pad2(k);
    DigitCharValue(k / 10);
    DigitCharValue(k % 10);
    assert p[..1] == [DigitChar(k / 10)];
    assert p[..1][..0] == [];
    assert DigitsValue(p[..1]) == k / 10;
    assert DigitsValue(p) == DigitsValue(p[..1]) * 10 + (p[1] as int - '0' as int);
  }

  /** A non-empty digit string reads as its decimal value. */
  lemma NumberOfDigits(s: string)
    requires s != [] && forall k :: 0 <= k < |s| ==> '0' <= s[k] <= '9'
    ensures NumberOf(s) == Some(DigitsValue(s))
  {
    TrimDigits(s);
  }

  /** Characters 0-3 of a formatted start month read back as the year. */
  lemma YearPart(year: nat, m: nat)
    requires 1000 <= year <= 9999 && m <= 11
    ensures NumberOf(Slice(FormatYearMonth(year, m), 0, 4)) == Some(year)
  {
    var ys := NatToString(year);
    var s := FormatYearMonth(year, m);
    FourDigits(year);
    assert s == ys + ("-" + Pad2(m + 1));
    assert s[0..4] == ys;
    NumberOfDigits(ys);
    NatToStringRoundTrip(year);
  }

  /** Characters 5-6 of a formatted start month read back as the month number. */
  lemma MonthPart(year: nat, m: nat)
    requires 1000 <= year <= 9999 && m <= 11
    ensures NumberOf(Slice(FormatYearMonth(year, m), 5, 7)) == Some(m + 1)
  {
    var ys := NatToString(year);
    var s := FormatYearMonth(year, m);
    FourDigits(year);
    assert s == (ys + "-") + Pad2(m + 1);
    assert s[5..7] == Pad2(m + 1);
    NumberOfDigits(Pad2(m + 1));
    Pad2Value(m + 1);
  }

  /** The default "YYYY-MM" for a four-digit year parses back to that year
      and month index, under both readings. */
  lemma {:induction false} FormatParseRoundTrip(year: nat, m: nat, currentYear: int)
    requires 1000 <= year <= 9999 && m <= 11
    ensures StartYearMonthAsWritten(FormatYearMonth(year, m), currentYear) == (year, m)
    ensures StartYearMonth(FormatYearMonth(year, m), currentYear) == (year, m)
  {
    YearPart(year, m);
    MonthPart(year, m);
  }
}
