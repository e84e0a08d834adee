/** The savings projection widget: a month-by-month balance series from a
    starting balance, a monthly contribution and an optional annual interest
    rate, with the first month that reaches a target. Balances are reals; the
    widget's rounding of each plotted point to cents is display only. */
module SavingsProjection {
  import opened Seqs
  import opened Text

  /** One plotted point: its label ("M1", "M2", ...) and the balance. */
  datatype Point = Point(month: string, balance: real)

  /** The monthly rate from the annual percentage. */
  function MonthlyRate(annualInterestPct: real): (rate: real)
    ensures rate * 1200.0 == annualInterestPct
    ensures annualInterestPct >= 0.0 ==> rate >= 0.0
  {
    annualInterestPct / 100.0 / 12.0
  }

  /** One month: interest is applied only with compounding on and a positive
      rate; otherwise the contribution is simply added. */
  function Step(bal: real, contribution: real, rate: real, compounding: bool): real
  {
    if compounding && rate > 0.0 then bal * (1.0 + rate) + contribution else bal + contribution
  }

  /** The balance after `n` months. */
  function BalanceAfter(start: real, contribution: real, rate: real, compounding: bool, n: nat): real
  {
    if n == 0 then start
    else Step(BalanceAfter(start, contribution, rate, compounding, n - 1), contribution, rate, compounding)
  }

  /** `hit` is the first month in 1..months whose balance reaches `target`,
      or None when no month does. */
  ghost predicate FirstHit(start: real, contribution: real, rate: real, compounding: bool,
                           months: nat, target: real, hit: Option<nat>)
  {
    match hit
    case Some(i) =>
      && 1 <= i <= months
      && BalanceAfter(start, contribution, rate, compounding, i) >= target
      && forall j :: 1 <= j < i ==> BalanceAfter(start, contribution, rate, compounding, j) < target
    case None =>
      forall j :: 1 <= j <= months ==> BalanceAfter(start, contribution, rate, compounding, j) < target
  }

  /** Extending the search by one month keeps an earlier hit, or records
      the new month when it is the first to reach the target. */
  lemma FirstHitNext(start: real, contribution: real, rate: real, compounding: bool,
                     n: nat, target: real, hit: Option<nat>)
    requires FirstHit(start, contribution, rate, compounding, n, target, hit)
    ensures FirstHit(start, contribution, rate, compounding, n + 1, target,
      if hit == None && BalanceAfter(start, contribution, rate, compounding, n + 1) >= target
      then Some(n + 1) else hit)
  {
  }

  /** The projection loop: one point per month 1..months, the final balance
      and the first month at or above the target. */
  method Project(currentBalance: real, monthlyContribution: real, annualInterestPct: real,
                 months: int, targetAmount: real, useCompounding: bool)
    returns (points: seq<Point>, endBalance: real, monthsToTarget: Option<nat>)
    ensures |points| == if months > 0 then months else 0
    ensures forall i :: 0 <= i < |points| ==>
      points[i] == Point("M" + NatToString(i + 1),
        BalanceAfter(currentBalance, monthlyContribution, MonthlyRate(annualInterestPct), useCompounding, i + 1))
    ensures endBalance ==
      BalanceAfter(currentBalance, monthlyContribution, MonthlyRate(annualInterestPct), useCompounding, |points|)
    ensures FirstHit(currentBalance, monthlyContribution, MonthlyRate(annualInterestPct), useCompounding,
                     |points|, targetAmount, monthsToTarget)
  {
    var monthlyRate := MonthlyRate(annualInterestPct);
    points := [];
    var bal := currentBalance;
    var hitTargetAt: Option<nat> := None;
    var i := 1;
    while i <= months
      invariant 1 <= i <= (if months > 0 then months else 0) + 1
      invariant |points| == i - 1
      invariant bal == BalanceAfter(currentBalance, monthlyContribution, monthlyRate, useCompounding, i - 1)
      invariant forall k :: 0 <= k < |points| ==>
        points[k] == Point("M" + NatToString(k + 1),
          BalanceAfter(currentBalance, monthlyContribution, monthlyRate, useCompounding, k + 1))
      invariant FirstHit(currentBalance, monthlyContribution, monthlyRate, useCompounding,
                         i - 1, targetAmount, hitTargetAt)
    {
      bal := Step(bal, monthlyContribution, monthlyRate, useCompounding);
      FirstHitNext(currentBalance, monthlyContribution, monthlyRate, useCompounding, i - 1, targetAmount, hitTargetAt);
      if hitTargetAt == None && bal >= targetAmount {
        hitTargetAt := Some(i);
      }
      points := points + [Point("M" + NatToString(i), bal)];
      i := i + 1;
    }
    endBalance := bal;
    monthsToTarget := hitTargetAt;
  }

  /** Without interest (compounding off, or a rate of zero or less) the
      balance grows by exactly one contribution a month. */
  lemma {:induction false} SimpleGrowth(start: real, contribution: real, rate: real, compounding: bool, n: nat)
    requires !compounding || rate <= 0.0
    ensures BalanceAfter(start, contribution, rate, compounding, n) == start + (n as real) * contribution
  {
    if n > 0 {
      SimpleGrowth(start, contribution, rate, compounding, n - 1);
    }
  }

  /** With compounding on and a positive annual rate, each month multiplies
      the balance by 1 + annual%/1200 and adds the contribution. */
  lemma CompoundingStep(start: real, contribution: real, annualInterestPct: real, n: nat)
    requires annualInterestPct > 0.0
    ensures BalanceAfter(start, contribution, MonthlyRate(annualInterestPct), true, n + 1)
         == BalanceAfter(start, contribution, MonthlyRate(annualInterestPct), true, n)
              * (1.0 + annualInterestPct / 1200.0) + contribution
  {
  }

  /** With a non-negative start, contribution and rate the balance never
      decreases from one month to the next, and never goes negative. */
  lemma {:induction false} NonDecreasing(start: real, contribution: real, rate: real, compounding: bool, n: nat)
    requires start >= 0.0 && contribution >= 0.0 && rate >= 0.0
    ensures 0.0 <= BalanceAfter(start, contribution, rate, compounding, n)
                <= BalanceAfter(start, contribution, rate, compounding, n + 1)
  {
    if n > 0 {
      NonDecreasing(start, contribution, rate, compounding, n - 1);
    }
    var b := BalanceAfter(start, contribution, rate, compounding, n);
    if compounding && rate > 0.0 {
      assert b * (1.0 + rate) == b + b * rate;
      assert b * rate >= 0.0;
    }
  }

  /** The months input keeps at least one month. */
  function MonthsInput(value: real): (months: real)
    ensures months >= 1.0
    ensures value >= 1.0 ==> months == value
  {
    if 1.0 >= value then 1.0 else value
  }

  /** The annual-interest input never goes below zero. */
  function InterestInput(value: real): (pct: real)
    ensures pct >= 0.0
    ensures value >= 0.0 ==> pct == value
  {
    if 0.0 >= value then 0.0 else value
  }

  /** The target input never goes below zero. */
  function TargetInput(value: real): (target: real)
    ensures target >= 0.0
    ensures value >= 0.0 ==> target == value
  {
    if 0.0 >= value then 0.0 else value
  }
}
