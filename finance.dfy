/** The budget allocator of the finance page: from two incomes, a monthly
    budget, an expenses top-up and a savings rate it derives three pool targets
    and splits each between Ryan and Steff by the selected split method. Money
    and rates are reals: the page works on doubles, but every promise below is
    an identity of real arithmetic. Inputs arrive already coerced from the form
    (`Number(x) || 0`). */
module Finance {
  import opened Seqs

  /** The advisory shown when the targets exceed the combined income. */
  const LeftoverWarning: string := "Targets exceed combined income \U{2014} leftovers go negative."

  /** One pool's contributions. */
  datatype Split = Split(ryan: real, steff: real)

  /** Everything the allocator returns. */
  datatype Budget = Budget(
    totalIncome: real,
    tm: real,             // monthly pool target
    te: real,             // expenses pool target
    ts: real,             // savings pool target
    t: real,              // all three targets together
    monthly: Split,
    expenses: Split,
    savings: Split,
    remR: real,           // Ryan's income left after his contributions
    remS: real,           // Steff's income left after her contributions
    warn: Option<string>)

  function Max(a: real, b: real): real { if a >= b then a else b }
  function Min(a: real, b: real): real { if a <= b then a else b }

  /** `x` lies between 0 and `bound`, whichever sign `bound` has. */
  predicate BetweenZeroAnd(x: real, bound: real)
  {
    Min(0.0, bound) <= x <= Max(0.0, bound)
  }

  /** Both halves of a pool. */
  function Halves(pool: real): (sp: Split)
    ensures sp.ryan == sp.steff
    ensures sp.ryan + sp.steff == pool
  {
    Split(pool / 2.0, pool / 2.0)
  }

  /** A pool divided by Ryan's fraction `f` and Steff's fraction `g`; the
      fractions always sum to one where the allocator uses this. */
  function ByFractions(pool: real, f: real, g: real): (sp: Split)
    requires f + g == 1.0
    ensures sp.ryan + sp.steff == pool
    ensures 0.0 <= f <= 1.0 ==> BetweenZeroAnd(sp.ryan, pool) && BetweenZeroAnd(sp.steff, pool)
  {
    assert pool * f + pool * g == pool * (f + g);
    ScaledBetween(pool, f);
    ScaledBetween(pool, g);
    Split(pool * f, pool * g)
  }

  /** Scaling by a fraction in `[0, 1]` stays between zero and the pool. */
  lemma ScaledBetween(pool: real, f: real)
    ensures 0.0 <= f <= 1.0 ==> BetweenZeroAnd(pool * f, pool)
  {
    if 0.0 <= f <= 1.0 {
      assert pool - pool * f == pool * (1.0 - f);
      if pool >= 0.0 {
        MulNonNegative(pool, f);
        MulNonNegative(pool, 1.0 - f);
      } else {
        MulNonNegative(-pool, f);
        MulNonNegative(-pool, 1.0 - f);
      }
    }
  }

  lemma MulNonNegative(a: real, b: real)
    requires a >= 0.0 && b >= 0.0
    ensures a * b >= 0.0
  {
  }

  /** Ryan's contributions to three pools split by the same fractions add up
      to that fraction of the total. */
  lemma FractionTotals(tm: real, te: real, ts: real, f: real)
    ensures tm * f + te * f + ts * f == (tm + te + ts) * f
  {
  }

  /** Ryan's share of every pool under "equal-leftover": his candidate
      contribution `r - L`, clamped into `[0, T]`, as a fraction of `T`; zero
      when there is nothing to split. */
  function LeftoverFraction(r: real, s: real, t: real): (f: real)
    ensures t > 0.0 ==> 0.0 <= f <= 1.0
    ensures t <= 0.0 ==> f == 0.0
  {
    var l := (r + s - t) / 2.0;
    var cr := if t > 0.0 then Max(0.0, Min(t, r - l)) else 0.0;
    if t > 0.0 then cr / t else 0.0
  }

  /** The three pools' splits and the warning, before remainders. */
  datatype Pools = Pools(monthly: Split, expenses: Split, savings: Split, warn: Option<string>)

  /** What Ryan pays into all three pools. */
  function RyanTotal(p: Pools): real { p.monthly.ryan + p.expenses.ryan + p.savings.ryan }

  /** What Steff pays into all three pools. */
  function SteffTotal(p: Pools): real { p.monthly.steff + p.expenses.steff + p.savings.steff }

  /** "proportional" with positive combined income: each pool in the ratio
      of the incomes. */
  function ProportionalPools(r: real, s: real, tm: real, te: real, ts: real): (p: Pools)
    requires r + s > 0.0
    ensures p.monthly.ryan + p.monthly.steff == tm
    ensures p.expenses.ryan + p.expenses.steff == te
    ensures p.savings.ryan + p.savings.steff == ts
    ensures p.warn.None?
  {
    var pr := r / (r + s);
    var ps := s / (r + s);
    assert pr + ps == 1.0;
    Pools(ByFractions(tm, pr, ps), ByFractions(te, pr, ps), ByFractions(ts, pr, ps), None)
  }

  /** "equal-leftover": the same fraction of every pool, chosen so that both
      keep the same amount when no clamping is needed. */
  function LeftoverPools(r: real, s: real, tm: real, te: real, ts: real): (p: Pools)
    ensures p.monthly.ryan + p.monthly.steff == tm
    ensures p.expenses.ryan + p.expenses.steff == te
    ensures p.savings.ryan + p.savings.steff == ts
    ensures p.warn.Some? <==> r + s < tm + te + ts
    ensures p.warn.Some? ==> p.warn.value == LeftoverWarning
  {
    var t := tm + te + ts;
    var l := (r + s - t) / 2.0;
    var f := LeftoverFraction(r, s, t);
    Pools(ByFractions(tm, f, 1.0 - f), ByFractions(te, f, 1.0 - f), ByFractions(ts, f, 1.0 - f),
          if l < 0.0 then Some(LeftoverWarning) else None)
  }

  /** Every other case: halves of every pool. */
  function HalfPools(tm: real, te: real, ts: real): (p: Pools)
    ensures p.monthly.ryan + p.monthly.steff == tm
    ensures p.expenses.ryan + p.expenses.steff == te
    ensures p.savings.ryan + p.savings.steff == ts
    ensures p.warn.None?
  {
    Pools(Halves(tm), Halves(te), Halves(ts), None)
  }

  /** The allocator (`calc` on the finance page). */
  function Calc(r: real, s: real, monthlyBudget: real, expensesTopUp: real,
                savingsRate: real, splitMethod: string): (b: Budget)
    ensures b.totalIncome == r + s
    ensures b.tm >= 0.0 && b.te >= 0.0
    ensures r >= 0.0 && s >= 0.0 ==> b.ts >= 0.0
    ensures b.t == b.tm + b.te + b.ts
    ensures b.monthly.ryan + b.monthly.steff == b.tm
    ensures b.expenses.ryan + b.expenses.steff == b.te
    ensures b.savings.ryan + b.savings.steff == b.ts
    ensures b.remR + b.remS == b.totalIncome - b.t
    ensures b.warn.Some? <==> splitMethod == "equal-leftover" && r + s < b.t
    ensures b.warn.Some? ==> b.warn.value == LeftoverWarning
  {
    var totalIncome := r + s;
    var tm := Max(0.0, monthlyBudget);
    var te := Max(0.0, expensesTopUp);
    var ts := Max(0.0, savingsRate) / 100.0 * totalIncome;
    var p :=
      if splitMethod == "proportional" && totalIncome > 0.0 then ProportionalPools(r, s, tm, te, ts)
      else if splitMethod == "equal-leftover" then LeftoverPools(r, s, tm, te, ts)
      else HalfPools(tm, te, ts);
    Budget(totalIncome, tm, te, ts, tm + te + ts, p.monthly, p.expenses, p.savings,
           r - RyanTotal(p), s - SteffTotal(p), p.warn)
  }

  /** Under "equal", under any method name the page does not know, and under
      "proportional" with no positive combined income, each person pays
      exactly half of every pool. */
  lemma EqualHalvesApply(r: real, s: real, monthlyBudget: real, expensesTopUp: real,
                         savingsRate: real, splitMethod: string)
    requires splitMethod != "equal-leftover"
    requires splitMethod == "proportional" ==> r + s <= 0.0
    ensures var b := Calc(r, s, monthlyBudget, expensesTopUp, savingsRate, splitMethod);
      && b.monthly == Split(b.tm / 2.0, b.tm / 2.0)
      && b.expenses == Split(b.te / 2.0, b.te / 2.0)
      && b.savings == Split(b.ts / 2.0, b.ts / 2.0)
      && b.remR - b.remS == r - s
  {
  }

  /** Under "proportional" with positive combined income, Ryan pays the
      fraction r/(r+s) of every pool and Steff s/(r+s). */
  lemma ProportionalShares(r: real, s: real, monthlyBudget: real, expensesTopUp: real,
                           savingsRate: real)
    requires r + s > 0.0
    ensures var b := Calc(r, s, monthlyBudget, expensesTopUp, savingsRate, "proportional");
      && b.monthly == Split(b.tm * (r / (r + s)), b.tm * (s / (r + s)))
      && b.expenses == Split(b.te * (r / (r + s)), b.te * (s / (r + s)))
      && b.savings == Split(b.ts * (r / (r + s)), b.ts * (s / (r + s)))
  {
  }

  /** Under "equal-leftover" with a positive total target, every contribution
      lies between zero and its pool's target; with no positive target every
      contribution is zero. */
  lemma EqualLeftoverBounds(r: real, s: real, monthlyBudget: real, expensesTopUp: real,
                            savingsRate: real)
    ensures var b := Calc(r, s, monthlyBudget, expensesTopUp, savingsRate, "equal-leftover");
      && (b.t > 0.0 ==>
            && BetweenZeroAnd(b.monthly.ryan, b.tm) && BetweenZeroAnd(b.monthly.steff, b.tm)
            && BetweenZeroAnd(b.expenses.ryan, b.te) && BetweenZeroAnd(b.expenses.steff, b.te)
            && BetweenZeroAnd(b.savings.ryan, b.ts) && BetweenZeroAnd(b.savings.steff, b.ts))
      && (b.t <= 0.0 ==>
            b.monthly.ryan == 0.0 && b.expenses.ryan == 0.0 && b.savings.ryan == 0.0)
  {
  }

  /** When Ryan's candidate contribution r - L needs no clamping, both keep L. */
  lemma LeftoverPoolsBalanced(r: real, s: real, tm: real, te: real, ts: real)
    requires var t := tm + te + ts; t > 0.0 && 0.0 <= r - (r + s - t) / 2.0 <= t
    ensures var p := LeftoverPools(r, s, tm, te, ts); var l := (r + s - (tm + te + ts)) / 2.0;
      r - RyanTotal(p) == l && s - SteffTotal(p) == l
  {
    var t := tm + te + ts;
    var l := (r + s - t) / 2.0;
    var f := LeftoverFraction(r, s, t);
    assert f == (r - l) / t;
    assert t * f == r - l by { CancelDivision(r - l, t); }
    FractionTotals(tm, te, ts, f);
    FractionTotals(tm, te, ts, 1.0 - f);
    assert t * (1.0 - f) == t - t * f;
  }

  lemma CancelDivision(x: real, t: real)
    requires t != 0.0
    ensures t * (x / t) == x
  {
  }

  /** Under "equal-leftover", when Ryan's candidate contribution needs no
      clamping, both are left with the same amount L = (r + s - T) / 2. */
  lemma EqualLeftoverBalanced(r: real, s: real, monthlyBudget: real, expensesTopUp: real,
                              savingsRate: real)
    requires var b := Calc(r, s, monthlyBudget, expensesTopUp, savingsRate, "equal-leftover");
      b.t > 0.0 && 0.0 <= r - (r + s - b.t) / 2.0 <= b.t
    ensures var b := Calc(r, s, monthlyBudget, expensesTopUp, savingsRate, "equal-leftover");
      b.remR == b.remS == (r + s - b.t) / 2.0
  {
    var b := Calc(r, s, monthlyBudget, expensesTopUp, savingsRate, "equal-leftover");
    LeftoverPoolsBalanced(r, s, b.tm, b.te, b.ts);
  }
}
