/**
 Goal funding: the closed-form projection and required monthly amount of each
 active goal, and the split of the client's monthly investment between goals.
 */
module GoalProjection {
  import opened Options
  import opened Rounding
  import opened Selections

  /** A goal; the deadline is in seconds. */
  datatype Goal = Goal(active: bool, target: real, current: real, deadline: Option<int>)

  datatype Item = Item(goal: Goal, monthsLeft: nat, required: real)

  datatype Projection = Projection(
    monthsLeft: nat, requiredMonthly: real, estimatedMonthly: real,
    projected: real, shortfall: real, additional: real, onTrack: bool)

  function Pow(b: real, n: nat): real {
    if n == 0 then 1.0 else Pow(b, n - 1) * b
  }

  /** n months of growth at rate r followed by a contribution m. */
  function Iterate(x: real, r: real, m: real, n: nat): real {
    if n == 0 then x else Iterate(x, r, m, n - 1) * (1.0 + r) + m
  }

  /** A rate that is not positive is treated as no growth at all. */
  function EffectiveRate(r: real): real {
    if r > 0.0 then r else 0.0
  }

  /** The code's closed form for the projected amount. */
  function Project(current: real, r: real, monthly: real, n: nat): real {
    if r > 0.0 then
      var grow := Pow(1.0 + r, n);
      current * grow + monthly * ((grow - 1.0) / r)
    else current + monthly * n as real
  }

  function Growth(r: real, n: nat): real {
    if r > 0.0 then Pow(1.0 + r, n) else 1.0
  }

  function Annuity(r: real, n: nat): real {
    if r > 0.0 then (Pow(1.0 + r, n) - 1.0) / r else n as real
  }

  lemma ProjectIsLinear(current: real, r: real, monthly: real, n: nat)
    ensures Project(current, r, monthly, n) == current * Growth(r, n) + monthly * Annuity(r, n)
  {
  }

  lemma AnnuityStep(r: real, n: nat)
    ensures Growth(r, n + 1) == Growth(r, n) * (1.0 + EffectiveRate(r))
    ensures Annuity(r, n + 1) == Annuity(r, n) * (1.0 + EffectiveRate(r)) + 1.0
  {
    if r > 0.0 {
      var g := Pow(1.0 + r, n);
      var a := (g - 1.0) / r;
      assert Pow(1.0 + r, n + 1) == g * (1.0 + r);
      assert a * r == g - 1.0;
      assert (a * (1.0 + r) + 1.0) * r == a * r * (1.0 + r) + r;
      assert (g - 1.0) * (1.0 + r) + r == g * (1.0 + r) - 1.0;
      DivideBack(a * (1.0 + r) + 1.0, r, g * (1.0 + r) - 1.0);
    }
  }

  lemma DivideBack(x: real, r: real, y: real)
    requires r != 0.0 && x * r == y
    ensures y / r == x
  {
  }

  lemma {:induction false} AnnuityPositive(r: real, n: nat)
    ensures Growth(r, n) >= 1.0
    ensures n > 0 ==> Annuity(r, n) > 0.0
    ensures Annuity(r, n) >= 0.0
  {
    if n == 0 {
      assert Growth(r, 0) == 1.0 && Annuity(r, 0) == 0.0;
    } else {
      AnnuityPositive(r, n - 1);
      AnnuityStep(r, n - 1);
      var e := EffectiveRate(r);
      assert Growth(r, n - 1) * e >= 0.0 && Annuity(r, n - 1) * e >= 0.0;
    }
  }

  lemma {:induction false} IterateIsLinear(current: real, r: real, monthly: real, n: nat)
    ensures Iterate(current, EffectiveRate(r), monthly, n)
         == current * Growth(r, n) + monthly * Annuity(r, n)
  {
    if n == 0 {
      assert Growth(r, 0) == 1.0 && Annuity(r, 0) == 0.0;
    } else {
      IterateIsLinear(current, r, monthly, n - 1);
      AnnuityStep(r, n - 1);
      StepAlgebra(current, monthly, Growth(r, n - 1), Annuity(r, n - 1), 1.0 + EffectiveRate(r),
                  Growth(r, n), Annuity(r, n));
    }
  }

  lemma StepAlgebra(c: real, m: real, g: real, a: real, f: real, g': real, a': real)
    requires g' == g * f && a' == a * f + 1.0
    ensures c * g' + m * a' == (c * g + m * a) * f + m
  {
    assert c * (g * f) == c * g * f;
    assert m * (a * f + 1.0) == m * a * f + m;
  }

  /** The closed form is n months of x -> x*(1+r)+m, at the effective rate. */
  lemma ProjectIsIterate(current: real, r: real, monthly: real, n: nat)
    ensures Project(current, r, monthly, n) == Iterate(current, EffectiveRate(r), monthly, n)
  {
    ProjectIsLinear(current, r, monthly, n);
    IterateIsLinear(current, r, monthly, n);
  }

  /** The monthly amount before the clamp at zero; n is positive. */
  function RawRequired(g: Goal, r: real, n: nat): real
    requires n > 0
  {
    if r > 0.0 then
      var grow := Pow(1.0 + r, n);
      if (grow - 1.0) / r == 0.0 then 0.0
      else (g.target - g.current * grow) / ((grow - 1.0) / r)
    else (g.target - g.current) / n as real
  }

  function Required(g: Goal, r: real, n: nat): real {
    if n == 0 || RawRequired(g, r, n) < 0.0 then 0.0 else RawRequired(g, r, n)
  }

  /** The projection falls short exactly below the unclamped required amount. */
  lemma ShortBelowRaw(g: Goal, r: real, n: nat, monthly: real)
    requires n > 0
    ensures Project(g.current, r, monthly, n) < g.target <==> monthly < RawRequired(g, r, n)
    ensures Project(g.current, r, RawRequired(g, r, n), n) == g.target
  {
    RawIsQuotient(g, r, n);
    var a, b, q := Annuity(r, n), g.target - g.current * Growth(r, n), RawRequired(g, r, n);
    QuotientOrder(monthly, a, b);
    ProjectIsLinear(g.current, r, monthly, n);
    ProjectIsLinear(g.current, r, q, n);
  }

  lemma RawIsQuotient(g: Goal, r: real, n: nat)
    requires n > 0
    ensures Annuity(r, n) > 0.0
    ensures RawRequired(g, r, n) == (g.target - g.current * Growth(r, n)) / Annuity(r, n)
  {
    AnnuityPositive(r, n);
  }

  lemma QuotientOrder(m: real, a: real, b: real)
    requires a > 0.0
    ensures b / a * a == b
    ensures m * a < b <==> m < b / a
  {
    var q := b / a;
    assert q * a == b;
    if m < q {
      assert (q - m) * a > 0.0;
    } else {
      assert (m - q) * a >= 0.0;
    }
  }

  /** The required amount is the least non-negative contribution that reaches the target. */
  lemma RequiredIsLeast(g: Goal, r: real, n: nat)
    requires n > 0
    ensures Required(g, r, n) >= 0.0
    ensures Iterate(g.current, EffectiveRate(r), Required(g, r, n), n) >= g.target
    ensures forall m :: 0.0 <= m < Required(g, r, n) ==>
                          Iterate(g.current, EffectiveRate(r), m, n) < g.target
  {
    var q := Required(g, r, n);
    ProjectIsIterate(g.current, r, q, n);
    ShortBelowRaw(g, r, n, q);
    forall m | 0.0 <= m < q ensures Iterate(g.current, EffectiveRate(r), m, n) < g.target {
      ProjectIsIterate(g.current, r, m, n);
      ShortBelowRaw(g, r, n, m);
    }
  }

  // ---- the split between goals --------------------------------------------------

  /** Whole months of 30.44 days until the deadline, zero when none or past. */
  function MonthsLeft(g: Goal, now: int): nat {
    if g.deadline == None || g.deadline.value <= now then 0
    else ((g.deadline.value - now) as real / 3600.0 / 24.0 / 30.44).Floor
  }

  /**
   n whole months of 30.44 days, 2630016 seconds, fit before the deadline; none when it is
   missing, past or closer than that.
   */
  predicate IsMonthsUntil(deadline: Option<int>, now: int, n: nat) {
    if deadline == None || (deadline.value - now) as real < 2630016.0 then n == 0
    else n as real * 2630016.0 <= (deadline.value - now) as real < (n + 1) as real * 2630016.0
  }

  lemma MonthsLeftFit(g: Goal, now: int)
    ensures IsMonthsUntil(g.deadline, now, MonthsLeft(g, now))
  {
    if g.deadline != None && g.deadline.value > now {
      var t, n := (g.deadline.value - now) as real, MonthsLeft(g, now);
      assert t / 3600.0 / 24.0 / 30.44 == t / 2630016.0;
      assert n as real <= t / 2630016.0 < (n + 1) as real;
    }
  }

  function ItemOf(g: Goal, r: real, now: int): Item {
    var n := MonthsLeft(g, now);
    Item(g, n, Required(g, r, n))
  }

  /** The active goals, in order. */
  function Items(goals: seq<Goal>, r: real, now: int): (items: seq<Item>)
    ensures forall i :: 0 <= i < |items| ==>
                          && items[i].goal in goals && items[i].goal.active
                          && items[i] == ItemOf(items[i].goal, r, now)
    ensures (exists g :: g in goals && g.active) ==> items != []
  {
    if goals == [] then []
    else
      var front := Items(goals[..|goals| - 1], r, now);
      var last := goals[|goals| - 1];
      if last.active then front + [ItemOf(last, r, now)] else front
  }

  /** One item for every active goal, in the order of the goals. */
  lemma {:induction false} ItemsAreActiveGoals(goals: seq<Goal>, r: real, now: int)
    ensures var active := Filter(goals, (g: Goal) => g.active);
            && |Items(goals, r, now)| == |active|
            && forall i :: 0 <= i < |active| ==> Items(goals, r, now)[i].goal == active[i]
    decreases |goals|
  {
    if goals != [] {
      ItemsAreActiveGoals(goals[..|goals| - 1], r, now);
    }
  }

  function SumRequired(items: seq<Item>): real {
    if items == [] then 0.0
    else SumRequired(items[..|items| - 1]) + items[|items| - 1].required
  }

  /** The share of one goal, before it is rounded for display. */
  function Share(items: seq<Item>, i: nat, monthlyInvested: real): real
    requires i < |items|
  {
    if SumRequired(items) > 0.0 then items[i].required / SumRequired(items) * monthlyInvested
    else monthlyInvested / |items| as real
  }

  function SumShares(items: seq<Item>, k: nat, monthlyInvested: real): real
    requires k <= |items|
  {
    if k == 0 then 0.0
    else SumShares(items, k - 1, monthlyInvested) + Share(items, k - 1, monthlyInvested)
  }

  function RequiredPrefix(items: seq<Item>, k: nat): real
    requires k <= |items|
  {
    if k == 0 then 0.0 else RequiredPrefix(items, k - 1) + items[k - 1].required
  }

  lemma {:induction false} RequiredPrefixIsSum(items: seq<Item>, k: nat)
    requires k <= |items|
    ensures RequiredPrefix(items, k) == SumRequired(items[..k])
  {
    if k > 0 {
      RequiredPrefixIsSum(items, k - 1);
      assert items[..k][..k - 1] == items[..k - 1];
    }
  }

  lemma {:induction false} SharesProportional(items: seq<Item>, k: nat, m: real)
    requires k <= |items| && SumRequired(items) > 0.0
    ensures SumShares(items, k, m) == RequiredPrefix(items, k) / SumRequired(items) * m
  {
    if k > 0 {
      SharesProportional(items, k - 1, m);
      ScaleSum(RequiredPrefix(items, k - 1), items[k - 1].required, SumRequired(items), m);
    }
  }

  lemma {:induction false} SharesEqual(items: seq<Item>, k: nat, m: real, each: real)
    requires k <= |items| && SumRequired(items) <= 0.0 && items != []
    requires each == m / |items| as real
    ensures SumShares(items, k, m) == k as real * each
  {
    if k > 0 {
      SharesEqual(items, k - 1, m, each);
      OneMore(k - 1, each);
    }
  }

  lemma OneMore(k: nat, each: real)
    ensures (k + 1) as real * each == k as real * each + each
  {
    assert (k + 1) as real == k as real + 1.0;
  }

  lemma ScaleSum(p: real, q: real, total: real, m: real)
    requires total > 0.0
    ensures (p + q) / total * m == p / total * m + q / total * m
  {
    assert (p + q) / total == p / total + q / total;
  }

  /** The unrounded shares of all active goals add up to the monthly investment. */
  lemma SharesConserved(items: seq<Item>, monthlyInvested: real)
    requires items != []
    ensures SumShares(items, |items|, monthlyInvested) == monthlyInvested
  {
    var n := |items| as real;
    if SumRequired(items) > 0.0 {
      SharesProportional(items, |items|, monthlyInvested);
      RequiredPrefixIsSum(items, |items|);
      assert items[..|items|] == items;
    } else {
      SharesEqual(items, |items|, monthlyInvested, monthlyInvested / n);
      assert n * (monthlyInvested / n) == monthlyInvested;
    }
  }

  /** When anything is required, every goal gets the same part of what it requires. */
  lemma SharesAreFair(items: seq<Item>, monthlyInvested: real) returns (part: real)
    requires SumRequired(items) > 0.0
    ensures forall i: nat :: i < |items| ==> Share(items, i, monthlyInvested) == part * items[i].required
  {
    part := monthlyInvested / SumRequired(items);
    forall i: nat | i < |items| ensures Share(items, i, monthlyInvested) == part * items[i].required {
      DivideFirst(items[i].required, SumRequired(items), monthlyInvested);
    }
  }

  lemma DivideFirst(q: real, total: real, m: real)
    requires total > 0.0
    ensures q / total * m == m / total * q
  {
    var f, g := q / total, m / total;
    assert f * total == q && g * total == m;
    assert f * (g * total) == g * (f * total);
  }

  /** When nothing is required, all goals get the same. */
  lemma SharesAreEqual(items: seq<Item>, i: nat, monthlyInvested: real)
    requires i < |items| && SumRequired(items) <= 0.0
    ensures Share(items, i, monthlyInvested) * |items| as real == monthlyInvested
  {
    var part := monthlyInvested / |items| as real;
    assert part * |items| as real == monthlyInvested;
  }

  lemma ShareNonNegative(items: seq<Item>, i: nat, monthlyInvested: real)
    requires i < |items| && monthlyInvested >= 0.0 && items[i].required >= 0.0
    ensures Share(items, i, monthlyInvested) >= 0.0
  {
    if SumRequired(items) > 0.0 {
      var q := items[i].required / SumRequired(items);
      assert q >= 0.0;
    }
  }

  /**
   For a goal with months left and a non-negative monthly investment, the projection
   falls short exactly when the share is below the required amount, and paying the
   difference on top of the share then lands on the target exactly.
   */
  lemma ShortfallExactly(items: seq<Item>, i: nat, r: real, monthlyInvested: real)
    requires i < |items| && items[i].monthsLeft > 0 && monthlyInvested >= 0.0
    requires items[i].required == Required(items[i].goal, r, items[i].monthsLeft)
    ensures var it, share := items[i], Share(items, i, monthlyInvested);
            && (Project(it.goal.current, r, share, it.monthsLeft) < it.goal.target
                <==> share < it.required)
            && (share < it.required ==>
                  Project(it.goal.current, r, share + (it.required - share), it.monthsLeft) == it.goal.target)
  {
    var it := items[i];
    ShareNonNegative(items, i, monthlyInvested);
    ShortBelowRaw(it.goal, r, it.monthsLeft, Share(items, i, monthlyInvested));
  }

  /**
   For any share, also a negative one: the equivalence fails exactly when the share is
   negative and not below the unclamped required amount, so that a goal with a surplus
   reaches its target although its share is below its required amount of zero.
   */
  lemma ShortfallForAnyShare(g: Goal, r: real, n: nat, share: real)
    requires n > 0
    ensures (Project(g.current, r, share, n) < g.target <==> share < Required(g, r, n))
       <==> !(RawRequired(g, r, n) <= share < 0.0)
  {
    ShortBelowRaw(g, r, n, share);
  }

  /**
   Goals fall short together: a goal that still needs money gets less than it needs
   exactly when the client invests less than all goals need.
   */
  lemma ShortTogether(items: seq<Item>, i: nat, monthlyInvested: real)
    requires i < |items| && SumRequired(items) > 0.0 && items[i].required > 0.0
    ensures Share(items, i, monthlyInvested) < items[i].required <==> monthlyInvested < SumRequired(items)
  {
    var share := Share(items, i, monthlyInvested);
    ProportionalShort(items[i].required, SumRequired(items), monthlyInvested, share);
  }

  lemma ProportionalShort(q: real, total: real, m: real, share: real)
    requires q > 0.0 && total > 0.0 && share == q / total * m
    ensures share < q <==> m < total
  {
    var f := q / total;
    assert f > 0.0 && f * total == q;
    if m < total {
      assert f * (total - m) > 0.0;
    } else {
      assert f * (m - total) >= 0.0;
    }
  }

  /** What one reported projection states about its item and unrounded share. */
  ghost predicate Reports(p: Projection, it: Item, r: real, share: real) {
    && p.monthsLeft == it.monthsLeft
    && p.requiredMonthly == Round2(it.required)
    && p.estimatedMonthly == Round2(share)
    && (it.monthsLeft == 0 ==>
          && p.onTrack == (it.goal.current >= it.goal.target)
          && p.projected == 0.0 && p.shortfall == 0.0 && p.additional == 0.0)
    && (it.monthsLeft > 0 ==>
          var end := Iterate(it.goal.current, if r > 0.0 then r else 0.0, share, it.monthsLeft);
          && p.projected == Round2(end)
          && p.shortfall == (if end < it.goal.target then Round2(it.goal.target - end) else 0.0)
          && p.onTrack == (end >= it.goal.target * 0.98)
          && p.additional == (if share < it.required then Round2(it.required - share) else 0.0))
  }

  method RequiredMonthly(g: Goal, r: real, n: nat) returns (required: real)
    ensures required == Required(g, r, n)
  {
    required := 0.0;
    if n > 0 {
      AnnuityPositive(r, n);
      if r > 0.0 {
        var grow := Pow(1.0 + r, n);
        assert (grow - 1.0) / r == Annuity(r, n);
        required := (g.target - g.current * grow) / ((grow - 1.0) / r);
      } else {
        required := (g.target - g.current) / n as real;
      }
      assert required == RawRequired(g, r, n);
      if required < 0.0 {
        required := 0.0;
      }
    }
  }

  method CollectItems(goals: seq<Goal>, r: real, now: int)
    returns (items: seq<Item>, sumRequired: real)
    ensures items == Items(goals, r, now) && sumRequired == SumRequired(items)
  {
    items, sumRequired := [], 0.0;
    for i := 0 to |goals|
      invariant items == Items(goals[..i], r, now)
      invariant sumRequired == SumRequired(items)
    {
      assert goals[..i + 1][..i] == goals[..i];
      if !goals[i].active {
        continue;
      }
      var monthsLeft := MonthsLeft(goals[i], now);
      var required := RequiredMonthly(goals[i], r, monthsLeft);
      ghost var before := items;
      items := items + [Item(goals[i], monthsLeft, required)];
      assert items[..|items| - 1] == before;
      sumRequired := sumRequired + required;
    }
    assert goals[..|goals|] == goals;
  }

  method ProjectedAmount(current: real, r: real, share: real, n: nat) returns (projected: real)
    ensures projected == Iterate(current, EffectiveRate(r), share, n)
  {
    ProjectIsIterate(current, r, share, n);
    if r > 0.0 {
      var grow := Pow(1.0 + r, n);
      projected := current * grow + share * ((grow - 1.0) / r);
    } else {
      projected := current + share * n as real;
    }
  }

  method ProjectItem(it: Item, r: real, share: real) returns (p: Projection)
    ensures Reports(p, it, r, share)
  {
    p := Projection(it.monthsLeft, Round2(it.required), Round2(share), 0.0, 0.0, 0.0, false);
    if it.monthsLeft > 0 {
      var projected := ProjectedAmount(it.goal.current, r, share, it.monthsLeft);
      p := p.(projected := Round2(projected));
      if projected < it.goal.target {
        p := p.(shortfall := Round2(it.goal.target - projected));
      }
      p := p.(onTrack := projected >= it.goal.target * 0.98);
      var add := it.required - share;
      if add > 0.0 {
        p := p.(additional := Round2(add));
      }
    } else {
      p := p.(onTrack := it.goal.current >= it.goal.target);
    }
  }

  method ComputeGoalProjections(goals: seq<Goal>, assumedReturnPct: real, monthlyInvested: real, now: int)
    returns (out: seq<Projection>)
    ensures var r := assumedReturnPct / 100.0 / 12.0;
            var items := Items(goals, r, now);
            && |out| == |items|
            && forall i :: 0 <= i < |items| ==> Reports(out[i], items[i], r, Share(items, i, monthlyInvested))
    ensures var active := Filter(goals, (g: Goal) => g.active);
            && |out| == |active|
            && forall i :: 0 <= i < |active| ==>
                 && Items(goals, assumedReturnPct / 100.0 / 12.0, now)[i].goal == active[i]
                 && IsMonthsUntil(active[i].deadline, now, out[i].monthsLeft)
                 && (out[i].monthsLeft == 0 ==> out[i].requiredMonthly == 0.0)
  {
    var r := assumedReturnPct / 100.0 / 12.0;
    var items, sumRequired := CollectItems(goals, r, now);
    out := ProjectAll(items, sumRequired, r, monthlyInvested);
    ItemsAreActiveGoals(goals, r, now);
    forall i | 0 <= i < |items|
      ensures IsMonthsUntil(items[i].goal.deadline, now, out[i].monthsLeft)
      ensures out[i].monthsLeft == 0 ==> out[i].requiredMonthly == 0.0
    {
      assert Reports(out[i], items[i], r, Share(items, i, monthlyInvested));
      MonthsLeftFit(items[i].goal, now);
    }
  }

  method ProjectAll(items: seq<Item>, sumRequired: real, r: real, monthlyInvested: real)
    returns (out: seq<Projection>)
    requires sumRequired == SumRequired(items)
    ensures |out| == |items|
    ensures forall i :: 0 <= i < |items| ==> Reports(out[i], items[i], r, Share(items, i, monthlyInvested))
  {
    out := [];
    for i := 0 to |items|
      invariant |out| == i
      invariant forall j :: 0 <= j < i ==> Reports(out[j], items[j], r, Share(items, j, monthlyInvested))
    {
      var share := if sumRequired > 0.0
                   then items[i].required / sumRequired * monthlyInvested
                   else monthlyInvested / |items| as real;
      assert share == Share(items, i, monthlyInvested);
      var p := ProjectItem(items[i], r, share);
      out := out + [p];
    }
  }
}
