/**
 FIFO lot matching for the tax lens: held units are matched to purchases, oldest
 first, and split into long-term and short-term gain by age. The mutual-fund and
 the direct-stock loops are the same loop; units of a stock order carry no sign
 check, so lots of any sign are accepted here.
 */
module TaxLots {
  import opened Options
  import opened Rounding

  const SECONDS_PER_DAY := 86400

  /** One purchase: time in seconds, units, cost per unit. */
  datatype Buy = Buy(time: int, units: real, cost: real)

  datatype TaxLot = TaxLot(
    currentValue: real, unrealisedGain: real, ltcgGain: real, stcgGain: real, nearingLtcg: real)

  predicate IsLongTerm(now: int, b: Buy) {
    now - b.time >= 365 * SECONDS_PER_DAY
  }

  predicate IsNearing(now: int, b: Buy) {
    !IsLongTerm(now, b) && now - b.time >= 275 * SECONDS_PER_DAY
  }

  /** Units bought in the first k lots. */
  function Bought(buys: seq<Buy>, k: nat): real
    requires k <= |buys|
  {
    if k == 0 then 0.0 else Bought(buys, k - 1) + buys[k - 1].units
  }

  /** Some prefix of at most k lots already holds the held units. */
  ghost predicate Reached(held: real, buys: seq<Buy>, k: nat)
    requires k <= |buys|
  {
    exists j :: 0 <= j <= k && Bought(buys, j) >= held
  }

  /** The units taken from lot i, given without the loop's running remainder. */
  ghost function Taken(held: real, buys: seq<Buy>, i: nat): real
    requires i < |buys|
  {
    if Reached(held, buys, i) then 0.0
    else if buys[i].units > held - Bought(buys, i) then held - Bought(buys, i)
    else buys[i].units
  }

  /** Weighted sum of the units taken from the first k lots. */
  ghost function Sum(held: real, buys: seq<Buy>, k: nat, weight: Buy -> real): real
    requires k <= |buys|
  {
    if k == 0 then 0.0
    else Sum(held, buys, k - 1, weight) + weight(buys[k - 1]) * Taken(held, buys, k - 1)
  }

  function UnitCount(b: Buy): real { 1.0 }

  function UnitCost(b: Buy): real { b.cost }

  ghost function Matched(held: real, buys: seq<Buy>): real {
    Sum(held, buys, |buys|, UnitCount)
  }

  ghost function CostOfMatched(held: real, buys: seq<Buy>): real {
    Sum(held, buys, |buys|, UnitCost)
  }

  function LongGain(price: real, now: int): Buy -> real {
    b => if IsLongTerm(now, b) then price - b.cost else 0.0
  }

  function ShortGain(price: real, now: int): Buy -> real {
    b => if IsLongTerm(now, b) then 0.0 else price - b.cost
  }

  function NearingValue(price: real, now: int): Buy -> real {
    b => if IsNearing(now, b) then price else 0.0
  }

  /** Until the held units are reached, every lot is used whole. */
  lemma {:induction false} MatchedSoFar(held: real, buys: seq<Buy>, k: nat)
    requires k <= |buys| && held > 0.0
    ensures Sum(held, buys, k, UnitCount) == if Reached(held, buys, k) then held else Bought(buys, k)
  {
    if k > 0 {
      MatchedSoFar(held, buys, k - 1);
      if Reached(held, buys, k - 1) {
        var j :| 0 <= j <= k - 1 && Bought(buys, j) >= held;
        assert Reached(held, buys, k);
      } else if Bought(buys, k) >= held {
        assert Reached(held, buys, k);
      }
      UnitWeight(held, buys, k);
    } else {
      assert Bought(buys, 0) == 0.0;
    }
  }

  lemma UnitWeight(held: real, buys: seq<Buy>, k: nat)
    requires 0 < k <= |buys|
    ensures Sum(held, buys, k, UnitCount)
         == Sum(held, buys, k - 1, UnitCount) + Taken(held, buys, k - 1)
  {
  }

  /** What one more lot adds to the long-term, short-term and nearing sums. */
  lemma LotStep(held: real, price: real, now: int, buys: seq<Buy>, i: nat, gain: real, value: real)
    requires i < |buys|
    requires gain == (price - buys[i].cost) * Taken(held, buys, i)
    requires value == price * Taken(held, buys, i)
    ensures Sum(held, buys, i + 1, LongGain(price, now))
         == Sum(held, buys, i, LongGain(price, now)) + if IsLongTerm(now, buys[i]) then gain else 0.0
    ensures Sum(held, buys, i + 1, ShortGain(price, now))
         == Sum(held, buys, i, ShortGain(price, now)) + if IsLongTerm(now, buys[i]) then 0.0 else gain
    ensures Sum(held, buys, i + 1, NearingValue(price, now))
         == Sum(held, buys, i, NearingValue(price, now)) + if IsNearing(now, buys[i]) then value else 0.0
  {
    StepBy(held, buys, i, LongGain(price, now));
    StepBy(held, buys, i, ShortGain(price, now));
    StepBy(held, buys, i, NearingValue(price, now));
  }

  lemma StepBy(held: real, buys: seq<Buy>, i: nat, weight: Buy -> real)
    requires i < |buys|
    ensures Sum(held, buys, i + 1, weight)
         == Sum(held, buys, i, weight) + weight(buys[i]) * Taken(held, buys, i)
  {
  }

  /** Once the held units are reached, no later lot contributes. */
  lemma {:induction false} NothingAfterReached(
    held: real, buys: seq<Buy>, k: nat, n: nat, weight: Buy -> real)
    requires k <= n <= |buys| && Reached(held, buys, k)
    ensures Sum(held, buys, n, weight) == Sum(held, buys, k, weight)
  {
    if k < n {
      NothingAfterReached(held, buys, k, n - 1, weight);
      var j :| 0 <= j <= k && Bought(buys, j) >= held;
      assert Reached(held, buys, n - 1);
    }
  }

  /** The loop's variables after i lots. */
  ghost predicate LoopState(
    held: real, price: real, now: int, buys: seq<Buy>, i: nat,
    remaining: real, ltcg: real, stcg: real, nearing: real)
    requires i <= |buys|
  {
    && remaining == held - Sum(held, buys, i, UnitCount)
    && ltcg == Sum(held, buys, i, LongGain(price, now))
    && stcg == Sum(held, buys, i, ShortGain(price, now))
    && nearing == Sum(held, buys, i, NearingValue(price, now))
  }

  lemma LoopExit(
    held: real, price: real, now: int, buys: seq<Buy>, i: nat,
    remaining: real, ltcg: real, stcg: real, nearing: real)
    requires i <= |buys| && held > 0.0 && remaining <= 0.0
    requires LoopState(held, price, now, buys, i, remaining, ltcg, stcg, nearing)
    ensures LoopState(held, price, now, buys, |buys|, remaining, ltcg, stcg, nearing)
  {
    MatchedSoFar(held, buys, i);
    assert Reached(held, buys, i);
    NothingAfterReached(held, buys, i, |buys|, UnitCount);
    NothingAfterReached(held, buys, i, |buys|, LongGain(price, now));
    NothingAfterReached(held, buys, i, |buys|, ShortGain(price, now));
    NothingAfterReached(held, buys, i, |buys|, NearingValue(price, now));
  }

  lemma LoopTakes(
    held: real, price: real, now: int, buys: seq<Buy>, i: nat,
    remaining: real, ltcg: real, stcg: real, nearing: real)
    requires i < |buys| && held > 0.0 && remaining > 0.0
    requires LoopState(held, price, now, buys, i, remaining, ltcg, stcg, nearing)
    ensures Taken(held, buys, i) == if buys[i].units > remaining then remaining else buys[i].units
  {
    MatchedSoFar(held, buys, i);
  }

  lemma LoopStep(
    held: real, price: real, now: int, buys: seq<Buy>, i: nat,
    remaining: real, ltcg: real, stcg: real, nearing: real, u: real, gain: real, value: real)
    requires i < |buys| && u == Taken(held, buys, i)
    requires LoopState(held, price, now, buys, i, remaining, ltcg, stcg, nearing)
    requires gain == (price - buys[i].cost) * u && value == price * u
    ensures LoopState(held, price, now, buys, i + 1, remaining - u,
                      ltcg + (if IsLongTerm(now, buys[i]) then gain else 0.0),
                      stcg + (if IsLongTerm(now, buys[i]) then 0.0 else gain),
                      nearing + (if IsNearing(now, buys[i]) then value else 0.0))
  {
    UnitWeight(held, buys, i + 1);
    LotStep(held, price, now, buys, i, gain, value);
  }

  /** The loop's body: what one lot contributes. */
  method TakeLot(
    price: real, now: int, b: Buy, remaining: real, ltcg: real, stcg: real, nearing: real,
    ghost held: real, ghost buys: seq<Buy>, ghost i: nat)
    returns (remaining': real, ltcg': real, stcg': real, nearing': real)
    requires i < |buys| && b == buys[i] && held > 0.0 && remaining > 0.0
    requires LoopState(held, price, now, buys, i, remaining, ltcg, stcg, nearing)
    ensures LoopState(held, price, now, buys, i + 1, remaining', ltcg', stcg', nearing')
  {
    var u := b.units;
    if u > remaining {
      u := remaining;
    }
    LoopTakes(held, price, now, buys, i, remaining, ltcg, stcg, nearing);
    remaining' := remaining - u;
    var gain, value := (price - b.cost) * u, price * u;
    LoopStep(held, price, now, buys, i, remaining, ltcg, stcg, nearing, u, gain, value);
    ltcg', stcg', nearing' := ltcg, stcg, nearing;
    if IsLongTerm(now, b) {
      ltcg' := ltcg + gain;
    } else {
      stcg' := stcg + gain;
      if IsNearing(now, b) {
        nearing' := nearing + value;
      }
    }
  }

  /** The loop over the lots, with its early exit. */
  method MatchLots(held: real, price: real, now: int, buys: seq<Buy>)
    returns (ltcg: real, stcg: real, nearing: real)
    requires held > 0.0
    ensures ltcg == Sum(held, buys, |buys|, LongGain(price, now))
    ensures stcg == Sum(held, buys, |buys|, ShortGain(price, now))
    ensures nearing == Sum(held, buys, |buys|, NearingValue(price, now))
  {
    ltcg, stcg, nearing := 0.0, 0.0, 0.0;
    var remaining := held;
    var i := 0;
    while i < |buys|
      invariant 0 <= i <= |buys|
      invariant LoopState(held, price, now, buys, i, remaining, ltcg, stcg, nearing)
    {
      var b := buys[i];
      if remaining <= 0.0 {
        LoopExit(held, price, now, buys, i, remaining, ltcg, stcg, nearing);
        return;
      }
      remaining, ltcg, stcg, nearing :=
        TakeLot(price, now, b, remaining, ltcg, stcg, nearing, held, buys, i);
      i := i + 1;
    }
  }

  lemma {:induction false} SumSame(held: real, buys: seq<Buy>, k: nat, f: Buy -> real, g: Buy -> real)
    requires k <= |buys| && forall b :: f(b) == g(b)
    ensures Sum(held, buys, k, f) == Sum(held, buys, k, g)
  {
    if k > 0 {
      SumSame(held, buys, k - 1, f, g);
    }
  }

  /** The three sums written out: 365 days of age, in seconds, divide long from short, and 275 are near. */
  lemma SumsByAge(held: real, price: real, now: int, buys: seq<Buy>)
    ensures Sum(held, buys, |buys|, LongGain(price, now))
         == Sum(held, buys, |buys|, (b: Buy) => if now - b.time >= 31536000 then price - b.cost else 0.0)
    ensures Sum(held, buys, |buys|, ShortGain(price, now))
         == Sum(held, buys, |buys|, (b: Buy) => if now - b.time < 31536000 then price - b.cost else 0.0)
    ensures Sum(held, buys, |buys|, NearingValue(price, now))
         == Sum(held, buys, |buys|, (b: Buy) => if 23760000 <= now - b.time < 31536000 then price else 0.0)
  {
    SumSame(held, buys, |buys|, LongGain(price, now),
            (b: Buy) => if now - b.time >= 31536000 then price - b.cost else 0.0);
    SumSame(held, buys, |buys|, ShortGain(price, now),
            (b: Buy) => if now - b.time < 31536000 then price - b.cost else 0.0);
    SumSame(held, buys, |buys|, NearingValue(price, now),
            (b: Buy) => if 23760000 <= now - b.time < 31536000 then price else 0.0);
  }

  /** The tax lot of one holding; a holding without units, price or lots is skipped. */
  method ComputeLot(held: real, price: real, now: int, buys: seq<Buy>) returns (r: Option<TaxLot>)
    ensures r == None <==> held <= 0.0 || price <= 0.0 || buys == []
    ensures r != None ==>
              && r.value.currentValue == Round2(held * price)
              && r.value.ltcgGain
                 == Round2(Sum(held, buys, |buys|,
                               (b: Buy) => if now - b.time >= 31536000 then price - b.cost else 0.0))
              && r.value.stcgGain
                 == Round2(Sum(held, buys, |buys|,
                               (b: Buy) => if now - b.time < 31536000 then price - b.cost else 0.0))
              && r.value.nearingLtcg
                 == Round2(Sum(held, buys, |buys|,
                               (b: Buy) => if 23760000 <= now - b.time < 31536000 then price else 0.0))
              && r.value.unrealisedGain
                 == Round2(price * Matched(held, buys) - CostOfMatched(held, buys))
  {
    if held <= 0.0 || price <= 0.0 || |buys| == 0 {
      return None;
    }
    var ltcg, stcg, nearing := MatchLots(held, price, now, buys);
    GainIsValueMinusCost(held, price, now, buys);
    SumsByAge(held, price, now, buys);
    r := Some(TaxLot(
      Round2(held * price), Round2(ltcg + stcg), Round2(ltcg), Round2(stcg), Round2(nearing)));
  }

  /** Matched units: the held units if some prefix covers them, else every unit bought. */
  lemma MatchedUnits(held: real, buys: seq<Buy>)
    requires held > 0.0
    ensures Matched(held, buys)
         == if Reached(held, buys, |buys|) then held else Bought(buys, |buys|)
  {
    MatchedSoFar(held, buys, |buys|);
  }

  /**
   Matched units are min(held, bought) if and only if no prefix covers the held units
   that the whole list does not cover.
   */
  lemma MatchedIsMinimum(held: real, buys: seq<Buy>)
    requires held > 0.0
    ensures Matched(held, buys) == (if held <= Bought(buys, |buys|) then held else Bought(buys, |buys|))
       <==> (Reached(held, buys, |buys|) ==> held <= Bought(buys, |buys|))
  {
    MatchedUnits(held, buys);
    if held <= Bought(buys, |buys|) {
      assert Reached(held, buys, |buys|);
    }
  }

  ghost predicate NonNegative(buys: seq<Buy>) {
    forall i :: 0 <= i < |buys| ==> buys[i].units >= 0.0
  }

  lemma {:induction false} BoughtGrows(buys: seq<Buy>, j: nat, k: nat)
    requires NonNegative(buys) && j <= k <= |buys|
    ensures Bought(buys, j) <= Bought(buys, k)
  {
    if j < k {
      BoughtGrows(buys, j, k - 1);
    }
  }

  lemma ReachedByTotal(held: real, buys: seq<Buy>, k: nat)
    requires NonNegative(buys) && k <= |buys|
    ensures Reached(held, buys, k) <==> held <= Bought(buys, k)
  {
    if Reached(held, buys, k) {
      var j :| 0 <= j <= k && Bought(buys, j) >= held;
      BoughtGrows(buys, j, k);
    }
  }

  /** With no negative lot, the minimum always holds, as the fund filter on units guarantees. */
  lemma MatchedIsMinimumWhenNonNegative(held: real, buys: seq<Buy>)
    requires held > 0.0 && NonNegative(buys)
    ensures Matched(held, buys) == if held <= Bought(buys, |buys|) then held else Bought(buys, |buys|)
  {
    ReachedByTotal(held, buys, |buys|);
    MatchedIsMinimum(held, buys);
  }

  /** A negative stock lot defeats the minimum: 8 held, lots 10 and -5, all 8 are matched. */
  lemma NegativeLotExceedsBought()
    ensures var buys := [Buy(0, 10.0, 1.0), Buy(1, -5.0, 1.0)];
            Matched(8.0, buys) == 8.0 && Bought(buys, 2) == 5.0
  {
    var buys := [Buy(0, 10.0, 1.0), Buy(1, -5.0, 1.0)];
    assert Bought(buys, 0) == 0.0 && Bought(buys, 1) == 10.0 && Bought(buys, 2) == 5.0;
    assert Reached(8.0, buys, 2);
    MatchedUnits(8.0, buys);
  }

  /**
   With no negative lot, the units taken from lot i are the overlap of the held
   interval [0, held] with the lot's interval in the concatenated purchases.
   */
  lemma TakenIsOverlap(held: real, buys: seq<Buy>, i: nat)
    requires NonNegative(buys) && i < |buys|
    ensures var from, to := Bought(buys, i), Bought(buys, i + 1);
            Taken(held, buys, i)
            == if held <= from then 0.0 else if held < to then held - from else to - from
  {
    ReachedByTotal(held, buys, i);
  }

  /** Long-term plus short-term gain is the value of the matched units minus their cost. */
  lemma GainIsValueMinusCost(held: real, price: real, now: int, buys: seq<Buy>)
    ensures Sum(held, buys, |buys|, LongGain(price, now)) + Sum(held, buys, |buys|, ShortGain(price, now))
         == price * Matched(held, buys) - CostOfMatched(held, buys)
  {
    forall b: Buy
      ensures LongGain(price, now)(b) + ShortGain(price, now)(b) == PricePerUnit(price)(b) - UnitCost(b)
    {
    }
    SumsBalance(held, buys, |buys|, LongGain(price, now), ShortGain(price, now), PricePerUnit(price), UnitCost);
    PriceTimesUnits(held, price, buys, |buys|);
  }

  function PricePerUnit(price: real): Buy -> real {
    b => price
  }

  /** Weights that balance lot by lot balance in the sum. */
  lemma {:induction false} SumsBalance(
    held: real, buys: seq<Buy>, k: nat, f: Buy -> real, g: Buy -> real, p: Buy -> real, c: Buy -> real)
    requires k <= |buys|
    requires forall b :: f(b) + g(b) == p(b) - c(b)
    ensures Sum(held, buys, k, f) + Sum(held, buys, k, g) == Sum(held, buys, k, p) - Sum(held, buys, k, c)
  {
    if k > 0 {
      SumsBalance(held, buys, k - 1, f, g, p, c);
      var b := buys[k - 1];
      Scale(f(b), g(b), p(b), c(b), Taken(held, buys, k - 1));
    }
  }

  lemma Scale(f: real, g: real, p: real, c: real, u: real)
    requires f + g == p - c
    ensures f * u + g * u == p * u - c * u
  {
    assert (f + g) * u == (p - c) * u;
  }

  lemma PriceTimesUnits(held: real, price: real, buys: seq<Buy>, k: nat)
    requires k <= |buys|
    ensures Sum(held, buys, k, PricePerUnit(price)) == price * Sum(held, buys, k, UnitCount)
  {
    ScaledSum(held, buys, k, price, UnitCount, PricePerUnit(price));
  }

  lemma {:induction false} ScaledSum(
    held: real, buys: seq<Buy>, k: nat, c: real, weight: Buy -> real, scaled: Buy -> real)
    requires k <= |buys| && forall b :: scaled(b) == c * weight(b)
    ensures Sum(held, buys, k, scaled) == c * Sum(held, buys, k, weight)
  {
    if k > 0 {
      ScaledSum(held, buys, k - 1, c, weight, scaled);
      ScaledStep(c, Sum(held, buys, k - 1, weight), weight(buys[k - 1]), Taken(held, buys, k - 1));
    }
  }

  lemma ScaledStep(c: real, sum: real, w: real, u: real)
    ensures c * (sum + w * u) == c * sum + (c * w) * u
  {
    assert c * (w * u) == (c * w) * u;
  }

  /** The displayed total differs from the sum of the displayed parts by at most 0.01. */
  lemma DisplayedGainsAgree(ltcg: real, stcg: real)
    ensures -0.01 <= Round2(ltcg + stcg) - (Round2(ltcg) + Round2(stcg)) <= 0.01
  {
    Round2Cents(ltcg + stcg);
    Round2Cents(ltcg);
    Round2Cents(stcg);
    CentsSum(Round2(ltcg), Round2(stcg));
    CentsGap(Round2(ltcg + stcg), Round2(ltcg) + Round2(stcg));
  }

  // ---- FIFO is optimal for age -------------------------------------------------

  ghost predicate OldestFirst(buys: seq<Buy>) {
    forall i, j :: 0 <= i < j < |buys| ==> buys[i].time <= buys[j].time
  }

  /** Units that an arbitrary choice takes from the first k lots. */
  function Total(choice: seq<real>, k: nat): real
    requires k <= |choice|
  {
    if k == 0 then 0.0 else Total(choice, k - 1) + choice[k - 1]
  }

  /** Units of the choice that come from long-term lots among the first k. */
  function LongUnits(choice: seq<real>, buys: seq<Buy>, now: int, k: nat): real
    requires k <= |choice| == |buys|
  {
    if k == 0 then 0.0
    else LongUnits(choice, buys, now, k - 1) + if IsLongTerm(now, buys[k - 1]) then choice[k - 1] else 0.0
  }

  /** The loop's own choice. */
  ghost function FifoChoice(held: real, buys: seq<Buy>): (c: seq<real>)
    ensures |c| == |buys|
  {
    seq(|buys|, i requires 0 <= i < |buys| => Taken(held, buys, i))
  }

  ghost predicate IsChoice(choice: seq<real>, buys: seq<Buy>) {
    |choice| == |buys| && forall i :: 0 <= i < |buys| ==> 0.0 <= choice[i] <= buys[i].units
  }

  lemma {:induction false} FifoTotal(held: real, buys: seq<Buy>, k: nat)
    requires held > 0.0 && NonNegative(buys) && k <= |buys|
    ensures Total(FifoChoice(held, buys), k) == if held <= Bought(buys, k) then held else Bought(buys, k)
  {
    if k > 0 {
      FifoTotal(held, buys, k - 1);
      TakenIsOverlap(held, buys, k - 1);
      BoughtGrows(buys, k - 1, k);
    }
  }

  lemma {:induction false} ChoiceWithinLots(choice: seq<real>, buys: seq<Buy>, k: nat)
    requires IsChoice(choice, buys) && k <= |buys|
    ensures Total(choice, k) <= Bought(buys, k)
    ensures Total(choice, k) <= Total(choice, |buys|)
    decreases |buys| - k
  {
    TotalWithinBought(choice, buys, k);
    if k < |buys| {
      ChoiceWithinLots(choice, buys, k + 1);
    }
  }

  lemma {:induction false} TotalWithinBought(choice: seq<real>, buys: seq<Buy>, k: nat)
    requires IsChoice(choice, buys) && k <= |buys|
    ensures Total(choice, k) <= Bought(buys, k)
  {
    if k > 0 {
      TotalWithinBought(choice, buys, k - 1);
    }
  }

  /** With lots sorted oldest first, the long-term lots are a prefix of the list. */
  lemma {:induction false} LongTermPrefix(choice: seq<real>, buys: seq<Buy>, now: int, k: nat, a: nat)
    requires |choice| == |buys| && a <= |buys| && k <= |buys|
    requires forall i :: 0 <= i < |buys| ==> (IsLongTerm(now, buys[i]) <==> i < a)
    ensures LongUnits(choice, buys, now, k) == Total(choice, if k <= a then k else a)
  {
    if k > 0 {
      LongTermPrefix(choice, buys, now, k - 1, a);
    }
  }

  lemma {:induction false} LongTermCount(buys: seq<Buy>, now: int) returns (a: nat)
    requires OldestFirst(buys)
    ensures a <= |buys| && forall i :: 0 <= i < |buys| ==> (IsLongTerm(now, buys[i]) <==> i < a)
  {
    a := 0;
    while a < |buys| && IsLongTerm(now, buys[a])
      invariant a <= |buys| && forall i :: 0 <= i < a ==> IsLongTerm(now, buys[i])
    {
      a := a + 1;
    }
  }

  /** No other way to pick the same number of units has more of them long-term. */
  lemma FifoMaximisesLongTerm(held: real, buys: seq<Buy>, now: int, choice: seq<real>)
    requires held > 0.0 && NonNegative(buys) && OldestFirst(buys)
    requires IsChoice(choice, buys) && Total(choice, |buys|) == Matched(held, buys)
    ensures IsChoice(FifoChoice(held, buys), buys)
    ensures Total(FifoChoice(held, buys), |buys|) == Matched(held, buys)
    ensures LongUnits(choice, buys, now, |buys|) <= LongUnits(FifoChoice(held, buys), buys, now, |buys|)
  {
    var fifo := FifoChoice(held, buys);
    var a := LongTermCount(buys, now);
    LongTermPrefix(choice, buys, now, |buys|, a);
    LongTermPrefix(fifo, buys, now, |buys|, a);
    FifoTotal(held, buys, a);
    FifoTotal(held, buys, |buys|);
    ChoiceWithinLots(choice, buys, a);
    MatchedIsMinimumWhenNonNegative(held, buys);
    forall i | 0 <= i < |buys| ensures 0.0 <= fifo[i] <= buys[i].units {
      TakenIsOverlap(held, buys, i);
    }
  }
}
