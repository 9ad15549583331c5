/**
 The bisection fallback of the money-weighted return: up to 200 halvings of
 [-0.99, 10], and the present value of dated cash flows that it is called with.
 */
module Xirr {
  import opened Options

  const LOW := -0.99
  const HIGH := 10.0
  const ROUNDS := 200

  /** The tolerance test |f| < 1e-6. */
  predicate IsZero(f: real) {
    -0.000001 < f < 0.000001
  }

  function Middle(lo: real, hi: real): real {
    (lo + hi) / 2.0
  }

  /** What k further rounds from the bracket [lo, hi] return; flo is the loop's own value. */
  function Bisect(npv: real -> real, lo: real, hi: real, flo: real, k: nat): real
    decreases k
  {
    var mid := Middle(lo, hi);
    var fm := npv(mid);
    if k == 0 || IsZero(fm) then mid
    else if flo * fm < 0.0 then Bisect(npv, lo, mid, flo, k - 1)
    else Bisect(npv, mid, hi, fm, k - 1)
  }

  method BisectionFallback(npv: real -> real) returns (r: Option<real>)
    ensures r == None <==> npv(-0.99) * npv(10.0) > 0.0
    ensures r != None ==> r.value == Bisect(npv, LOW, HIGH, npv(LOW), ROUNDS)
    ensures r != None ==> exists cuts :: IsLastMiddle(npv, cuts, r.value)
  {
    var lo, hi := LOW, HIGH;
    var flo, fhi := npv(lo), npv(hi);
    if flo * fhi > 0.0 {
      return None;
    }
    ghost var cuts := BisectHalves(npv, LOW, HIGH, ROUNDS);
    assert IsLastMiddle(npv, cuts, Bisect(npv, LOW, HIGH, npv(LOW), ROUNDS));
    for i := 0 to ROUNDS
      invariant Bisect(npv, lo, hi, flo, ROUNDS - i) == Bisect(npv, LOW, HIGH, npv(LOW), ROUNDS)
    {
      var mid := (lo + hi) / 2.0;
      var fm := npv(mid);
      if -0.000001 < fm < 0.000001 {
        return Some(mid);
      }
      if flo * fm < 0.0 {
        hi := mid;
      } else {
        lo, flo := mid, fm;
      }
    }
    return Some((lo + hi) / 2.0);
  }

  function Pow2(n: nat): (p: real)
    ensures p >= 1.0
  {
    if n == 0 then 1.0 else 2.0 * Pow2(n - 1)
  }

  /** A sign change on [lo, hi] whose left end has the sign of s and is not a root. */
  ghost predicate Bracket(npv: real -> real, s: real, lo: real, hi: real, width: real) {
    && LOW <= lo && hi <= HIGH
    && hi - lo == width
    && npv(lo) * s > 0.0
    && npv(lo) * npv(hi) <= 0.0
  }

  /** What the fallback promises about its result. */
  ghost predicate NearRoot(npv: real -> real, s: real, rate: real, width: real) {
    || IsZero(npv(rate))
    || exists lo, hi :: Bracket(npv, s, lo, hi, width) && rate == Middle(lo, hi)
  }

  /** Multiplying by a number of one sign: the sign algebra behind the bracket. */
  lemma Signs(s: real, a: real, b: real)
    requires a * s > 0.0
    ensures a != 0.0
    ensures a * b < 0.0 <==> b * s < 0.0
    ensures a * b > 0.0 <==> b * s > 0.0
  {
    if s > 0.0 {
      Positive(a, s);
    } else {
      assert s != 0.0;
      assert (-a) * (-s) == a * s;
      Positive(-a, -s);
    }
  }

  lemma Positive(a: real, s: real)
    requires s > 0.0 && a * s > 0.0
    ensures a > 0.0
  {
    assert a == (a * s) / s;
  }

  /** One round keeps the bracket and halves it. */
  lemma RoundKeepsBracket(npv: real -> real, s: real, lo: real, hi: real, width: real)
    requires Bracket(npv, s, lo, hi, width) && width > 0.0
    ensures var mid := Middle(lo, hi);
            !IsZero(npv(mid)) ==>
              if npv(lo) * npv(mid) < 0.0 then Bracket(npv, s, lo, mid, width / 2.0)
              else Bracket(npv, s, mid, hi, width / 2.0)
  {
    var mid := Middle(lo, hi);
    Signs(s, npv(lo), npv(mid));
    Signs(s, npv(lo), npv(hi));
    if !IsZero(npv(mid)) && npv(lo) * npv(mid) >= 0.0 {
      NonZeroProduct(npv(mid), s);
      Signs(s, npv(mid), npv(hi));
    }
  }

  lemma NonZeroProduct(a: real, s: real)
    ensures a != 0.0 && s != 0.0 ==> a * s < 0.0 || a * s > 0.0
  {
  }

  /** From a bracket, k rounds end near a root or inside a bracket 2^k times narrower. */
  lemma {:induction false} BisectConverges(
    npv: real -> real, s: real, lo: real, hi: real, width: real, k: nat)
    requires Bracket(npv, s, lo, hi, width) && width > 0.0
    ensures NearRoot(npv, s, Bisect(npv, lo, hi, npv(lo), k), width / Pow2(k))
    decreases k
  {
    if k > 0 && !IsZero(npv(Middle(lo, hi))) {
      RoundKeepsBracket(npv, s, lo, hi, width);
      HalfWidth(width, Pow2(k - 1));
      if npv(lo) * npv(Middle(lo, hi)) < 0.0 {
        BisectConverges(npv, s, lo, Middle(lo, hi), width / 2.0, k - 1);
      } else {
        BisectConverges(npv, s, Middle(lo, hi), hi, width / 2.0, k - 1);
      }
    }
  }

  lemma HalfWidth(width: real, p: real)
    requires p >= 1.0
    ensures width / 2.0 / p == width / (2.0 * p)
  {
    var q := width / (2.0 * p);
    assert q * (2.0 * p) == width;
    assert q * p == width / 2.0;
  }

  // ---- the brackets of a run ---------------------------------------------------------

  /** The next bracket: the left half when the sign changes there, and else the right half. */
  predicate IsNextBracket(npv: real -> real, now: (real, real), next: (real, real)) {
    var mid := (now.0 + now.1) / 2.0;
    && !(-0.000001 < npv(mid) < 0.000001)
    && next == (if npv(now.0) * npv(mid) < 0.0 then (now.0, mid) else (mid, now.1))
  }

  predicate Halvings(npv: real -> real, cuts: seq<(real, real)>) {
    forall i :: 0 <= i < |cuts| - 1 ==> IsNextBracket(npv, cuts[i], cuts[i + 1])
  }

  /** The rate is the middle of the last bracket: the first one within the tolerance, or the one after 200 halvings. */
  ghost predicate IsLastMiddle(npv: real -> real, cuts: seq<(real, real)>, rate: real) {
    && 0 < |cuts| <= 201 && cuts[0] == (-0.99, 10.0) && Halvings(npv, cuts)
    && rate == (cuts[|cuts| - 1].0 + cuts[|cuts| - 1].1) / 2.0
    && (|cuts| == 201 || -0.000001 < npv(rate) < 0.000001)
  }

  lemma {:induction false} BisectHalves(npv: real -> real, lo: real, hi: real, k: nat)
    returns (cuts: seq<(real, real)>)
    ensures 0 < |cuts| <= k + 1 && cuts[0] == (lo, hi) && Halvings(npv, cuts)
    ensures var rate := Bisect(npv, lo, hi, npv(lo), k);
            && rate == (cuts[|cuts| - 1].0 + cuts[|cuts| - 1].1) / 2.0
            && (|cuts| == k + 1 || -0.000001 < npv(rate) < 0.000001)
    decreases k
  {
    var mid := Middle(lo, hi);
    cuts := [(lo, hi)];
    if k > 0 && !IsZero(npv(mid)) {
      var rest;
      if npv(lo) * npv(mid) < 0.0 {
        rest := BisectHalves(npv, lo, mid, k - 1);
      } else {
        rest := BisectHalves(npv, mid, hi, k - 1);
      }
      assert IsNextBracket(npv, (lo, hi), rest[0]);
      cuts := cuts + rest;
      forall i | 0 <= i < |cuts| - 1 ensures IsNextBracket(npv, cuts[i], cuts[i + 1]) {
        assert if i == 0 then cuts[1] == rest[0] else cuts[i] == rest[i - 1] && cuts[i + 1] == rest[i - 1 + 1];
      }
    }
  }

  /**
   With a sign change on [-0.99, 10] and a left end that is not a root, the rate is
   near a root or the middle of a bracket 10.99/2^200 wide.
   */
  lemma FallbackConverges(npv: real -> real)
    requires npv(LOW) != 0.0 && npv(LOW) * npv(HIGH) <= 0.0
    ensures NearRoot(npv, npv(LOW), Bisect(npv, LOW, HIGH, npv(LOW), ROUNDS), 10.99 / Pow2(ROUNDS))
  {
    NonZeroSquare(npv(LOW));
    BisectConverges(npv, npv(LOW), LOW, HIGH, 10.99, ROUNDS);
  }

  lemma NonZeroSquare(a: real)
    requires a != 0.0
    ensures a * a > 0.0
  {
  }

  /** Positive before the root and negative after it. */
  ghost predicate CrossesOnce(npv: real -> real, root: real) {
    && npv(root) == 0.0
    && (forall x :: LOW <= x < root ==> npv(x) > 0.0)
    && (forall x :: root < x <= HIGH ==> npv(x) < 0.0)
  }

  /** For a value that crosses zero once, downwards, the rate is near that root. */
  lemma FallbackFindsRoot(npv: real -> real, root: real, k: nat)
    requires LOW < root <= HIGH && CrossesOnce(npv, root)
    ensures npv(LOW) * npv(HIGH) <= 0.0
    ensures var rate := Bisect(npv, LOW, HIGH, npv(LOW), k);
            IsZero(npv(rate)) || -(10.99 / Pow2(k)) <= rate - root <= 10.99 / Pow2(k)
  {
    assert npv(LOW) > 0.0 && npv(HIGH) <= 0.0;
    MixedSigns(npv(LOW), npv(HIGH));
    NonZeroSquare(npv(LOW));
    BisectConverges(npv, npv(LOW), LOW, HIGH, 10.99, k);
    NearRootIsNear(npv, root, Bisect(npv, LOW, HIGH, npv(LOW), k), 10.99 / Pow2(k));
  }

  lemma NearRootIsNear(npv: real -> real, root: real, rate: real, width: real)
    requires LOW < root <= HIGH && CrossesOnce(npv, root)
    requires NearRoot(npv, npv(LOW), rate, width) && width > 0.0
    ensures IsZero(npv(rate)) || -width <= rate - root <= width
  {
    if !IsZero(npv(rate)) {
      var lo, hi :| Bracket(npv, npv(LOW), lo, hi, width) && rate == Middle(lo, hi);
      RootInBracket(npv, root, lo, hi, width);
    }
  }

  lemma RootInBracket(npv: real -> real, root: real, lo: real, hi: real, width: real)
    requires LOW < root <= HIGH && CrossesOnce(npv, root)
    requires Bracket(npv, npv(LOW), lo, hi, width) && width > 0.0
    ensures lo < root <= hi
  {
    assert npv(LOW) > 0.0;
    Positive(npv(lo), npv(LOW));
    NonPositiveFactor(npv(lo), npv(hi));
  }

  lemma NonPositiveFactor(a: real, b: real)
    requires a > 0.0 && a * b <= 0.0
    ensures b <= 0.0
  {
    assert b == (a * b) / a;
  }

  lemma MixedSigns(a: real, b: real)
    requires a > 0.0
    ensures b <= 0.0 ==> a * b <= 0.0
  {
  }

  // ---- a root exactly at the left end --------------------------------------------

  /** Every bracket the loop visits carries a sign change. */
  ghost predicate AlwaysBracketed(npv: real -> real, lo: real, hi: real, flo: real, k: nat)
    decreases k
  {
    && npv(lo) * npv(hi) <= 0.0
    && var mid := Middle(lo, hi);
       var fm := npv(mid);
       k == 0 || IsZero(fm)
       || if flo * fm < 0.0 then AlwaysBracketed(npv, lo, mid, flo, k - 1)
          else AlwaysBracketed(npv, mid, hi, fm, k - 1)
  }

  lemma {:induction false} BracketStays(npv: real -> real, s: real, lo: real, hi: real, width: real, k: nat)
    requires Bracket(npv, s, lo, hi, width) && width > 0.0
    ensures AlwaysBracketed(npv, lo, hi, npv(lo), k)
    decreases k
  {
    if k > 0 && !IsZero(npv(Middle(lo, hi))) {
      RoundKeepsBracket(npv, s, lo, hi, width);
      if npv(lo) * npv(Middle(lo, hi)) < 0.0 {
        BracketStays(npv, s, lo, Middle(lo, hi), width / 2.0, k - 1);
      } else {
        BracketStays(npv, s, Middle(lo, hi), hi, width / 2.0, k - 1);
      }
    }
  }

  /**
   The loop keeps a sign change in every round if and only if the left end is not a
   root, or the first middle already is one, or there is a sign change right of it.
   */
  lemma KeepsSignChange(npv: real -> real)
    requires npv(LOW) * npv(HIGH) <= 0.0
    ensures AlwaysBracketed(npv, LOW, HIGH, npv(LOW), ROUNDS)
       <==> var mid := Middle(LOW, HIGH);
            npv(LOW) != 0.0 || IsZero(npv(mid)) || npv(mid) * npv(HIGH) <= 0.0
  {
    var mid := Middle(LOW, HIGH);
    if npv(LOW) != 0.0 {
      NonZeroSquare(npv(LOW));
      BracketStays(npv, npv(LOW), LOW, HIGH, 10.99, ROUNDS);
    } else if !IsZero(npv(mid)) {
      assert npv(LOW) * npv(mid) == 0.0;
      if npv(mid) * npv(HIGH) <= 0.0 {
        NonZeroSquare(npv(mid));
        BracketStays(npv, npv(mid), mid, HIGH, 10.99 / 2.0, ROUNDS - 1);
      }
    }
  }

  lemma {:induction false} BisectStaysInside(npv: real -> real, lo: real, hi: real, flo: real, k: nat)
    requires lo <= hi
    ensures lo <= Bisect(npv, lo, hi, flo, k) <= hi
    decreases k
  {
    if k > 0 && !IsZero(npv(Middle(lo, hi))) {
      if flo * npv(Middle(lo, hi)) < 0.0 {
        BisectStaysInside(npv, lo, Middle(lo, hi), flo, k - 1);
      } else {
        BisectStaysInside(npv, Middle(lo, hi), hi, npv(Middle(lo, hi)), k - 1);
      }
    }
  }

  // ---- net present values of dated cash flows -----------------------------------------

  /** An amount, and the years, whole or not, since the first flow. */
  datatype Flow = Flow(amount: real, years: real)

  /** pow(b, y) is b to the power of y, as far as these laws say. */
  ghost predicate IsPower(pow: (real, real) -> real) {
    forall a, b, s, t :: 0.0 < a <= b && s >= 0.0 && t >= 0.0 ==> PowerLaws(pow, a, b, s, t)
  }

  ghost predicate PowerLaws(pow: (real, real) -> real, a: real, b: real, s: real, t: real) {
    && pow(a, s) > 0.0 && pow(a, 0.0) == 1.0 && pow(a, 1.0) == a
    && pow(a, s + t) == pow(a, s) * pow(a, t)
    && (a < b && s > 0.0 ==> pow(a, s) < pow(b, s))
  }

  /** The division by a zero power cannot occur above -1. */
  function Discounted(pow: (real, real) -> real, f: Flow, rate: real): real {
    if pow(1.0 + rate, f.years) == 0.0 then 0.0 else f.amount / pow(1.0 + rate, f.years)
  }

  function PresentValue(pow: (real, real) -> real, flows: seq<Flow>, rate: real): real {
    if flows == [] then 0.0
    else PresentValue(pow, flows[..|flows| - 1], rate) + Discounted(pow, flows[|flows| - 1], rate)
  }

  function Npv(pow: (real, real) -> real, flows: seq<Flow>): real -> real {
    rate => PresentValue(pow, flows, rate)
  }

  /** Payments only before the turn, receipts only after it. */
  ghost predicate PaysFirst(flows: seq<Flow>, turn: real) {
    turn >= 0.0 && forall i :: 0 <= i < |flows| ==> OnItsSide(flows[i], turn)
  }

  predicate OnItsSide(f: Flow, turn: real) {
    f.years >= 0.0 && (f.years < turn ==> f.amount <= 0.0) && (f.years > turn ==> f.amount >= 0.0)
  }

  /** A flow whose value at the turn depends on the rate. */
  predicate IsMoved(f: Flow, turn: real) {
    f.years != turn && f.amount != 0.0
  }

  lemma FactorSign(d: real, p: real)
    requires p > 0.0
    ensures d * p >= 0.0 ==> d >= 0.0
    ensures d * p > 0.0 ==> d > 0.0
    ensures d >= 0.0 ==> d * p >= 0.0
    ensures d > 0.0 ==> d * p > 0.0
  {
    if d < 0.0 {
      assert (-d) * p > 0.0;
    }
  }

  lemma QuotientFalls(x: real, p: real, q: real)
    requires x >= 0.0 && 0.0 < p <= q
    ensures x / p >= x / q
    ensures x > 0.0 && p < q ==> x / p > x / q
  {
    var u, v := x / p, x / q;
    assert u * p == x && v * q == x;
    assert (u - v) * p == v * (q - p);
    FactorSign(v, q);
    assert v * (q - p) >= 0.0;
    if x > 0.0 && p < q {
      assert v * (q - p) > 0.0;
    }
    FactorSign(u - v, p);
  }

  /** Compounding an early flow to the turn, or discounting a late one to it. */
  lemma QuotientTimes(x: real, p: real, q: real)
    requires p > 0.0 && q > 0.0
    ensures x / p * (p * q) == x * q
    ensures p * q > 0.0 && x / (p * q) * p == x / q
  {
    var u := x / p;
    assert u * p == x;
    assert u * (p * q) == (u * p) * q;
    FactorSign(p, q);
    var v := x / (p * q);
    assert v * (p * q) == x;
    assert (v * p) * q == x;
  }

  /** A flow's value at the turn. */
  function AtTurn(pow: (real, real) -> real, f: Flow, turn: real, rate: real): real {
    Discounted(pow, f, rate) * pow(1.0 + rate, turn)
  }

  lemma EarlyAtTurn(pow: (real, real) -> real, f: Flow, turn: real, rate: real)
    requires IsPower(pow) && rate > -1.0 && 0.0 <= f.years <= turn
    ensures AtTurn(pow, f, turn, rate) == f.amount * pow(1.0 + rate, turn - f.years)
  {
    var b := 1.0 + rate;
    assert PowerLaws(pow, b, b, f.years, turn - f.years) && PowerLaws(pow, b, b, turn - f.years, 0.0);
    assert f.years + (turn - f.years) == turn;
    QuotientTimes(f.amount, pow(b, f.years), pow(b, turn - f.years));
  }

  lemma LateAtTurn(pow: (real, real) -> real, f: Flow, turn: real, rate: real)
    requires IsPower(pow) && rate > -1.0 && 0.0 <= turn <= f.years
    ensures pow(1.0 + rate, f.years - turn) > 0.0
    ensures AtTurn(pow, f, turn, rate) == f.amount / pow(1.0 + rate, f.years - turn)
  {
    var b := 1.0 + rate;
    assert PowerLaws(pow, b, b, turn, f.years - turn) && PowerLaws(pow, b, b, f.years - turn, 0.0);
    assert turn + (f.years - turn) == f.years;
    QuotientTimes(f.amount, pow(b, turn), pow(b, f.years - turn));
  }

  lemma ProductFalls(x: real, p: real, q: real)
    requires x <= 0.0 && p <= q
    ensures x * p >= x * q
    ensures x < 0.0 && p < q ==> x * p > x * q
  {
    assert x * p - x * q == (-x) * (q - p);
    if x < 0.0 {
      FactorSign(q - p, -x);
    }
  }

  /** The two powers that a flow's value at the turn is compared by. */
  lemma PowersGrow(pow: (real, real) -> real, x: real, y: real, d: real)
    requires IsPower(pow) && -1.0 < x < y && d >= 0.0
    ensures 0.0 < pow(1.0 + x, d) <= pow(1.0 + y, d)
    ensures d > 0.0 ==> pow(1.0 + x, d) < pow(1.0 + y, d)
  {
    assert PowerLaws(pow, 1.0 + x, 1.0 + y, d, 0.0) && PowerLaws(pow, 1.0 + x, 1.0 + x, d, 0.0);
    assert PowerLaws(pow, 1.0 + y, 1.0 + y, d, 0.0);
  }

  lemma EarlyFalls(pow: (real, real) -> real, f: Flow, turn: real, x: real, y: real)
    requires IsPower(pow) && 0.0 <= f.years < turn && f.amount <= 0.0 && -1.0 < x < y
    ensures AtTurn(pow, f, turn, x) >= AtTurn(pow, f, turn, y)
    ensures f.amount != 0.0 ==> AtTurn(pow, f, turn, x) > AtTurn(pow, f, turn, y)
  {
    PowersGrow(pow, x, y, turn - f.years);
    EarlyAtTurn(pow, f, turn, x);
    EarlyAtTurn(pow, f, turn, y);
    ProductFalls(f.amount, pow(1.0 + x, turn - f.years), pow(1.0 + y, turn - f.years));
  }

  lemma LateFalls(pow: (real, real) -> real, f: Flow, turn: real, x: real, y: real)
    requires IsPower(pow) && 0.0 <= turn < f.years && f.amount >= 0.0 && -1.0 < x < y
    ensures AtTurn(pow, f, turn, x) >= AtTurn(pow, f, turn, y)
    ensures f.amount != 0.0 ==> AtTurn(pow, f, turn, x) > AtTurn(pow, f, turn, y)
  {
    PowersGrow(pow, x, y, f.years - turn);
    LateAtTurn(pow, f, turn, x);
    LateAtTurn(pow, f, turn, y);
    QuotientFalls(f.amount, pow(1.0 + x, f.years - turn), pow(1.0 + y, f.years - turn));
  }

  /** A flow at the turn is worth its amount there, whatever the rate. */
  lemma FlowAtTurnStays(pow: (real, real) -> real, f: Flow, rate: real)
    requires IsPower(pow) && rate > -1.0 && f.years >= 0.0
    ensures AtTurn(pow, f, f.years, rate) == f.amount
  {
    EarlyAtTurn(pow, f, f.years, rate);
    assert PowerLaws(pow, 1.0 + rate, 1.0 + rate, 0.0, 0.0);
  }

  /** A higher rate lowers what a flow on its side is worth at the turn. */
  lemma FlowFalls(pow: (real, real) -> real, f: Flow, turn: real, x: real, y: real)
    requires IsPower(pow) && turn >= 0.0 && OnItsSide(f, turn) && -1.0 < x < y
    ensures AtTurn(pow, f, turn, x) >= AtTurn(pow, f, turn, y)
    ensures IsMoved(f, turn) ==> AtTurn(pow, f, turn, x) > AtTurn(pow, f, turn, y)
  {
    if f.years < turn {
      EarlyFalls(pow, f, turn, x, y);
    } else if f.years > turn {
      LateFalls(pow, f, turn, x, y);
    } else {
      FlowAtTurnStays(pow, f, x);
      FlowAtTurnStays(pow, f, y);
    }
  }

  function TurnValue(pow: (real, real) -> real, flows: seq<Flow>, turn: real, rate: real): real {
    if flows == [] then 0.0
    else TurnValue(pow, flows[..|flows| - 1], turn, rate) + AtTurn(pow, flows[|flows| - 1], turn, rate)
  }

  lemma {:induction false} TurnValueIsScaled(pow: (real, real) -> real, flows: seq<Flow>, turn: real, rate: real)
    ensures TurnValue(pow, flows, turn, rate) == PresentValue(pow, flows, rate) * pow(1.0 + rate, turn)
    decreases |flows|
  {
    if flows != [] {
      TurnValueIsScaled(pow, flows[..|flows| - 1], turn, rate);
      Distribute(PresentValue(pow, flows[..|flows| - 1], rate), Discounted(pow, flows[|flows| - 1], rate),
                 pow(1.0 + rate, turn));
    }
  }

  lemma Distribute(a: real, b: real, p: real)
    ensures (a + b) * p == a * p + b * p
  {
  }

  /** So does it for the whole series. */
  lemma {:induction false} ValueFalls(pow: (real, real) -> real, flows: seq<Flow>, turn: real, x: real, y: real)
    requires IsPower(pow) && PaysFirst(flows, turn) && -1.0 < x < y
    ensures TurnValue(pow, flows, turn, x) >= TurnValue(pow, flows, turn, y)
    ensures (exists f :: f in flows && IsMoved(f, turn)) ==>
              TurnValue(pow, flows, turn, x) > TurnValue(pow, flows, turn, y)
    decreases |flows|
  {
    if flows != [] {
      var front, f := flows[..|flows| - 1], flows[|flows| - 1];
      assert flows == front + [f];
      ValueFalls(pow, front, turn, x, y);
      FlowFalls(pow, f, turn, x, y);
    }
  }

  lemma ScaledSign(pow: (real, real) -> real, v: real, turn: real, rate: real)
    requires IsPower(pow) && turn >= 0.0 && rate > -1.0
    ensures v * pow(1.0 + rate, turn) > 0.0 ==> v > 0.0
    ensures v * pow(1.0 + rate, turn) < 0.0 ==> v < 0.0
  {
    var p := pow(1.0 + rate, turn);
    assert PowerLaws(pow, 1.0 + rate, 1.0 + rate, turn, 0.0);
    FactorSign(v, p);
    FactorSign(-v, p);
    assert (-v) * p == -(v * p);
  }

  /** The sign of the present value on either side of the rate of return. */
  lemma ReturnSign(pow: (real, real) -> real, flows: seq<Flow>, turn: real, root: real, x: real)
    requires IsPower(pow) && PaysFirst(flows, turn) && exists f :: f in flows && IsMoved(f, turn)
    requires root > -1.0 && x > -1.0 && PresentValue(pow, flows, root) == 0.0
    ensures x < root ==> PresentValue(pow, flows, x) > 0.0
    ensures x > root ==> PresentValue(pow, flows, x) < 0.0
  {
    TurnValueIsScaled(pow, flows, turn, root);
    assert TurnValue(pow, flows, turn, root) == 0.0;
    TurnValueIsScaled(pow, flows, turn, x);
    ScaledSign(pow, PresentValue(pow, flows, x), turn, x);
    if x < root {
      ValueFalls(pow, flows, turn, x, root);
    } else if x > root {
      ValueFalls(pow, flows, turn, root, x);
    }
  }

  /** The rate of return of such a series is its only one, and the value crosses zero there downwards. */
  lemma ReturnIsCrossing(pow: (real, real) -> real, flows: seq<Flow>, turn: real, root: real)
    requires IsPower(pow) && PaysFirst(flows, turn) && exists f :: f in flows && IsMoved(f, turn)
    requires root > -1.0 && PresentValue(pow, flows, root) == 0.0
    ensures CrossesOnce(Npv(pow, flows), root)
  {
    forall x | x > -1.0
      ensures x < root ==> PresentValue(pow, flows, x) > 0.0
      ensures x > root ==> PresentValue(pow, flows, x) < 0.0
    {
      ReturnSign(pow, flows, turn, root, x);
    }
  }

  /**
   For payments followed by receipts, each at any date, with the rate of return in the
   bracket: k rounds of the fallback end at a root up to the tolerance or within 10.99/2^k
   of that rate.
   */
  lemma FallbackFindsReturn(pow: (real, real) -> real, flows: seq<Flow>, turn: real, root: real, k: nat)
    requires IsPower(pow) && PaysFirst(flows, turn) && exists f :: f in flows && IsMoved(f, turn)
    requires LOW < root <= HIGH && PresentValue(pow, flows, root) == 0.0
    ensures var npv := Npv(pow, flows);
            var rate := Bisect(npv, LOW, HIGH, npv(LOW), k);
            npv(LOW) * npv(HIGH) <= 0.0
            && (IsZero(npv(rate)) || -(10.99 / Pow2(k)) <= rate - root <= 10.99 / Pow2(k))
  {
    ReturnIsCrossing(pow, flows, turn, root);
    FallbackFindsRoot(Npv(pow, flows), root, k);
  }

  /** A payment of 100, and 1 received after a year: a loss of 99 percent. */
  const LOSS := [Flow(-100.0, 0.0), Flow(1.0, 1.0)]

  lemma LossValue(pow: (real, real) -> real, rate: real)
    requires IsPower(pow) && rate > -1.0
    ensures PresentValue(pow, LOSS, rate) == -100.0 + 1.0 / (1.0 + rate)
  {
    assert LOSS[..1] == [Flow(-100.0, 0.0)] && LOSS[..1][..0] == [];
    assert PowerLaws(pow, 1.0 + rate, 1.0 + rate, 0.0, 0.0);
    assert PresentValue(pow, LOSS[..1], rate) == -100.0;
  }

  /** Its rate of return is -0.99, and the fallback answers with at least 4.505, where the value is below -99. */
  lemma RootAtLeftEndIsLost(pow: (real, real) -> real)
    requires IsPower(pow)
    ensures var npv := Npv(pow, LOSS);
            && npv(LOW) == 0.0 && npv(LOW) * npv(HIGH) <= 0.0
            && Bisect(npv, LOW, HIGH, npv(LOW), ROUNDS) >= 4.505
            && npv(Bisect(npv, LOW, HIGH, npv(LOW), ROUNDS)) <= -99.0
  {
    var npv := Npv(pow, LOSS);
    var mid := Middle(LOW, HIGH);
    LossValue(pow, LOW);
    LossValue(pow, mid);
    assert npv(LOW) == 0.0 && npv(LOW) * npv(mid) == 0.0 && npv(LOW) * npv(HIGH) == 0.0;
    assert !IsZero(npv(mid)) by {
      QuotientFalls(1.0, 1.0, 1.0 + mid);
    }
    assert Bisect(npv, LOW, HIGH, npv(LOW), ROUNDS) == Bisect(npv, mid, HIGH, npv(mid), ROUNDS - 1);
    BisectStaysInside(npv, mid, HIGH, npv(mid), ROUNDS - 1);
    var rate := Bisect(npv, LOW, HIGH, npv(LOW), ROUNDS);
    LossValue(pow, rate);
    QuotientFalls(1.0, 1.0, 1.0 + rate);
  }
}
