/**
 The asset allocation of a portfolio, and the incremental "what if I bought this fund"
 that has to agree with computing the allocation again.
 */
module Allocation {
  import opened Options
  import opened Rounding

  datatype Volatility = Stable | Low | Medium | High

  datatype Level = Conservative | ModerateConservative | Balanced | Aggressive | VeryAggressive

  datatype FundMeta = FundMeta(riskLevel: string, equityPct: real, debtPct: real, otherPct: real)

  datatype Folio = Folio(scheme: string, value: real)

  datatype Stock = Stock(quantity: int, lastPrice: real)

  datatype Deposit = Deposit(active: bool, principal: real)

  datatype Portfolio = Portfolio(folios: seq<Folio>, stocks: seq<Stock>, deposits: seq<Deposit>)

  type Catalog = map<string, FundMeta>

  /** What a holding is counted towards: an asset class or a volatility bucket. */
  datatype Measure = Equity | Debt | Other | In(v: Volatility)

  datatype Bucket = Bucket(volatility: Volatility, amount: real, share: real)

  /** A percentage is None where the division by the total is not a number. */
  datatype Result = Result(
    total: real, equity: real, debt: real, other: real,
    equityPct: Option<real>, debtPct: Option<real>, otherPct: Option<real>,
    buckets: seq<Bucket>, level: Level)

  /** The money side of a result, by asset class and by volatility bucket. */
  datatype Amounts = Amounts(
    total: real, equity: real, debt: real, other: real,
    stable: real, low: real, medium: real, high: real)
  {
    function At(v: Volatility): real {
      match v
      case Stable => stable
      case Low => low
      case Medium => medium
      case High => high
    }
  }

  const LABELS := [Stable, Low, Medium, High]

  /** Used by the allocation for a scheme without a catalog row. */
  const UNLISTED := FundMeta("Medium", 100.0, 0.0, 0.0)

  /** Used by the simulation for a scheme without a catalog row. */
  const UNLISTED_PURCHASE := FundMeta("High", 100.0, 0.0, 0.0)

  function VolatilityForRiskLevel(riskLevel: string): Volatility {
    if riskLevel == "Low" then Low else if riskLevel == "High" then High else Medium
  }

  function AllocationLevel(total: real, high: real): Level {
    if total <= 0.0 then Balanced
    else
      var highPct := high / total * 100.0;
      if highPct < 10.0 then Conservative
      else if highPct < 30.0 then ModerateConservative
      else if highPct < 55.0 then Balanced
      else if highPct < 80.0 then Aggressive
      else VeryAggressive
  }

  function Percent(part: real, total: real): Option<real> {
    if total == 0.0 then None else Some(Round2(part / total * 100.0))
  }

  // ---- the specification: plain sums ---------------------------------------------------

  function MetaOf(catalog: Catalog, scheme: string): FundMeta {
    if scheme in catalog then catalog[scheme] else UNLISTED
  }

  /** How much of a fund holding counts towards m. */
  function FundPart(meta: FundMeta, value: real, m: Measure): real {
    match m
    case Equity => value * meta.equityPct / 100.0
    case Debt => value * meta.debtPct / 100.0
    case Other => value * meta.otherPct / 100.0
    case In(v) => if VolatilityForRiskLevel(meta.riskLevel) == v then value else 0.0
  }

  function StockPart(h: Stock, m: Measure): real {
    if m == Equity || m == In(High) then h.quantity as real * h.lastPrice else 0.0
  }

  function DepositPart(d: Deposit, m: Measure): real {
    if d.active && (m == Other || m == In(Stable)) then d.principal else 0.0
  }

  function FolioSum(folios: seq<Folio>, catalog: Catalog, m: Measure): real {
    if folios == [] then 0.0
    else
      var f := folios[|folios| - 1];
      FolioSum(folios[..|folios| - 1], catalog, m) + FundPart(MetaOf(catalog, f.scheme), f.value, m)
  }

  function StockSum(stocks: seq<Stock>, m: Measure): real {
    if stocks == [] then 0.0
    else StockSum(stocks[..|stocks| - 1], m) + StockPart(stocks[|stocks| - 1], m)
  }

  function DepositSum(deposits: seq<Deposit>, m: Measure): real {
    if deposits == [] then 0.0
    else DepositSum(deposits[..|deposits| - 1], m) + DepositPart(deposits[|deposits| - 1], m)
  }

  /** The exact amount of the portfolio that counts towards m. */
  function Sum(p: Portfolio, catalog: Catalog, m: Measure): real {
    FolioSum(p.folios, catalog, m) + StockSum(p.stocks, m) + DepositSum(p.deposits, m)
  }

  function ClassSum(p: Portfolio, catalog: Catalog): real {
    Sum(p, catalog, Equity) + Sum(p, catalog, Debt) + Sum(p, catalog, Other)
  }

  /** In the portfolio's own result a percentage of an empty portfolio is 0. */
  function ShareOf(amount: real, total: real): real {
    if total > 0.0 then Round2(amount / total * 100.0) else 0.0
  }

  function RawAmounts(p: Portfolio, catalog: Catalog): Amounts {
    Amounts(ClassSum(p, catalog), Sum(p, catalog, Equity), Sum(p, catalog, Debt), Sum(p, catalog, Other),
            Sum(p, catalog, In(Stable)), Sum(p, catalog, In(Low)), Sum(p, catalog, In(Medium)),
            Sum(p, catalog, In(High)))
  }

  function EachAmount(f: real -> real, a: Amounts): Amounts {
    Amounts(f(a.total), f(a.equity), f(a.debt), f(a.other), f(a.stable), f(a.low), f(a.medium), f(a.high))
  }

  function Rounded(a: Amounts): Amounts {
    EachAmount(Round2, a)
  }

  function Plus(a: Amounts, b: Amounts): Amounts {
    Amounts(a.total + b.total, a.equity + b.equity, a.debt + b.debt, a.other + b.other,
            a.stable + b.stable, a.low + b.low, a.medium + b.medium, a.high + b.high)
  }

  /** The amounts that an allocation reports. */
  function Shown(p: Portfolio, catalog: Catalog): Amounts {
    Rounded(RawAmounts(p, catalog))
  }

  /** Each bucket shows one amount and takes its share from another base. */
  function Buckets(shown: Amounts, base: Amounts): (b: seq<Bucket>)
    ensures |b| == 4
  {
    [Bucket(Stable, shown.stable, ShareOf(base.stable, base.total)),
     Bucket(Low, shown.low, ShareOf(base.low, base.total)),
     Bucket(Medium, shown.medium, ShareOf(base.medium, base.total)),
     Bucket(High, shown.high, ShareOf(base.high, base.total))]
  }

  /** Shares are taken from the rounded amounts, the level from the unrounded high bucket. */
  function Reported(raw: Amounts): Result {
    var s := Rounded(raw);
    Result(s.total, s.equity, s.debt, s.other,
           Some(ShareOf(s.equity, s.total)), Some(ShareOf(s.debt, s.total)), Some(ShareOf(s.other, s.total)),
           Buckets(s, s), AllocationLevel(s.total, raw.high))
  }

  function AllocationOf(p: Portfolio, catalog: Catalog): Result {
    Reported(RawAmounts(p, catalog))
  }

  // ---- the allocation as its loops compute it ------------------------------------------

  datatype Tally = Tally(equity: real, debt: real, other: real, vol: map<Volatility, real>)

  /** The tally holds the sums that are given by measure. */
  ghost predicate Tallies(t: Tally, sum: Measure -> real) {
    && t.equity == sum(Equity) && t.debt == sum(Debt) && t.other == sum(Other)
    && forall v: Volatility :: v in t.vol && t.vol[v] == sum(In(v))
  }

  function SumOf(p: Portfolio, catalog: Catalog): Measure -> real {
    m => Sum(p, catalog, m)
  }

  /** One more holding adds its part to every sum. */
  ghost predicate Adds(before: Measure -> real, part: Measure -> real, after: Measure -> real) {
    forall m: Measure :: after(m) == before(m) + part(m)
  }

  method AddFolio(t: Tally, f: Folio, catalog: Catalog, ghost before: Measure -> real, ghost after: Measure -> real)
    returns (t': Tally)
    requires Tallies(t, before) && Adds(before, m => FundPart(MetaOf(catalog, f.scheme), f.value, m), after)
    ensures Tallies(t', after)
  {
    var meta := if f.scheme in catalog then catalog[f.scheme] else UNLISTED;
    var v := VolatilityForRiskLevel(meta.riskLevel);
    assert after(Equity) == before(Equity) + FundPart(meta, f.value, Equity);
    assert after(Debt) == before(Debt) + FundPart(meta, f.value, Debt);
    assert after(Other) == before(Other) + FundPart(meta, f.value, Other);
    assert forall u: Volatility :: after(In(u)) == before(In(u)) + FundPart(meta, f.value, In(u));
    t' := Tally(t.equity + f.value * meta.equityPct / 100.0,
                t.debt + f.value * meta.debtPct / 100.0,
                t.other + f.value * meta.otherPct / 100.0,
                t.vol[v := t.vol[v] + f.value]);
  }

  method AddStock(t: Tally, h: Stock, ghost before: Measure -> real, ghost after: Measure -> real) returns (t': Tally)
    requires Tallies(t, before) && Adds(before, m => StockPart(h, m), after)
    ensures Tallies(t', after)
  {
    var value := h.quantity as real * h.lastPrice;
    t' := t.(equity := t.equity + value, vol := t.vol[High := t.vol[High] + value]);
  }

  method AddDeposit(t: Tally, d: Deposit, ghost before: Measure -> real, ghost after: Measure -> real)
    returns (t': Tally)
    requires Tallies(t, before) && Adds(before, m => DepositPart(d, m), after)
    ensures Tallies(t', after)
  {
    t' := t;
    if d.active {
      t' := t.(other := t.other + d.principal, vol := t.vol[Stable := t.vol[Stable] + d.principal]);
    }
  }

  method TallyFolios(p: Portfolio, catalog: Catalog) returns (t: Tally)
    ensures Tallies(t, SumOf(Portfolio(p.folios, [], []), catalog))
  {
    t := Tally(0.0, 0.0, 0.0, map[Stable := 0.0, Low := 0.0, Medium := 0.0, High := 0.0]);
    ghost var seen := Portfolio([], [], []);
    assert Tallies(t, SumOf(seen, catalog)) by {
      forall v: Volatility ensures v in t.vol && t.vol[v] == 0.0 {
        match v case Stable => case Low => case Medium => case High =>
      }
    }
    for i := 0 to |p.folios|
      invariant seen == Portfolio(p.folios[..i], [], []) && Tallies(t, SumOf(seen, catalog))
    {
      t := AddFolio(t, p.folios[i], catalog, SumOf(seen, catalog),
                SumOf(seen.(folios := seen.folios + [p.folios[i]]), catalog));
      seen := seen.(folios := seen.folios + [p.folios[i]]);
    }
    assert seen == Portfolio(p.folios, [], []);
  }

  method TallyStocks(p: Portfolio, catalog: Catalog, folios: Tally) returns (t: Tally)
    requires Tallies(folios, SumOf(Portfolio(p.folios, [], []), catalog))
    ensures Tallies(t, SumOf(Portfolio(p.folios, p.stocks, []), catalog))
  {
    t := folios;
    ghost var seen := Portfolio(p.folios, [], []);
    for i := 0 to |p.stocks|
      invariant seen == Portfolio(p.folios, p.stocks[..i], []) && Tallies(t, SumOf(seen, catalog))
    {
      t := AddStock(t, p.stocks[i], SumOf(seen, catalog), SumOf(seen.(stocks := seen.stocks + [p.stocks[i]]), catalog));
      seen := seen.(stocks := seen.stocks + [p.stocks[i]]);
    }
    assert seen == Portfolio(p.folios, p.stocks, []);
  }

  method TallyDeposits(p: Portfolio, catalog: Catalog, holdings: Tally) returns (t: Tally)
    requires Tallies(holdings, SumOf(Portfolio(p.folios, p.stocks, []), catalog))
    ensures Tallies(t, SumOf(p, catalog))
  {
    t := holdings;
    ghost var seen := Portfolio(p.folios, p.stocks, []);
    for i := 0 to |p.deposits|
      invariant seen == Portfolio(p.folios, p.stocks, p.deposits[..i]) && Tallies(t, SumOf(seen, catalog))
    {
      t := AddDeposit(t, p.deposits[i], SumOf(seen, catalog),
                 SumOf(seen.(deposits := seen.deposits + [p.deposits[i]]), catalog));
      seen := seen.(deposits := seen.deposits + [p.deposits[i]]);
    }
    assert seen == p;
  }

  method ListBuckets(vol: map<Volatility, real>, total: real, ghost s: Amounts) returns (buckets: seq<Bucket>)
    requires total == s.total && forall v: Volatility :: v in vol && Round2(vol[v]) == s.At(v)
    ensures buckets == Buckets(s, s)
  {
    buckets := [];
    for i := 0 to |LABELS|
      invariant |buckets| == i && forall k :: 0 <= k < i ==> buckets[k] == Buckets(s, s)[k]
    {
      var amount := Round2(vol[LABELS[i]]);
      assert amount == s.At(LABELS[i]);
      buckets := buckets + [Bucket(LABELS[i], amount, ShareOf(amount, total))];
    }
  }

  method Report(t: Tally, ghost raw: Amounts) returns (r: Result)
    requires t.equity + t.debt + t.other == raw.total
    requires t.equity == raw.equity && t.debt == raw.debt && t.other == raw.other
    requires forall v: Volatility :: v in t.vol && t.vol[v] == raw.At(v)
    ensures r == Reported(raw)
  {
    var total := Round2(t.equity + t.debt + t.other);
    var equity, debt, other := Round2(t.equity), Round2(t.debt), Round2(t.other);
    var equityPct, debtPct, otherPct := 0.0, 0.0, 0.0;
    if total > 0.0 {
      equityPct := Round2(equity / total * 100.0);
      debtPct := Round2(debt / total * 100.0);
      otherPct := Round2(other / total * 100.0);
    }
    var buckets := ListBuckets(t.vol, total, Rounded(raw));
    r := Result(total, equity, debt, other, Some(equityPct), Some(debtPct), Some(otherPct), buckets,
                AllocationLevel(total, t.vol[High]));
  }

  method ComputeAllocation(p: Portfolio, catalog: Catalog) returns (r: Result)
    ensures r == AllocationOf(p, catalog)
  {
    var t := TallyFolios(p, catalog);
    t := TallyStocks(p, catalog, t);
    t := TallyDeposits(p, catalog, t);
    r := Report(t, RawAmounts(p, catalog));
  }

  // ---- the simulation ------------------------------------------------------------------------

  function PurchasedMeta(catalog: Catalog, scheme: string): FundMeta {
    if scheme in catalog then catalog[scheme] else UNLISTED_PURCHASE
  }

  function InBucket(fund: FundMeta, v: Volatility, amount: real): real {
    if VolatilityForRiskLevel(fund.riskLevel) == v then amount else 0.0
  }

  /** What a purchase adds; the total counts all of it. */
  function Purchase(fund: FundMeta, amount: real): Amounts {
    Amounts(amount,
            amount * (fund.equityPct / 100.0), amount * (fund.debtPct / 100.0), amount * (fund.otherPct / 100.0),
            InBucket(fund, Stable, amount), InBucket(fund, Low, amount),
            InBucket(fund, Medium, amount), InBucket(fund, High, amount))
  }

  function AfterPurchase(a: Amounts, fund: FundMeta, amount: real): Amounts {
    Plus(a, Purchase(fund, amount))
  }

  /** Shares and level are taken from the unrounded amounts after the purchase. */
  function ReportOf(a: Amounts): Result {
    var s := Rounded(a);
    Result(s.total, s.equity, s.debt, s.other,
           Percent(a.equity, a.total), Percent(a.debt, a.total), Percent(a.other, a.total),
           Buckets(s, a), AllocationLevel(a.total, a.high))
  }

  function Simulated(shown: Amounts, fund: FundMeta, amount: real): Result {
    ReportOf(AfterPurchase(shown, fund, amount))
  }

  method SimulatePurchase(p: Portfolio, catalog: Catalog, scheme: string, amount: real)
    returns (current: Result, projected: Result)
    ensures current == AllocationOf(p, catalog)
    ensures projected == Simulated(Shown(p, catalog), PurchasedMeta(catalog, scheme), amount)
  {
    current := ComputeAllocation(p, catalog);
    var fund := if scheme in catalog then catalog[scheme] else UNLISTED_PURCHASE;
    projected := Project(current, fund, amount, Shown(p, catalog));
  }

  /** A result that shows the given amounts. */
  ghost predicate Shows(r: Result, shown: Amounts) {
    && (r.total, r.equity, r.debt, r.other) == (shown.total, shown.equity, shown.debt, shown.other)
    && r.buckets == Buckets(shown, shown)
  }

  method Project(current: Result, fund: FundMeta, amount: real, ghost shown: Amounts) returns (projected: Result)
    requires Shows(current, shown)
    ensures projected == Simulated(shown, fund, amount)
  {
    var addEquity := amount * (fund.equityPct / 100.0);
    var addDebt := amount * (fund.debtPct / 100.0);
    var addOther := amount * (fund.otherPct / 100.0);
    ghost var a := AfterPurchase(shown, fund, amount);
    assert a.equity == shown.equity + addEquity;
    assert a.debt == shown.debt + addDebt;
    assert a.other == shown.other + addOther;
    projected := ProjectParts(current, addEquity, addDebt, addOther, fund, amount, shown, a);
  }

  method ProjectParts(current: Result, addEquity: real, addDebt: real, addOther: real, fund: FundMeta, amount: real,
                      ghost shown: Amounts, ghost a: Amounts)
    returns (projected: Result)
    requires Shows(current, shown)
    requires (a.total, a.equity, a.debt, a.other)
             == (shown.total + amount, shown.equity + addEquity, shown.debt + addDebt, shown.other + addOther)
    requires forall v: Volatility :: a.At(v) == shown.At(v) + InBucket(fund, v, amount)
    ensures projected == ReportOf(a)
  {
    var newTotal := current.total + amount;
    var equity, debt, other := current.equity + addEquity, current.debt + addDebt, current.other + addOther;
    var highVolAmt, buckets := SimulateBuckets(current.buckets, fund, amount, newTotal, shown, a);
    projected := Result(Round2(newTotal), Round2(equity), Round2(debt), Round2(other),
                        Percent(equity, newTotal), Percent(debt, newTotal), Percent(other, newTotal),
                        buckets, AllocationLevel(newTotal, highVolAmt));
  }

  method SimulateBuckets(before: seq<Bucket>, fund: FundMeta, amount: real, newTotal: real,
                         ghost shown: Amounts, ghost a: Amounts)
    returns (highVolAmt: real, buckets: seq<Bucket>)
    requires before == Buckets(shown, shown) && newTotal == a.total
    requires forall v: Volatility :: a.At(v) == shown.At(v) + InBucket(fund, v, amount)
    ensures highVolAmt == a.high && buckets == Buckets(Rounded(a), a)
  {
    var vol := VolatilityForRiskLevel(fund.riskLevel);
    highVolAmt, buckets := 0.0, [];
    for i := 0 to |before|
      invariant |buckets| == i && forall k :: 0 <= k < i ==> buckets[k] == Buckets(Rounded(a), a)[k]
      invariant i == 4 ==> highVolAmt == a.high
    {
      var amt := before[i].amount;
      if before[i].volatility == vol {
        amt := amt + amount;
      }
      if before[i].volatility == High {
        highVolAmt := amt;
      }
      assert amt == a.At(before[i].volatility);
      var shPct := 0.0;
      if newTotal > 0.0 {
        shPct := Round2(amt / newTotal * 100.0);
      }
      buckets := buckets + [Bucket(before[i].volatility, Round2(amt), shPct)];
    }
  }

  // ---- the results written out --------------------------------------------------------------------

  function SumBy<T>(xs: seq<T>, f: T -> real): real {
    if xs == [] then 0.0 else SumBy(xs[..|xs| - 1], f) + f(xs[|xs| - 1])
  }

  lemma {:induction false} FolioSumBy(folios: seq<Folio>, catalog: Catalog, m: Measure, f: Folio -> real)
    requires forall x: Folio :: f(x) == FundPart(MetaOf(catalog, x.scheme), x.value, m)
    ensures FolioSum(folios, catalog, m) == SumBy(folios, f)
    decreases |folios|
  {
    if folios != [] {
      FolioSumBy(folios[..|folios| - 1], catalog, m, f);
    }
  }

  lemma {:induction false} StockSumBy(stocks: seq<Stock>, m: Measure)
    ensures m in {Equity, In(High)} ==>
              StockSum(stocks, m) == SumBy(stocks, (h: Stock) => h.quantity as real * h.lastPrice)
    ensures m !in {Equity, In(High)} ==> StockSum(stocks, m) == 0.0
    decreases |stocks|
  {
    if stocks != [] {
      StockSumBy(stocks[..|stocks| - 1], m);
    }
  }

  lemma {:induction false} DepositSumBy(deposits: seq<Deposit>, m: Measure)
    ensures m in {Other, In(Stable)} ==>
              DepositSum(deposits, m) == SumBy(deposits, (d: Deposit) => if d.active then d.principal else 0.0)
    ensures m !in {Other, In(Stable)} ==> DepositSum(deposits, m) == 0.0
    decreases |deposits|
  {
    if deposits != [] {
      DepositSumBy(deposits[..|deposits| - 1], m);
    }
  }

  /** The asset classes: funds by their percentages, stocks as equity, active deposits as other. */
  lemma ClassesWrittenOut(p: Portfolio, catalog: Catalog)
    ensures Sum(p, catalog, Equity)
         == SumBy(p.folios, (f: Folio) => if f.scheme in catalog
                                          then f.value * catalog[f.scheme].equityPct / 100.0 else f.value)
            + SumBy(p.stocks, (h: Stock) => h.quantity as real * h.lastPrice)
    ensures Sum(p, catalog, Debt)
         == SumBy(p.folios, (f: Folio) => if f.scheme in catalog
                                          then f.value * catalog[f.scheme].debtPct / 100.0 else 0.0)
    ensures Sum(p, catalog, Other)
         == SumBy(p.folios, (f: Folio) => if f.scheme in catalog
                                          then f.value * catalog[f.scheme].otherPct / 100.0 else 0.0)
            + SumBy(p.deposits, (d: Deposit) => if d.active then d.principal else 0.0)
  {
    FolioSumBy(p.folios, catalog, Equity,
               (f: Folio) => if f.scheme in catalog then f.value * catalog[f.scheme].equityPct / 100.0 else f.value);
    FolioSumBy(p.folios, catalog, Debt,
               (f: Folio) => if f.scheme in catalog then f.value * catalog[f.scheme].debtPct / 100.0 else 0.0);
    FolioSumBy(p.folios, catalog, Other,
               (f: Folio) => if f.scheme in catalog then f.value * catalog[f.scheme].otherPct / 100.0 else 0.0);
    StockSumBy(p.stocks, Equity);
    StockSumBy(p.stocks, Debt);
    StockSumBy(p.stocks, Other);
    DepositSumBy(p.deposits, Equity);
    DepositSumBy(p.deposits, Debt);
    DepositSumBy(p.deposits, Other);
  }

  /** The buckets: funds by their risk level, medium without a row, stocks high, active deposits stable. */
  lemma BucketsWrittenOut(p: Portfolio, catalog: Catalog)
    ensures Sum(p, catalog, In(Stable)) == SumBy(p.deposits, (d: Deposit) => if d.active then d.principal else 0.0)
    ensures Sum(p, catalog, In(Low))
         == SumBy(p.folios, (f: Folio) => if f.scheme in catalog && catalog[f.scheme].riskLevel == "Low"
                                          then f.value else 0.0)
    ensures Sum(p, catalog, In(Medium))
         == SumBy(p.folios, (f: Folio) => if f.scheme in catalog && catalog[f.scheme].riskLevel in {"Low", "High"}
                                          then 0.0 else f.value)
    ensures Sum(p, catalog, In(High))
         == SumBy(p.folios, (f: Folio) => if f.scheme in catalog && catalog[f.scheme].riskLevel == "High"
                                          then f.value else 0.0)
            + SumBy(p.stocks, (h: Stock) => h.quantity as real * h.lastPrice)
  {
    FolioSumBy(p.folios, catalog, In(Stable), (f: Folio) => 0.0);
    SumOfNothing(p.folios, (f: Folio) => 0.0);
    FolioSumBy(p.folios, catalog, In(Low),
               (f: Folio) => if f.scheme in catalog && catalog[f.scheme].riskLevel == "Low" then f.value else 0.0);
    FolioSumBy(p.folios, catalog, In(Medium),
               (f: Folio) => if f.scheme in catalog && catalog[f.scheme].riskLevel in {"Low", "High"}
                             then 0.0 else f.value);
    FolioSumBy(p.folios, catalog, In(High),
               (f: Folio) => if f.scheme in catalog && catalog[f.scheme].riskLevel == "High" then f.value else 0.0);
    StockSumBy(p.stocks, In(Stable));
    StockSumBy(p.stocks, In(Low));
    StockSumBy(p.stocks, In(Medium));
    StockSumBy(p.stocks, In(High));
    DepositSumBy(p.deposits, In(Stable));
    DepositSumBy(p.deposits, In(Low));
    DepositSumBy(p.deposits, In(Medium));
    DepositSumBy(p.deposits, In(High));
  }

  lemma {:induction false} SumOfNothing<T>(xs: seq<T>, f: T -> real)
    requires forall x :: f(x) == 0.0
    ensures SumBy(xs, f) == 0.0
    decreases |xs|
  {
    if xs != [] {
      SumOfNothing(xs[..|xs| - 1], f);
    }
  }

  /** The level by the part of the money, in percent, that is at high risk. */
  predicate IsLevel(level: Level, total: real, high: real) {
    if total <= 0.0 then level == Balanced
    else
      var pct := high / total * 100.0;
      && (level == Conservative <==> pct < 10.0)
      && (level == ModerateConservative <==> 10.0 <= pct < 30.0)
      && (level == Balanced <==> 30.0 <= pct < 55.0)
      && (level == Aggressive <==> 55.0 <= pct < 80.0)
      && (level == VeryAggressive <==> 80.0 <= pct)
  }

  predicate IsBucket(b: Bucket, v: Volatility, amount: real, of: real, total: real) {
    && b.volatility == v && b.amount == Round2(amount)
    && b.share == if total > 0.0 then Round2(of / total * 100.0) else 0.0
  }

  /** What an allocation shows: rounded sums, shares of the rounded sums, the level of the unrounded high bucket. */
  lemma AllocationWrittenOut(p: Portfolio, catalog: Catalog)
    ensures var r, raw := AllocationOf(p, catalog), RawAmounts(p, catalog);
            && raw.equity == Sum(p, catalog, Equity) && raw.debt == Sum(p, catalog, Debt)
            && raw.other == Sum(p, catalog, Other)
            && raw.stable == Sum(p, catalog, In(Stable)) && raw.low == Sum(p, catalog, In(Low))
            && raw.medium == Sum(p, catalog, In(Medium)) && raw.high == Sum(p, catalog, In(High))
            && r.equity == Round2(raw.equity) && r.debt == Round2(raw.debt) && r.other == Round2(raw.other)
            && r.total == Round2(raw.equity + raw.debt + raw.other)
            && r.equityPct == Some(if r.total > 0.0 then Round2(r.equity / r.total * 100.0) else 0.0)
            && r.debtPct == Some(if r.total > 0.0 then Round2(r.debt / r.total * 100.0) else 0.0)
            && r.otherPct == Some(if r.total > 0.0 then Round2(r.other / r.total * 100.0) else 0.0)
            && |r.buckets| == 4
            && IsBucket(r.buckets[0], Stable, raw.stable, Round2(raw.stable), r.total)
            && IsBucket(r.buckets[1], Low, raw.low, Round2(raw.low), r.total)
            && IsBucket(r.buckets[2], Medium, raw.medium, Round2(raw.medium), r.total)
            && IsBucket(r.buckets[3], High, raw.high, Round2(raw.high), r.total)
            && IsLevel(r.level, r.total, raw.high)
  {
  }

  /** The amounts after a purchase: by the fund's row, or as pure equity of high risk without one. */
  lemma PurchaseWrittenOut(a: Amounts, catalog: Catalog, scheme: string, amount: real)
    ensures var after := AfterPurchase(a, PurchasedMeta(catalog, scheme), amount);
            var listed := scheme in catalog;
            && after.total == a.total + amount
            && after.equity == a.equity + (if listed then amount * (catalog[scheme].equityPct / 100.0) else amount)
            && after.debt == a.debt + (if listed then amount * (catalog[scheme].debtPct / 100.0) else 0.0)
            && after.other == a.other + (if listed then amount * (catalog[scheme].otherPct / 100.0) else 0.0)
            && after.stable == a.stable
            && after.low == a.low + (if listed && catalog[scheme].riskLevel == "Low" then amount else 0.0)
            && after.medium
               == a.medium + (if listed && catalog[scheme].riskLevel !in {"Low", "High"} then amount else 0.0)
            && after.high == a.high + (if !listed || catalog[scheme].riskLevel == "High" then amount else 0.0)
  {
  }

  /** What a simulation shows of those amounts: rounded, with the shares and the level of the unrounded ones. */
  lemma SimulationWrittenOut(shown: Amounts, fund: FundMeta, amount: real)
    ensures var r, a := Simulated(shown, fund, amount), AfterPurchase(shown, fund, amount);
            && r.total == Round2(a.total) && r.equity == Round2(a.equity)
            && r.debt == Round2(a.debt) && r.other == Round2(a.other)
            && (a.total != 0.0 ==>
                  && r.equityPct == Some(Round2(a.equity / a.total * 100.0))
                  && r.debtPct == Some(Round2(a.debt / a.total * 100.0))
                  && r.otherPct == Some(Round2(a.other / a.total * 100.0)))
            && (a.total == 0.0 ==> r.equityPct == None && r.debtPct == None && r.otherPct == None)
            && |r.buckets| == 4
            && IsBucket(r.buckets[0], Stable, a.stable, a.stable, a.total)
            && IsBucket(r.buckets[1], Low, a.low, a.low, a.total)
            && IsBucket(r.buckets[2], Medium, a.medium, a.medium, a.total)
            && IsBucket(r.buckets[3], High, a.high, a.high, a.total)
            && IsLevel(r.level, a.total, a.high)
  {
  }

  // ---- conservation -----------------------------------------------------------------------------

  predicate Complete(meta: FundMeta) {
    meta.equityPct + meta.debtPct + meta.otherPct == 100.0
  }

  function BucketSum(p: Portfolio, catalog: Catalog): real {
    Sum(p, catalog, In(Stable)) + Sum(p, catalog, In(Low)) + Sum(p, catalog, In(Medium)) + Sum(p, catalog, In(High))
  }

  lemma CompletePart(meta: FundMeta, value: real)
    requires Complete(meta)
    ensures FundPart(meta, value, Equity) + FundPart(meta, value, Debt) + FundPart(meta, value, Other) == value
    ensures FundPart(meta, value, In(Stable)) + FundPart(meta, value, In(Low)) + FundPart(meta, value, In(Medium))
            + FundPart(meta, value, In(High)) == value
  {
    assert value * meta.equityPct + value * meta.debtPct + value * meta.otherPct
        == value * (meta.equityPct + meta.debtPct + meta.otherPct);
  }

  /** When the funds held have complete rows, the classes and the buckets divide the same money. */
  lemma {:induction false} ClassesAndBucketsAgree(p: Portfolio, catalog: Catalog)
    requires forall f :: f in p.folios ==> Complete(MetaOf(catalog, f.scheme))
    ensures ClassSum(p, catalog) == BucketSum(p, catalog)
    decreases |p.folios|, |p.stocks|, |p.deposits|
  {
    if p.folios != [] {
      var f := p.folios[|p.folios| - 1];
      ClassesAndBucketsAgree(p.(folios := p.folios[..|p.folios| - 1]), catalog);
      CompletePart(MetaOf(catalog, f.scheme), f.value);
    } else if p.stocks != [] {
      ClassesAndBucketsAgree(p.(stocks := p.stocks[..|p.stocks| - 1]), catalog);
    } else if p.deposits != [] {
      ClassesAndBucketsAgree(p.(deposits := p.deposits[..|p.deposits| - 1]), catalog);
    }
  }

  // ---- the simulation against a recomputation -----------------------------------------------

  function Bought(p: Portfolio, scheme: string, amount: real): Portfolio {
    p.(folios := p.folios + [Folio(scheme, amount)])
  }

  lemma SumBought(p: Portfolio, catalog: Catalog, scheme: string, amount: real, m: Measure)
    ensures Sum(Bought(p, scheme, amount), catalog, m)
            == Sum(p, catalog, m) + FundPart(MetaOf(catalog, scheme), amount, m)
  {
    var folios := p.folios + [Folio(scheme, amount)];
    assert folios[..|folios| - 1] == p.folios;
  }

  /** Topping up a folio already held counts like a new folio of the same scheme. */
  lemma {:induction false} TopUpIsNewFolio(folios: seq<Folio>, i: nat, amount: real, catalog: Catalog, m: Measure)
    requires i < |folios|
    ensures FolioSum(folios[i := folios[i].(value := folios[i].value + amount)], catalog, m)
            == FolioSum(folios, catalog, m) + FundPart(MetaOf(catalog, folios[i].scheme), amount, m)
    decreases |folios|
  {
    var more := folios[i := folios[i].(value := folios[i].value + amount)];
    var n := |folios| - 1;
    if i == n {
      assert more[..n] == folios[..n];
      PartIsLinear(MetaOf(catalog, folios[i].scheme), folios[i].value, amount, m);
    } else {
      assert more[..n] == folios[..n][i := folios[i].(value := folios[i].value + amount)];
      TopUpIsNewFolio(folios[..n], i, amount, catalog, m);
    }
  }

  lemma PartIsLinear(meta: FundMeta, a: real, b: real, m: Measure)
    ensures FundPart(meta, a + b, m) == FundPart(meta, a, m) + FundPart(meta, b, m)
  {
    match m
    case Equity => assert (a + b) * meta.equityPct == a * meta.equityPct + b * meta.equityPct;
    case Debt => assert (a + b) * meta.debtPct == a * meta.debtPct + b * meta.debtPct;
    case Other => assert (a + b) * meta.otherPct == a * meta.otherPct + b * meta.otherPct;
    case In(v) =>
  }

  ghost predicate Near(a: real, b: real) {
    -0.01 <= a - b <= 0.01
  }

  ghost predicate ClassesNear(a: Amounts, b: Amounts) {
    Near(a.total, b.total) && Near(a.equity, b.equity) && Near(a.debt, b.debt) && Near(a.other, b.other)
  }

  ghost predicate AllNear(a: Amounts, b: Amounts) {
    && ClassesNear(a, b)
    && Near(a.stable, b.stable) && Near(a.low, b.low) && Near(a.medium, b.medium) && Near(a.high, b.high)
  }

  /** What the purchase adds to each exact amount. */
  lemma RawBought(p: Portfolio, catalog: Catalog, scheme: string, amount: real)
    requires Complete(MetaOf(catalog, scheme))
    ensures RawAmounts(Bought(p, scheme, amount), catalog)
            == AfterPurchase(RawAmounts(p, catalog), MetaOf(catalog, scheme), amount)
  {
    var fund := MetaOf(catalog, scheme);
    CompletePart(fund, amount);
    SumBought(p, catalog, scheme, amount, Equity);
    SumBought(p, catalog, scheme, amount, Debt);
    SumBought(p, catalog, scheme, amount, Other);
    SumBought(p, catalog, scheme, amount, In(Stable));
    SumBought(p, catalog, scheme, amount, In(Low));
    SumBought(p, catalog, scheme, amount, In(Medium));
    SumBought(p, catalog, scheme, amount, In(High));
  }

  ghost predicate NearSum(f: real -> real, x: real, y: real) {
    Near(f(f(x) + y), f(x + y))
  }

  lemma NearClassSums(f: real -> real, a: Amounts, b: Amounts)
    requires forall x: real, y: real :: NearSum(f, x, y)
    ensures ClassesNear(EachAmount(f, Plus(EachAmount(f, a), b)), EachAmount(f, Plus(a, b)))
  {
    assert NearSum(f, a.total, b.total) && NearSum(f, a.equity, b.equity);
    assert NearSum(f, a.debt, b.debt) && NearSum(f, a.other, b.other);
  }

  lemma NearSums(f: real -> real, a: Amounts, b: Amounts)
    requires forall x: real, y: real :: NearSum(f, x, y)
    ensures AllNear(EachAmount(f, Plus(EachAmount(f, a), b)), EachAmount(f, Plus(a, b)))
  {
    NearClassSums(f, a, b);
    assert NearSum(f, a.stable, b.stable) && NearSum(f, a.low, b.low);
    assert NearSum(f, a.medium, b.medium) && NearSum(f, a.high, b.high);
  }

  /** Adding to rounded amounts and rounding again costs at most a hundredth each. */
  lemma AddingAfterRounding(a: Amounts, b: Amounts)
    ensures AllNear(Rounded(Plus(Rounded(a), b)), Rounded(Plus(a, b)))
  {
    forall x: real, y: real ensures NearSum(Round2, x, y) {
      DoubleRounding(x, y);
    }
    NearSums(Round2, a, b);
  }

  /** The amounts that the simulation shows. */
  function SimulatedAmounts(p: Portfolio, catalog: Catalog, scheme: string, amount: real): Amounts {
    Rounded(AfterPurchase(Shown(p, catalog), PurchasedMeta(catalog, scheme), amount))
  }

  /**
   For a listed fund with a complete row, every amount of the simulation is within a
   hundredth of the amount that a recomputation with the new folio shows.
   */
  lemma SimulationIsNear(p: Portfolio, catalog: Catalog, scheme: string, amount: real)
    requires scheme in catalog && Complete(catalog[scheme])
    ensures AllNear(SimulatedAmounts(p, catalog, scheme, amount), Shown(Bought(p, scheme, amount), catalog))
  {
    RawBought(p, catalog, scheme, amount);
    AddingAfterRounding(RawAmounts(p, catalog), Purchase(catalog[scheme], amount));
  }

  /** Nothing is lost by rounding. */
  ghost predicate Exact(a: Amounts) {
    Rounded(a) == a
  }

  /**
   Where rounding is the identity before and after, the simulation of a listed, complete
   fund is the recomputation: amounts, buckets with their shares, level, and, for a
   positive new total, the class percentages too.
   */
  lemma SimulationIsRecomputation(p: Portfolio, catalog: Catalog, scheme: string, amount: real)
    requires scheme in catalog && Complete(catalog[scheme])
    requires Exact(RawAmounts(p, catalog)) && Exact(RawAmounts(Bought(p, scheme, amount), catalog))
    ensures var projected := Simulated(Shown(p, catalog), PurchasedMeta(catalog, scheme), amount);
            var again := AllocationOf(Bought(p, scheme, amount), catalog);
            && projected.(equityPct := None, debtPct := None, otherPct := None)
               == again.(equityPct := None, debtPct := None, otherPct := None)
            && (again.total > 0.0 ==> projected == again)
  {
    var fund := catalog[scheme];
    var a := AfterPurchase(Shown(p, catalog), fund, amount);
    var q := Bought(p, scheme, amount);
    RawBought(p, catalog, scheme, amount);
    assert a == RawAmounts(q, catalog);
    ReportsAgree(a, q, catalog);
    assert Simulated(Shown(p, catalog), fund, amount) == ReportOf(a);
  }

  lemma ReportsAgree(a: Amounts, q: Portfolio, catalog: Catalog)
    requires a == RawAmounts(q, catalog) && Exact(a)
    ensures ReportOf(a).(equityPct := None, debtPct := None, otherPct := None)
            == AllocationOf(q, catalog).(equityPct := None, debtPct := None, otherPct := None)
    ensures a.total > 0.0 ==> ReportOf(a) == AllocationOf(q, catalog)
  {
    assert Shown(q, catalog) == a;
  }

  /** The projection has the amount in the high bucket, the recomputation has it in the medium one. */
  ghost predicate HighForMedium(projected: Amounts, again: Amounts, amount: real) {
    && Near(projected.high - again.high, amount)
    && Near(again.medium - projected.medium, amount)
    && AllNear(projected.(high := 0.0, medium := 0.0), again.(high := 0.0, medium := 0.0))
  }

  /**
   A fund without a catalog row is simulated as high risk but recomputed as medium risk:
   the projected high bucket is too large, and the medium bucket too small, by the
   amount of the purchase, while everything else still agrees.
   */
  lemma UnlistedFundMovesBucket(p: Portfolio, catalog: Catalog, scheme: string, amount: real)
    requires scheme !in catalog
    ensures HighForMedium(SimulatedAmounts(p, catalog, scheme, amount), Shown(Bought(p, scheme, amount), catalog),
                          amount)
  {
    var a := RawAmounts(p, catalog);
    var x, y := Purchase(UNLISTED_PURCHASE, amount), Purchase(UNLISTED, amount);
    RawBought(p, catalog, scheme, amount);
    forall u: real, v: real ensures Gentle(Round2, u, v) {
      DoubleRounding(u, v);
      Round2Idempotent(u);
    }
    HighInsteadOfMedium(Round2, a, x, y, amount);
  }

  /** What the argument uses of the rounding: it is idempotent and moves nothing by more than a hundredth. */
  ghost predicate Gentle(f: real -> real, x: real, y: real) {
    NearSum(f, x, y) && Near(f(x + y) - f(x), y) && Near(f(f(x) + y) - f(x), y) && f(f(x)) == f(x)
  }

  lemma HighInsteadOfMedium(f: real -> real, a: Amounts, x: Amounts, y: Amounts, amount: real)
    requires forall u: real, v: real :: Gentle(f, u, v)
    requires x == y.(high := amount, medium := 0.0) && y.high == 0.0 && y.medium == amount
    ensures HighForMedium(EachAmount(f, Plus(EachAmount(f, a), x)), EachAmount(f, Plus(a, y)), amount)
  {
    assert Gentle(f, a.high, amount) && Gentle(f, a.medium, amount);
    assert Gentle(f, a.stable, x.stable) && Gentle(f, a.low, x.low);
    forall u: real, v: real ensures NearSum(f, u, v) {
      assert Gentle(f, u, v);
    }
    NearClassSums(f, a, x);
  }

  function PctSum(meta: FundMeta): real {
    meta.equityPct + meta.debtPct + meta.otherPct
  }

  /** The part of a purchase that the fund's percentages do not cover. */
  function Uncovered(meta: FundMeta, amount: real): real {
    amount - amount * PctSum(meta) / 100.0
  }

  ghost predicate WithinTwoHundredths(a: real, b: real) {
    -0.02 <= a - b <= 0.02
  }

  /**
   For every portfolio and every listed fund: the simulated total exceeds the recomputed
   one by the uncovered part of the purchase, up to 0.02.
   */
  lemma TotalsDifferByUncovered(p: Portfolio, catalog: Catalog, scheme: string, amount: real)
    requires scheme in catalog
    ensures WithinTwoHundredths(
              SimulatedAmounts(p, catalog, scheme, amount).total - Shown(Bought(p, scheme, amount), catalog).total,
              Uncovered(catalog[scheme], amount))
  {
    TotalWithPurchase(p, catalog, scheme, amount);
    RoundedGap(ClassSum(p, catalog), amount, ClassSum(Bought(p, scheme, amount), catalog),
               Uncovered(catalog[scheme], amount));
  }

  lemma TotalWithPurchase(p: Portfolio, catalog: Catalog, scheme: string, amount: real)
    requires scheme in catalog
    ensures ClassSum(Bought(p, scheme, amount), catalog)
            == ClassSum(p, catalog) + amount - Uncovered(catalog[scheme], amount)
  {
    var fund := catalog[scheme];
    ClassSumBought(p, catalog, scheme, amount);
    CoveredPart(amount, fund.equityPct, fund.debtPct, fund.otherPct);
  }

  lemma CoveredPart(x: real, a: real, b: real, c: real)
    ensures x * a / 100.0 + x * b / 100.0 + x * c / 100.0 == x * (a + b + c) / 100.0
  {
    assert x * a + x * b + x * c == x * (a + b + c);
  }

  lemma RoundedGap(total: real, amount: real, after: real, uncovered: real)
    requires after == total + amount - uncovered
    ensures WithinTwoHundredths(Round2(Round2(total) + amount) - Round2(after), uncovered)
  {
  }

  /** With a whole-cent total, the unrounded totals agree only for a zero amount or a complete row. */
  lemma TotalNeedsCompleteRow(p: Portfolio, catalog: Catalog, scheme: string, amount: real)
    requires scheme in catalog && Cents(ClassSum(p, catalog))
    ensures AfterPurchase(Shown(p, catalog), catalog[scheme], amount).total
            == ClassSum(Bought(p, scheme, amount), catalog)
            <==> amount == 0.0 || Complete(catalog[scheme])
  {
    var fund := catalog[scheme];
    Round2Fixed(ClassSum(p, catalog));
    ClassSumBought(p, catalog, scheme, amount);
  }

  lemma ClassSumBought(p: Portfolio, catalog: Catalog, scheme: string, amount: real)
    requires scheme in catalog
    ensures var fund := catalog[scheme];
            ClassSum(Bought(p, scheme, amount), catalog)
            == ClassSum(p, catalog)
               + (amount * fund.equityPct / 100.0 + amount * fund.debtPct / 100.0 + amount * fund.otherPct / 100.0)
  {
    SumBought(p, catalog, scheme, amount, Equity);
    SumBought(p, catalog, scheme, amount, Debt);
    SumBought(p, catalog, scheme, amount, Other);
  }
}
