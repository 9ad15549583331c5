/**
 Maximum drawdown and recovery, from daily wealth snapshots.

 The loop makes one pass, keeps a running peak, and compares each day's fall
 with a maximum that it has already rounded to two decimals.
 */
module Drawdown {
  import opened Rounding
  import opened Selections

  datatype Snapshot = Snapshot(day: int, wealth: real)

  datatype RiskStats = RiskStats(
    points: nat, maxDrawdownPct: real, recoveryDays: int, drawdownCurve: seq<real>, drawdownDates: seq<int>)

  ghost predicate Ascending(rows: seq<Snapshot>) {
    forall i, j :: 0 <= i < j < |rows| ==> rows[i].day <= rows[j].day
  }

  ghost predicate Positive(w: seq<real>) {
    forall i :: 0 <= i < |w| ==> w[i] > 0.0
  }

  /** The snapshots that survive the filter on non-positive wealth. */
  function Kept(rows: seq<Snapshot>): (kept: seq<Snapshot>)
    ensures forall i :: 0 <= i < |kept| ==> kept[i].wealth > 0.0
    ensures forall i :: 0 <= i < |kept| ==> kept[i] in rows
    ensures Ascending(rows) ==> Ascending(kept)
  {
    if rows == [] then []
    else
      var front := Kept(rows[..|rows| - 1]);
      var last := rows[|rows| - 1];
      if last.wealth <= 0.0 then front else front + [last]
  }

  /** The filter drops the snapshots of non-positive wealth, and nothing else. */
  lemma {:induction false} KeptIsFilter(rows: seq<Snapshot>)
    ensures Kept(rows) == Filter(rows, (r: Snapshot) => r.wealth > 0.0)
    decreases |rows|
  {
    if rows != [] {
      KeptIsFilter(rows[..|rows| - 1]);
    }
  }

  function Wealth(rows: seq<Snapshot>): (w: seq<real>)
    ensures |w| == |rows| && forall i :: 0 <= i < |w| ==> w[i] == rows[i].wealth
  {
    seq(|rows|, i requires 0 <= i < |rows| => rows[i].wealth)
  }

  function Days(rows: seq<Snapshot>): (d: seq<int>)
    ensures |d| == |rows| && forall i :: 0 <= i < |d| ==> d[i] == rows[i].day
  {
    seq(|rows|, i requires 0 <= i < |rows| => rows[i].day)
  }

  /** The highest wealth on or before day j. */
  function Peak(w: seq<real>, j: nat): (p: real)
    requires j < |w|
    ensures forall i :: 0 <= i <= j ==> w[i] <= p
    ensures exists i :: 0 <= i <= j && w[i] == p
  {
    if j == 0 then w[0]
    else if w[j] > Peak(w, j - 1) then w[j]
    else Peak(w, j - 1)
  }

  /** Fall, in percent, from day i to day j. */
  function Fall(w: seq<real>, i: nat, j: nat): real
    requires Positive(w) && i < |w| && j < |w|
  {
    100.0 * (w[j] / w[i] - 1.0)
  }

  /** Fall, in percent, from the running peak to day j, as the loop computes it. */
  function Depth(w: seq<real>, j: nat): real
    requires Positive(w) && j < |w|
  {
    (w[j] / Peak(w, j) - 1.0) * 100.0
  }

  /** m is the exact minimum of Fall over all pairs i <= j, days before n. */
  ghost predicate IsDeepestFall(w: seq<real>, n: nat, m: real)
    requires Positive(w) && n <= |w|
  {
    && (exists i, j :: 0 <= i <= j < n && Fall(w, i, j) == m)
    && (forall i, j :: 0 <= i <= j < n ==> m <= Fall(w, i, j))
  }

  /**
   The trough that the pass ends with, described without the pass: the last day
   strictly below the rounded maximum, or, when no day is, the first day that
   rounds to it.
   */
  ghost predicate IsReportedTrough(w: seq<real>, n: nat, m: real, t: nat)
    requires Positive(w) && t < n <= |w|
  {
    var r := Round2(m);
    && Round2(Depth(w, t)) == r
    && (Depth(w, t) < r ==> forall j :: t < j < n ==> r <= Depth(w, j))
    && (Depth(w, t) >= r ==>
          && (forall j :: 0 <= j < n ==> r <= Depth(w, j))
          && (forall j :: 0 <= j < t ==> r < Round2(Depth(w, j))))
  }

  /** r is the days from trough t to the first later day at or above t's peak, or -1. */
  ghost predicate IsRecovery(rows: seq<Snapshot>, t: nat, r: int)
    requires t < |rows|
  {
    var w := Wealth(rows);
    if forall k :: t < k < |w| ==> w[k] < Peak(w, t) then r == -1
    else exists k :: && t < k < |w| && w[k] >= Peak(w, t)
                     && (forall j :: t < j < k ==> w[j] < Peak(w, t))
                     && r == rows[k].day - rows[t].day
  }

  /** m is the least fall, in percent, from any earlier snapshot of positive wealth to a later one. */
  ghost predicate IsLeastFall(rows: seq<Snapshot>, m: real) {
    && (exists i, j :: FallsBetween(rows, i, j) && 100.0 * (rows[j].wealth / rows[i].wealth - 1.0) == m)
    && (forall i, j :: FallsBetween(rows, i, j) ==> m <= 100.0 * (rows[j].wealth / rows[i].wealth - 1.0))
  }

  predicate FallsBetween(rows: seq<Snapshot>, i: int, j: int) {
    0 <= i <= j < |rows| && rows[i].wealth > 0.0 && rows[j].wealth > 0.0
  }

  /** The least fall of the kept snapshots is the least fall of all snapshots of positive wealth. */
  lemma LeastFallOfKept(rows: seq<Snapshot>, m: real)
    requires IsDeepestFall(Wealth(Kept(rows)), |Kept(rows)|, m)
    ensures IsLeastFall(rows, m)
  {
    var w := Wealth(Kept(rows));
    KeptIsFilter(rows);
    var a, b :| 0 <= a <= b < |w| && Fall(w, a, b) == m;
    var i, j := KeptPlaces(rows, a, b);
    assert FallsBetween(rows, i, j);
    forall x, y | FallsBetween(rows, x, y) ensures m <= 100.0 * (rows[y].wealth / rows[x].wealth - 1.0) {
      var c, d := FilterOrder(rows, (r: Snapshot) => r.wealth > 0.0, x, y);
      assert m <= Fall(w, c, d);
    }
  }

  lemma KeptPlaces(rows: seq<Snapshot>, a: nat, b: nat) returns (i: nat, j: nat)
    requires a <= b < |Kept(rows)|
    ensures i <= j < |rows| && rows[i] == Kept(rows)[a] && rows[j] == Kept(rows)[b]
  {
    var places := Places(rows, (r: Snapshot) => r.wealth > 0.0);
    KeptIsFilter(rows);
    FilterSelects(rows, (r: Snapshot) => r.wealth > 0.0);
    i, j := places[a], places[b];
    assert a < b ==> i < j;
  }

  lemma QuotientAntitone(a: real, b: real, c: real)
    requires a > 0.0 && 0.0 < b <= c
    ensures a / c <= a / b
  {
    var q, p := a / c, a / b;
    assert q * b <= q * c == p * b;
    assert (p - q) * b >= 0.0;
  }

  /** The day's depth is the least fall into that day. */
  lemma DepthIsLeastFall(w: seq<real>, j: nat)
    requires Positive(w) && j < |w|
    ensures exists i :: 0 <= i <= j && Fall(w, i, j) == Depth(w, j)
    ensures forall i :: 0 <= i <= j ==> Depth(w, j) <= Fall(w, i, j)
  {
    var p := Peak(w, j);
    var top :| 0 <= top <= j && w[top] == p;
    assert Fall(w, top, j) == Depth(w, j);
    forall i | 0 <= i <= j ensures Depth(w, j) <= Fall(w, i, j) {
      QuotientAntitone(w[j], w[i], p);
    }
  }

  lemma ExtendDeepest(w: seq<real>, n: nat, m: real) returns (m': real)
    requires Positive(w) && 0 < n < |w| && IsDeepestFall(w, n, m)
    ensures m' == (if Depth(w, n) < m then Depth(w, n) else m)
    ensures IsDeepestFall(w, n + 1, m')
  {
    m' := if Depth(w, n) < m then Depth(w, n) else m;
    DepthIsLeastFall(w, n);
    if Depth(w, n) < m {
      var i :| 0 <= i <= n && Fall(w, i, n) == Depth(w, n);
    } else {
      var i, j :| 0 <= i <= j < n && Fall(w, i, j) == m;
    }
  }

  /** One comparison of the pass: comparing with the rounded maximum loses nothing. */
  lemma RoundedComparisonIsExact(m: real, d: real)
    ensures d < Round2(m) ==> Round2(d) == Round2(if d < m then d else m)
    ensures d >= Round2(m) ==> Round2(m) == Round2(if d < m then d else m)
  {
    Round2Idempotent(m);
    if d < m {
      Round2Monotone(d, m);
    } else {
      Round2Monotone(m, d);
    }
    if d < Round2(m) {
      Round2Monotone(d, Round2(m));
    } else {
      Round2Monotone(Round2(m), d);
    }
  }

  /** One step of the pass keeps the description of its trough. */
  lemma TroughStep(w: seq<real>, n: nat, m: real, m': real, t: nat)
    requires Positive(w) && t < n < |w|
    requires m' == (if Depth(w, n) < m then Depth(w, n) else m)
    requires forall j :: 0 <= j < n ==> m <= Depth(w, j)
    requires IsReportedTrough(w, n, m, t)
    ensures IsReportedTrough(w, n + 1, m', if Depth(w, n) < Round2(m) then n else t)
  {
    var d, r := Depth(w, n), Round2(m);
    RoundedComparisonIsExact(m, d);
    if d < r {
      var r' := Round2(d);
      assert r' == Round2(m');
      Round2Idempotent(m);
      Round2Monotone(d, r);
      if d >= r' {
        // the rounded maximum moved, so no earlier day had reached the new one
        assert r' < r;
        forall j | 0 <= j < n ensures r' < Round2(Depth(w, j)) && r' <= Depth(w, j) {
          Round2Monotone(m, Depth(w, j));
          Round2Idempotent(d);
          BelowRounds(Depth(w, j), r');
        }
      }
    }
  }

  lemma BelowRounds(x: real, r: real)
    requires Round2(r) == r && r < Round2(x)
    ensures r <= x
  {
    if x < r {
      Round2Monotone(x, r);
    }
  }

  /** The state of the pass after n >= 1 days: rounded maximum, trough, and exact minimum m. */
  ghost predicate PassState(w: seq<real>, n: nat, maxDd: real, t: nat, m: real)
    requires Positive(w) && n <= |w|
  {
    && t < n
    && maxDd == Round2(m)
    && IsDeepestFall(w, n, m)
    && IsReportedTrough(w, n, m, t)
  }

  lemma PassStart(w: seq<real>)
    requires Positive(w) && |w| > 0
    ensures PassState(w, 1, Round2(Depth(w, 0)), 0, Depth(w, 0))
  {
    assert Fall(w, 0, 0) == Depth(w, 0);
  }

  lemma PassStep(w: seq<real>, n: nat, maxDd: real, t: nat, m: real) returns (m': real)
    requires Positive(w) && n < |w| && PassState(w, n, maxDd, t, m)
    ensures Depth(w, n) < maxDd ==> PassState(w, n + 1, Round2(Depth(w, n)), n, m')
    ensures Depth(w, n) >= maxDd ==> PassState(w, n + 1, maxDd, t, m')
  {
    m' := ExtendDeepest(w, n, m);
    forall j | 0 <= j < n ensures m <= Depth(w, j) {
      DepthIsLeastFall(w, j);
    }
    RoundedComparisonIsExact(m, Depth(w, n));
    TroughStep(w, n, m, m', t);
  }

  /** The running peak of the loop, the fall from it, and its comparison with the maximum so far. */
  lemma DepthNow(w: seq<real>, n: nat, before: real, maxDd: real)
    requires Positive(w) && n < |w| && before == (if n == 0 then w[0] else Peak(w, n - 1))
    ensures var peak := if w[n] > before then w[n] else before;
            && peak == Peak(w, n) && peak > 0.0 && (w[n] / peak - 1.0) * 100.0 == Depth(w, n)
            && (w[n] / peak - 1.0 < maxDd / 100.0 <==> Depth(w, n) < maxDd)
  {
    assert Peak(w, n) >= w[n] > 0.0;
  }

  method KeepPositive(rows: seq<Snapshot>) returns (kept: seq<Snapshot>)
    ensures kept == Kept(rows)
  {
    kept := [];
    for i := 0 to |rows|
      invariant kept == Kept(rows[..i])
    {
      assert rows[..i + 1][..i] == rows[..i];
      if rows[i].wealth <= 0.0 {
        continue;
      }
      kept := kept + [rows[i]];
    }
    assert rows[..|rows|] == rows;
  }

  predicate IsCurve(w: seq<real>, n: nat, curve: seq<real>)
    requires Positive(w) && n <= |w|
  {
    |curve| == n && forall j :: 0 <= j < n ==> curve[j] == Round2(Depth(w, j))
  }

  lemma CurveGrows(w: seq<real>, n: nat, curve: seq<real>, pct: real)
    requires Positive(w) && n < |w| && IsCurve(w, n, curve) && pct == Depth(w, n)
    ensures IsCurve(w, n + 1, curve + [Round2(pct)])
  {
  }

  /** The variables of the loop before day n. */
  ghost predicate LoopState(w: seq<real>, n: nat, peak: real, maxDd: real, t: nat, peakAtTrough: real, m: real)
    requires Positive(w) && 0 < |w| && n <= |w|
  {
    && peak == (if n == 0 then w[0] else Peak(w, n - 1))
    && (n > 0 ==> PassState(w, n, maxDd, t, m) && peakAtTrough == Peak(w, t))
  }

  /** A day that is not below the rounded maximum leaves the trough, every other day is the new one. */
  lemma LoopRound(w: seq<real>, n: nat, before: real, maxDd: real, t: nat, peakAtTrough: real, m: real)
    returns (m': real)
    requires Positive(w) && n < |w| && LoopState(w, n, before, maxDd, t, peakAtTrough, m)
    ensures if n == 0 || Depth(w, n) < maxDd
            then LoopState(w, n + 1, Peak(w, n), Round2(Depth(w, n)), n, Peak(w, n), m')
            else LoopState(w, n + 1, Peak(w, n), maxDd, t, peakAtTrough, m')
  {
    if n == 0 {
      PassStart(w);
      m' := Depth(w, 0);
    } else {
      m' := PassStep(w, n, maxDd, t, m);
    }
  }

  /** The single pass over the drawdown curve. */
  method DrawdownPass(w: seq<real>)
    returns (maxDd: real, troughIdx: nat, peakAtTrough: real, curve: seq<real>, ghost m: real)
    requires Positive(w) && |w| > 0
    ensures PassState(w, |w|, maxDd, troughIdx, m)
    ensures peakAtTrough == Peak(w, troughIdx)
    ensures IsCurve(w, |w|, curve)
  {
    var peak := w[0];
    troughIdx, peakAtTrough, maxDd, curve, m := 0, w[0], 0.0, [], 0.0;
    for i := 0 to |w|
      invariant IsCurve(w, i, curve)
      invariant LoopState(w, i, peak, maxDd, troughIdx, peakAtTrough, m)
    {
      DepthNow(w, i, peak, maxDd);
      m := LoopRound(w, i, peak, maxDd, troughIdx, peakAtTrough, m);
      var v := w[i];
      if v > peak {
        peak := v;
      }
      var dd := v / peak - 1.0;
      CurveGrows(w, i, curve, dd * 100.0);
      curve := curve + [Round2(dd * 100.0)];
      if dd < maxDd / 100.0 || i == 0 {
        maxDd := Round2(dd * 100.0);
        troughIdx := i;
        peakAtTrough := peak;
      }
    }
  }

  method DaysToRecover(rows: seq<Snapshot>, troughIdx: nat, peakAtTrough: real) returns (days: int)
    requires troughIdx < |rows| && peakAtTrough == Peak(Wealth(rows), troughIdx)
    ensures IsRecovery(rows, troughIdx, days)
  {
    days := -1;
    ghost var w := Wealth(rows);
    for i := troughIdx + 1 to |rows|
      invariant forall j :: troughIdx < j < i ==> w[j] < peakAtTrough
    {
      if rows[i].wealth >= peakAtTrough {
        assert w[i] >= peakAtTrough;
        return rows[i].day - rows[troughIdx].day;
      }
    }
  }

  lemma CountKept(rows: seq<Snapshot>)
    ensures |Kept(rows)| == |set i: nat | i < |rows| && rows[i].wealth > 0.0|
  {
    KeptIsFilter(rows);
    FilterCount(rows, (r: Snapshot) => r.wealth > 0.0);
    assert Passing(rows, (r: Snapshot) => r.wealth > 0.0) == set i: nat | i < |rows| && rows[i].wealth > 0.0;
  }

  method ComputeRiskStats(rows: seq<Snapshot>) returns (rs: RiskStats)
    requires Ascending(rows)
    ensures rs.points == |set i: nat | i < |rows| && rows[i].wealth > 0.0|
    ensures rs.points >= 3 ==> exists m :: IsLeastFall(rows, m) && rs.maxDrawdownPct == Round2(m)
    ensures Kept(rows) == Filter(rows, (r: Snapshot) => r.wealth > 0.0) && rs.points == |Kept(rows)|
    ensures |Kept(rows)| < 3 ==>
              rs.maxDrawdownPct == 0.0 && rs.recoveryDays == -1 && rs.drawdownCurve == [] && rs.drawdownDates == []
    ensures |Kept(rows)| >= 3 ==> DrawdownReport(Kept(rows), rs)
  {
    var kept := KeepPositive(rows);
    KeptIsFilter(rows);
    CountKept(rows);
    rs := RiskStats(|kept|, 0.0, -1, [], []);
    if |kept| < 3 {
      return;
    }
    var w := Wealth(kept);
    var maxDd, troughIdx, peakAtTrough, curve, m := DrawdownPass(w);
    var recovery := DaysToRecover(kept, troughIdx, peakAtTrough);
    rs := RiskStats(|kept|, maxDd, recovery, curve, Days(kept));
    LeastFallOfKept(rows, m);
    assert ReportOf(kept, rs, m, troughIdx);
  }

  ghost predicate ReportOf(kept: seq<Snapshot>, rs: RiskStats, m: real, t: nat)
    requires forall i :: 0 <= i < |kept| ==> kept[i].wealth > 0.0
  {
    var w := Wealth(kept);
    && t < |kept|
    && PassState(w, |w|, rs.maxDrawdownPct, t, m)
    && IsRecovery(kept, t, rs.recoveryDays)
    && IsCurve(w, |w|, rs.drawdownCurve) && rs.drawdownDates == Days(kept)
  }

  /** What the report promises about the kept snapshots. */
  ghost predicate DrawdownReport(kept: seq<Snapshot>, rs: RiskStats)
    requires forall i :: 0 <= i < |kept| ==> kept[i].wealth > 0.0
  {
    exists m, t :: 0 <= t < |kept| && ReportOf(kept, rs, m, t)
  }

  /** Recovery reads -1 exactly when the trough's prior peak is never regained. */
  lemma RecoveryMinusOne(rows: seq<Snapshot>, t: nat, r: int)
    requires t < |rows| && Ascending(rows) && IsRecovery(rows, t, r)
    ensures r == -1 <==> forall k :: t < k < |rows| ==> rows[k].wealth < Peak(Wealth(rows), t)
    ensures r >= -1
  {
    var w := Wealth(rows);
    if !(forall k :: t < k < |w| ==> w[k] < Peak(w, t)) {
      var k :| && t < k < |w| && w[k] >= Peak(w, t)
               && (forall j :: t < j < k ==> w[j] < Peak(w, t))
               && r == rows[k].day - rows[t].day;
      assert rows[t].day <= rows[k].day;
    }
  }

  /** The report is a function of the snapshots: two reports on one list agree. */
  lemma ReportUnique(kept: seq<Snapshot>, a: RiskStats, b: RiskStats)
    requires forall i :: 0 <= i < |kept| ==> kept[i].wealth > 0.0
    requires a.points == b.points
    requires DrawdownReport(kept, a) && DrawdownReport(kept, b)
    ensures a == b
  {
    var m, t :| 0 <= t < |kept| && ReportOf(kept, a, m, t);
    var m', t' :| 0 <= t' < |kept| && ReportOf(kept, b, m', t');
    ReportsAgree(kept, a, m, t, b, m', t');
  }

  lemma ReportsAgree(
    kept: seq<Snapshot>, a: RiskStats, m: real, t: nat, b: RiskStats, m': real, t': nat)
    requires forall i :: 0 <= i < |kept| ==> kept[i].wealth > 0.0
    requires a.points == b.points && ReportOf(kept, a, m, t) && ReportOf(kept, b, m', t')
    ensures a == b
  {
    var w := Wealth(kept);
    PassUnique(w, a.maxDrawdownPct, t, m, b.maxDrawdownPct, t', m');
    RecoveryUnique(kept, t, a.recoveryDays, b.recoveryDays);
    CurvesAgree(w, a.drawdownCurve, b.drawdownCurve);
  }

  lemma CurvesAgree(w: seq<real>, c: seq<real>, c': seq<real>)
    requires Positive(w) && IsCurve(w, |w|, c) && IsCurve(w, |w|, c')
    ensures c == c'
  {
  }

  lemma PassUnique(w: seq<real>, x: real, t: nat, m: real, x': real, t': nat, m': real)
    requires Positive(w) && PassState(w, |w|, x, t, m) && PassState(w, |w|, x', t', m')
    ensures x == x' && t == t' && m == m'
  {
    TroughUnique(w, m, t, t');
  }

  lemma TroughUnique(w: seq<real>, m: real, t: nat, t': nat)
    requires Positive(w) && t < |w| && t' < |w|
    requires IsReportedTrough(w, |w|, m, t) && IsReportedTrough(w, |w|, m, t')
    ensures t == t'
  {
  }

  lemma RecoveryUnique(rows: seq<Snapshot>, t: nat, r: int, r': int)
    requires t < |rows| && IsRecovery(rows, t, r) && IsRecovery(rows, t, r')
    ensures r == r'
  {
    var w := Wealth(rows);
    if !(forall k :: t < k < |w| ==> w[k] < Peak(w, t)) {
      var k :| && t < k < |w| && w[k] >= Peak(w, t)
               && (forall j :: t < j < k ==> w[j] < Peak(w, t))
               && r == rows[k].day - rows[t].day;
      var k' :| && t < k' < |w| && w[k'] >= Peak(w, t)
                && (forall j :: t < j < k' ==> w[j] < Peak(w, t))
                && r' == rows[k'].day - rows[t].day;
      assert k == k';
    }
  }

  /** Each day's fall from the running peak. */
  function Depths(w: seq<real>): (d: seq<real>)
    requires Positive(w)
    ensures |d| == |w| && forall j :: 0 <= j < |w| ==> d[j] == Depth(w, j)
  {
    seq(|w|, j requires 0 <= j < |w| => Depth(w, j))
  }

  /** The first and the last day at depth m. */
  predicate FirstAndLast(d: seq<real>, m: real, first: nat, last: nat) {
    && first <= last < |d| && d[first] == m && d[last] == m
    && (forall j :: 0 <= j < first ==> d[j] != m)
    && (forall j :: last < j < |d| ==> d[j] != m)
  }

  /** m is the least depth, and some day has it. */
  lemma DeepestIsLeastDepth(w: seq<real>, m: real)
    requires Positive(w) && IsDeepestFall(w, |w|, m)
    ensures m in Depths(w) && forall j :: 0 <= j < |w| ==> m <= Depths(w)[j]
  {
    forall j | 0 <= j < |w| ensures m <= Depths(w)[j] {
      DepthIsLeastFall(w, j);
    }
    var i, j :| 0 <= i <= j < |w| && Fall(w, i, j) == m;
    DepthIsLeastFall(w, j);
    assert Depths(w)[j] == m;
  }

  lemma {:induction false} FirstAndLastExist(d: seq<real>, m: real)
    requires m in d
    ensures exists first: nat, last: nat :: FirstAndLast(d, m, first, last)
    decreases |d|
  {
    var front, n := d[..|d| - 1], |d| - 1;
    assert d == front + [d[n]];
    if m in front {
      FirstAndLastExist(front, m);
      var first: nat, last: nat :| FirstAndLast(front, m, first, last);
      assert FirstAndLast(d, m, first, if d[n] == m then n else last);
    } else {
      assert FirstAndLast(d, m, n, n);
    }
  }

  /** The description of the trough on given depths d, their roundings c, and the rounded minimum r. */
  predicate IsTroughOf(d: seq<real>, c: seq<real>, r: real, t: nat)
    requires |c| == |d|
  {
    && t < |d| && c[t] == r
    && (d[t] < r ==> forall j :: t < j < |d| ==> r <= d[j])
    && (d[t] >= r ==> forall j :: 0 <= j < |d| ==> r <= d[j] && (j < t ==> r < c[j]))
  }

  lemma TroughOfDepths(d: seq<real>, c: seq<real>, m: real, r: real, t: nat, first: nat, last: nat)
    requires |c| == |d| && IsTroughOf(d, c, r, t) && FirstAndLast(d, m, first, last)
    requires forall j :: 0 <= j < |d| ==> m <= d[j] && (d[j] == m ==> c[j] == r)
    ensures d[t] == m
       <==> if m < r then forall j :: last < j < |d| ==> r <= d[j]
            else forall j :: 0 <= j < first ==> r < c[j]
  {
    if m < r {
      assert d[last] < r;
    } else {
      assert d[t] >= r && c[first] == r;
    }
  }

  /**
   When the reported trough is a deepest day. If rounding raised the minimum, exactly when
   no day after the last deepest one is below the rounded minimum; if it did not, exactly
   when no day before the first deepest one rounds to it.
   */
  lemma TroughIsDeepestExactly(w: seq<real>, m: real, t: nat, first: nat, last: nat)
    requires Positive(w) && t < |w| && IsDeepestFall(w, |w|, m) && IsReportedTrough(w, |w|, m, t)
    requires FirstAndLast(Depths(w), m, first, last)
    ensures Depth(w, t) == m
       <==> if m < Round2(m) then forall j :: last < j < |w| ==> Round2(m) <= Depth(w, j)
            else forall j :: 0 <= j < first ==> Round2(m) < Round2(Depth(w, j))
  {
    var d := Depths(w);
    var c := seq(|w|, j requires 0 <= j < |w| => Round2(d[j]));
    DeepestIsLeastDepth(w, m);
    TroughOfDepths(d, c, m, Round2(m), t, first, last);
  }

  /** In any case the trough is at most a hundredth of a percent off. */
  lemma TroughIsNearlyDeepest(w: seq<real>, m: real, t: nat)
    requires Positive(w) && t < |w| && IsDeepestFall(w, |w|, m) && IsReportedTrough(w, |w|, m, t)
    ensures m <= Depth(w, t) <= m + 0.01
  {
    DepthIsLeastFall(w, t);
  }

  /**
   The reported trough need not be the deepest day: here day 1 falls 5.004 percent
   and day 2 only 5.002, yet day 2 is the trough, because both are below the
   rounded -5.00. The reported recovery is then one day instead of two.
   */
  lemma TroughNotAlwaysDeepest()
    ensures var rows := [Snapshot(0, 100000.0), Snapshot(1, 94996.0), Snapshot(2, 94998.0), Snapshot(3, 100000.0)];
            var w := Wealth(rows);
            && IsDeepestFall(w, 4, Depth(w, 1))
            && Depth(w, 1) < Depth(w, 2)
            && IsReportedTrough(w, 4, Depth(w, 1), 2)
            && IsRecovery(rows, 2, 1) && IsRecovery(rows, 1, 2)
  {
    var rows := [Snapshot(0, 100000.0), Snapshot(1, 94996.0), Snapshot(2, 94998.0), Snapshot(3, 100000.0)];
    var w := Wealth(rows);
    assert w == [100000.0, 94996.0, 94998.0, 100000.0];
    ExampleDepths(w);
    RoundUnique(-500.4, -500);
    RoundUnique(-500.2, -500);
    assert Round2(-5.004) == -5.0 && Round2(-5.002) == -5.0;
    DeepestFallFromDepths(w, 1);
  }

  lemma ExampleDepths(w: seq<real>)
    requires w == [100000.0, 94996.0, 94998.0, 100000.0]
    ensures Peak(w, 0) == Peak(w, 1) == Peak(w, 2) == Peak(w, 3) == 100000.0
    ensures Depth(w, 0) == 0.0 && Depth(w, 1) == -5.004 && Depth(w, 2) == -5.002 && Depth(w, 3) == 0.0
  {
  }

  lemma DeepestFallFromDepths(w: seq<real>, k: nat)
    requires Positive(w) && k < |w| && forall j :: 0 <= j < |w| ==> Depth(w, k) <= Depth(w, j)
    ensures IsDeepestFall(w, |w|, Depth(w, k))
  {
    DepthIsLeastFall(w, k);
    forall i, j | 0 <= i <= j < |w| ensures Depth(w, k) <= Fall(w, i, j) {
      DepthIsLeastFall(w, j);
    }
  }
}
