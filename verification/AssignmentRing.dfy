/**
 Capacity-aware round robin over the active relationship managers: the pick itself,
 and what a long series of picks adds up to.
 */
module AssignmentRing {

  /** One active manager's place in the ring, in order of creation. */
  datatype Slot = Slot(rmId: int, maxPortfolios: int, clientCount: int)

  datatype Pick = Empty | Chosen(index: nat, overflow: bool)

  predicate HasCapacity(s: Slot) {
    s.clientCount < s.maxPortfolios
  }

  ghost predicate DistinctIds(ring: seq<Slot>) {
    forall i, j :: 0 <= i < j < |ring| ==> ring[i].rmId != ring[j].rmId
  }

  /** (start + off) mod |ring|, for offsets within one lap. */
  function Wrap(n: nat, start: nat, off: nat): (i: nat)
    requires start < n && off <= n
    ensures i < n
  {
    if start + off < n then start + off else start + off - n
  }

  lemma WrapIsModulo(n: nat, start: nat, off: nat)
    requires start < n && off <= n
    ensures Wrap(n, start, off) == (start + off) % n
  {
    if start + off >= n {
      OneLap(start + off - n, n);
    }
  }

  lemma OneLap(rest: nat, n: nat)
    requires rest < n
    ensures (n + rest) % n == rest
  {
    var x, q := n + rest, (n + rest) / n;
    assert x == q * n + x % n;
  }

  /** i is the first slot with afterId. */
  ghost predicate IsAfter(ring: seq<Slot>, afterId: int, i: nat) {
    i < |ring| && ring[i].rmId == afterId && forall k :: 0 <= k < i ==> ring[k].rmId != afterId
  }

  /** The lap starts just after the last assigned manager, or at the front. */
  ghost predicate IsStart(ring: seq<Slot>, afterId: int, start: nat) {
    && start < |ring|
    && if exists i: nat :: IsAfter(ring, afterId, i)
       then exists i: nat :: IsAfter(ring, afterId, i) && start == (i + 1) % |ring|
       else start == 0
  }

  /** The first slot with capacity on the lap, or the least loaded slot of a full desk. */
  ghost predicate IsPick(ring: seq<Slot>, start: nat, p: Pick)
    requires start < |ring|
  {
    && p.Chosen? && p.index < |ring|
    && if p.overflow then
         && (forall k :: 0 <= k < |ring| ==> ring[k].clientCount >= ring[k].maxPortfolios)
         && (forall k :: 0 <= k < |ring| ==> ring[p.index].clientCount <= ring[k].clientCount)
         && (forall k :: 0 <= k < p.index ==> ring[p.index].clientCount < ring[k].clientCount)
       else exists off :: FirstFree(ring, start, off) && p.index == (start + off) % |ring|
  }

  ghost predicate FirstFree(ring: seq<Slot>, start: nat, off: nat)
    requires start < |ring|
  {
    && off < |ring| && HasRoom(ring, start, off)
    && forall k :: 0 <= k < off ==> !HasRoom(ring, start, k)
  }

  /** The manager off places along the lap has fewer clients than they can take. */
  predicate HasRoom(ring: seq<Slot>, start: nat, off: nat)
    requires start < |ring|
  {
    var s := ring[(start + off) % |ring|];
    s.clientCount < s.maxPortfolios
  }

  // ---- the pick as a function -----------------------------------------------------

  function StartFrom(ring: seq<Slot>, afterId: int, i: nat): (start: nat)
    requires i <= |ring| && ring != []
    ensures start < |ring|
    decreases |ring| - i
  {
    if i == |ring| then 0
    else if ring[i].rmId == afterId then Wrap(|ring|, i, 1)
    else StartFrom(ring, afterId, i + 1)
  }

  function Start(ring: seq<Slot>, afterId: int): (start: nat)
    requires ring != []
    ensures start < |ring|
  {
    StartFrom(ring, afterId, 0)
  }

  /** The first free slot from offset off on, or |ring|. */
  function FreeFrom(ring: seq<Slot>, start: nat, off: nat): (o: nat)
    requires start < |ring| && off <= |ring|
    ensures o <= |ring|
    decreases |ring| - off
  {
    if off == |ring| || HasCapacity(ring[Wrap(|ring|, start, off)]) then off
    else FreeFrom(ring, start, off + 1)
  }

  /** The earliest least loaded among the first k slots. */
  function Least(ring: seq<Slot>, k: nat): (i: nat)
    requires 0 < k <= |ring|
    ensures i < k
  {
    if k == 1 then 0
    else if ring[k - 1].clientCount < ring[Least(ring, k - 1)].clientCount then k - 1
    else Least(ring, k - 1)
  }

  function PickIndex(ring: seq<Slot>, afterId: int): (p: Pick)
    ensures p.Chosen? ==> p.index < |ring|
    ensures p.Chosen? <==> ring != []
  {
    if ring == [] then Empty
    else
      var start := Start(ring, afterId);
      var off := FreeFrom(ring, start, 0);
      if off < |ring| then Chosen(Wrap(|ring|, start, off), false)
      else Chosen(Least(ring, |ring|), true)
  }

  /** The function as the loops compute it, and what that means for the manager who is picked. */
  method PickNextRM(ring: seq<Slot>, afterId: int) returns (chosen: int, overflow: bool, ok: bool)
    ensures ok <==> ring != []
    ensures ok ==> var p := PickIndex(ring, afterId); chosen == ring[p.index].rmId && overflow == p.overflow
    ensures ok ==> var start := Start(ring, afterId);
                   IsStart(ring, afterId, start) && IsPick(ring, start, PickIndex(ring, afterId))
    ensures ok ==> (overflow <==> forall k :: 0 <= k < |ring| ==> ring[k].clientCount >= ring[k].maxPortfolios)
    ensures ok && !overflow ==> var s := ring[PickIndex(ring, afterId).index]; s.clientCount < s.maxPortfolios
  {
    if |ring| == 0 {
      return 0, false, false;
    }
    PickIsRoundRobin(ring, afterId);
    var start := 0;
    var i := 0;
    while i < |ring|
      invariant 0 <= i <= |ring| && start == 0
      invariant Start(ring, afterId) == StartFrom(ring, afterId, i)
    {
      if ring[i].rmId == afterId {
        start := (i + 1) % |ring|;
        WrapIsModulo(|ring|, i, 1);
        break;
      }
      i := i + 1;
    }
    assert start == Start(ring, afterId);
    for off := 0 to |ring|
      invariant FreeFrom(ring, start, 0) == FreeFrom(ring, start, off)
    {
      WrapIsModulo(|ring|, start, off);
      var s := ring[(start + off) % |ring|];
      if HasCapacity(s) {
        return s.rmId, false, true;
      }
    }
    var least := ring[0];
    for k := 1 to |ring|
      invariant least == ring[Least(ring, k)]
    {
      if ring[k].clientCount < least.clientCount {
        least := ring[k];
      }
    }
    return least.rmId, true, true;
  }

  // ---- the pick is the documented one ------------------------------------------------

  lemma {:induction false} StartFromIsStart(ring: seq<Slot>, afterId: int, i: nat)
    requires i <= |ring| && ring != []
    requires forall k :: 0 <= k < i ==> ring[k].rmId != afterId
    ensures IsStart(ring, afterId, StartFrom(ring, afterId, i))
    decreases |ring| - i
  {
    if i < |ring| {
      if ring[i].rmId == afterId {
        assert IsAfter(ring, afterId, i);
        WrapIsModulo(|ring|, i, 1);
      } else {
        StartFromIsStart(ring, afterId, i + 1);
      }
    }
  }

  lemma {:induction false} FreeFromIsFirst(ring: seq<Slot>, start: nat, off: nat)
    requires start < |ring| && off <= |ring|
    requires forall k :: 0 <= k < off ==> !HasRoom(ring, start, k)
    ensures var o := FreeFrom(ring, start, off);
            if o < |ring| then FirstFree(ring, start, o)
            else forall k :: 0 <= k < |ring| ==> !HasRoom(ring, start, k)
    decreases |ring| - off
  {
    if off < |ring| {
      WrapIsModulo(|ring|, start, off);
      if !HasCapacity(ring[Wrap(|ring|, start, off)]) {
        FreeFromIsFirst(ring, start, off + 1);
      }
    }
  }

  lemma {:induction false} LeastIsLeast(ring: seq<Slot>, k: nat)
    requires 0 < k <= |ring|
    ensures var i := Least(ring, k);
            && (forall j :: 0 <= j < k ==> ring[i].clientCount <= ring[j].clientCount)
            && (forall j :: 0 <= j < i ==> ring[i].clientCount < ring[j].clientCount)
  {
    if k > 1 {
      LeastIsLeast(ring, k - 1);
    }
  }

  /** Position of slot j on the lap that starts at start. */
  function Offset(n: nat, start: nat, j: nat): (o: nat)
    requires start < n && j < n
    ensures o < n && Wrap(n, start, o) == j
  {
    if j >= start then j - start else j + n - start
  }

  /**
   A pick exists exactly for a non-empty ring. It is the first manager with capacity
   after the last one assigned; only when every manager is full is it the least loaded.
   */
  lemma PickIsRoundRobin(ring: seq<Slot>, afterId: int)
    requires ring != []
    ensures var start := Start(ring, afterId);
            IsStart(ring, afterId, start) && IsPick(ring, start, PickIndex(ring, afterId))
  {
    var start := Start(ring, afterId);
    var off := FreeFrom(ring, start, 0);
    StartFromIsStart(ring, afterId, 0);
    FreeFromIsFirst(ring, start, 0);
    LeastIsLeast(ring, |ring|);
    if off == |ring| {
      forall k | 0 <= k < |ring| ensures ring[k].clientCount >= ring[k].maxPortfolios {
        WrapIsModulo(|ring|, start, Offset(|ring|, start, k));
        assert !HasRoom(ring, start, Offset(|ring|, start, k));
      }
    } else {
      WrapIsModulo(|ring|, start, off);
    }
  }

  // ---- many picks -------------------------------------------------------------------------

  function Take(ring: seq<Slot>, i: nat): seq<Slot>
    requires i < |ring|
  {
    ring[i := ring[i].(clientCount := ring[i].clientCount + 1)]
  }

  /** The ring and the manager last assigned after m assignments. */
  function Serve(ring: seq<Slot>, afterId: int, m: nat): (r: (seq<Slot>, int))
    requires ring != []
    ensures |r.0| == |ring|
  {
    if m == 0 then (ring, afterId)
    else
      var (now, last) := Serve(ring, afterId, m - 1);
      var i := PickIndex(now, last).index;
      (Take(now, i), now[i].rmId)
  }

  /** How many more clients the managers can take together. */
  function FreePlaces(ring: seq<Slot>): nat {
    if ring == [] then 0
    else
      var s := ring[|ring| - 1];
      FreePlaces(ring[..|ring| - 1]) + if s.clientCount < s.maxPortfolios then s.maxPortfolios - s.clientCount else 0
  }

  lemma {:induction false} FreePlacesNone(ring: seq<Slot>)
    requires forall k :: 0 <= k < |ring| ==> ring[k].clientCount >= ring[k].maxPortfolios
    ensures FreePlaces(ring) == 0
    decreases |ring|
  {
    if ring != [] {
      FreePlacesNone(ring[..|ring| - 1]);
    }
  }

  lemma {:induction false} TakeFillsPlace(ring: seq<Slot>, i: nat)
    requires i < |ring| && ring[i].clientCount < ring[i].maxPortfolios
    ensures FreePlaces(Take(ring, i)) + 1 == FreePlaces(ring)
    decreases |ring|
  {
    var front := ring[..|ring| - 1];
    if i < |front| {
      TakeFillsPlace(front, i);
      assert Take(ring, i)[..|ring| - 1] == Take(front, i);
    } else {
      assert Take(ring, i)[..|ring| - 1] == front;
    }
  }

  /** Clients only arrive, and nobody is taken beyond what they can take. */
  ghost predicate WithinCapacity(ring: seq<Slot>, ring': seq<Slot>) {
    && |ring'| == |ring|
    && forall j :: 0 <= j < |ring| ==>
         && ring'[j].rmId == ring[j].rmId && ring'[j].maxPortfolios == ring[j].maxPortfolios
         && ring[j].clientCount <= ring'[j].clientCount
         && (ring'[j].clientCount > ring[j].clientCount ==> ring'[j].clientCount <= ring[j].maxPortfolios)
  }

  /** As long as there are free places, wherever they are, every pick fills one of them. */
  lemma {:induction false} PicksStayWithinCapacity(ring: seq<Slot>, afterId: int, m: nat)
    requires ring != [] && m <= FreePlaces(ring)
    ensures WithinCapacity(ring, Serve(ring, afterId, m).0)
    ensures FreePlaces(Serve(ring, afterId, m).0) == FreePlaces(ring) - m
    decreases m
  {
    if m > 0 {
      PicksStayWithinCapacity(ring, afterId, m - 1);
      var (now, last) := Serve(ring, afterId, m - 1);
      PickHasRoom(now, last);
      TakeFillsPlace(now, PickIndex(now, last).index);
    }
  }

  lemma PickHasRoom(ring: seq<Slot>, afterId: int)
    requires ring != [] && FreePlaces(ring) > 0
    ensures var s := ring[PickIndex(ring, afterId).index]; s.clientCount < s.maxPortfolios
  {
    PickIsRoundRobin(ring, afterId);
    if PickIndex(ring, afterId).overflow {
      FreePlacesNone(ring);
    }
  }

  function SlotAfter(ring: seq<Slot>, start: nat, q: nat, r: nat, j: nat): Slot
    requires start < |ring| && j < |ring|
  {
    ring[j].(clientCount := ring[j].clientCount + q + if Offset(|ring|, start, j) < r then 1 else 0)
  }

  /** The first k slots, with q more clients each, and one more for the first r on the lap. */
  function SpreadTo(ring: seq<Slot>, start: nat, q: nat, r: nat, k: nat): (s: seq<Slot>)
    requires start < |ring| && k <= |ring|
    ensures |s| == k
  {
    if k == 0 then [] else SpreadTo(ring, start, q, r, k - 1) + [SlotAfter(ring, start, q, r, k - 1)]
  }

  function Spread(ring: seq<Slot>, start: nat, q: nat, r: nat): (s: seq<Slot>)
    requires start < |ring|
    ensures |s| == |ring|
  {
    SpreadTo(ring, start, q, r, |ring|)
  }

  lemma {:induction false} SpreadToAt(ring: seq<Slot>, start: nat, q: nat, r: nat, k: nat)
    requires start < |ring| && k <= |ring|
    ensures forall j :: 0 <= j < k ==> SpreadTo(ring, start, q, r, k)[j] == SlotAfter(ring, start, q, r, j)
  {
    if k > 0 {
      SpreadToAt(ring, start, q, r, k - 1);
    }
  }

  lemma SpreadStep(ring: seq<Slot>, start: nat, q: nat, r: nat)
    requires start < |ring| && r < |ring|
    ensures Take(Spread(ring, start, q, r), Wrap(|ring|, start, r)) == Spread(ring, start, q, r + 1)
  {
    var n := |ring|;
    SpreadToAt(ring, start, q, r, n);
    SpreadToAt(ring, start, q, r + 1, n);
    forall j | 0 <= j < n ensures (Offset(n, start, j) < r + 1) == (Offset(n, start, j) < r || j == Wrap(n, start, r)) {
    }
  }

  /** A finished lap is one more client for everyone. */
  lemma {:induction false} SpreadRound(ring: seq<Slot>, start: nat, q: nat, k: nat)
    requires start < |ring| && k <= |ring|
    ensures SpreadTo(ring, start, q, |ring|, k) == SpreadTo(ring, start, q + 1, 0, k)
  {
    if k > 0 {
      SpreadRound(ring, start, q, k - 1);
    }
  }

  lemma SpreadNothing(ring: seq<Slot>, start: nat)
    requires start < |ring|
    ensures Spread(ring, start, 0, 0) == ring
  {
    SpreadToAt(ring, start, 0, 0, |ring|);
  }

  /** The pick just after slot i is slot i+1, when that one has capacity. */
  lemma NextInLine(ring: seq<Slot>, i: nat)
    requires i < |ring| && DistinctIds(ring) && HasCapacity(ring[Wrap(|ring|, i, 1)])
    ensures PickIndex(ring, ring[i].rmId) == Chosen(Wrap(|ring|, i, 1), false)
  {
    StartFromIsStart(ring, ring[i].rmId, 0);
    assert IsAfter(ring, ring[i].rmId, i);
    var start := Start(ring, ring[i].rmId);
    var first: nat :| IsAfter(ring, ring[i].rmId, first) && start == (first + 1) % |ring|;
    assert first == i;
    WrapIsModulo(|ring|, i, 1);
    assert start == Wrap(|ring|, i, 1);
    assert Wrap(|ring|, start, 0) == start;
  }

  /** Every manager can take its part of the spread. */
  ghost predicate Fits(ring: seq<Slot>, start: nat, q: nat, r: nat)
    requires start < |ring| && r <= |ring|
  {
    forall j :: 0 <= j < |ring| ==> SlotFits(ring, start, q, r, j)
  }

  predicate SlotFits(ring: seq<Slot>, start: nat, q: nat, r: nat, j: nat)
    requires start < |ring| && j < |ring|
  {
    SlotAfter(ring, start, q, r, j).clientCount <= ring[j].maxPortfolios
  }

  /** The manager last assigned after a spread. */
  function LastServed(ring: seq<Slot>, afterId: int, start: nat, q: nat, r: nat): int
    requires start < |ring| && r < |ring|
  {
    if r > 0 then ring[Wrap(|ring|, start, r - 1)].rmId
    else if q > 0 then ring[Wrap(|ring|, start, |ring| - 1)].rmId
    else afterId
  }

  /** q laps of n picks each. */
  function Laps(q: nat, n: nat): nat {
    if q == 0 then 0 else Laps(q - 1, n) + n
  }

  lemma {:induction false} LapsIsProduct(q: nat, n: nat)
    ensures Laps(q, n) == q * n
  {
    if q > 0 {
      LapsIsProduct(q - 1, n);
      assert (q - 1) * n + n == q * n;
    }
  }

  lemma DivisionInLaps(m: nat, n: nat)
    requires n > 0
    ensures m == Laps(m / n, n) + m % n && m % n < n
  {
    LapsIsProduct(m / n, n);
  }

  /** The desk and the last manager after a spread that started at start. */
  ghost predicate IsSpread(now: (seq<Slot>, int), ring: seq<Slot>, afterId: int, start: nat, q: nat, r: nat)
    requires start < |ring| && r < |ring|
  {
    now == (Spread(ring, start, q, r), LastServed(ring, afterId, start, q, r))
  }

  /** From the end of q laps, r more picks along the lap. */
  lemma {:induction false} SpreadAlongLap(ring: seq<Slot>, afterId: int, start: nat, m: nat, q: nat, r: nat)
    requires ring != [] && DistinctIds(ring) && start == Start(ring, afterId)
    requires r < |ring| && Fits(ring, start, q, r)
    requires IsSpread(Serve(ring, afterId, m), ring, afterId, start, q, 0)
    ensures IsSpread(Serve(ring, afterId, m + r), ring, afterId, start, q, r)
    decreases r
  {
    if r > 0 {
      FitsLess(ring, start, q, r, r - 1);
      assert SlotFits(ring, start, q, r, Wrap(|ring|, start, r - 1));
      SpreadAlongLap(ring, afterId, start, m, q, r - 1);
      ServeStep(ring, afterId, start, m + r - 1, q, r - 1);
    }
  }

  lemma {:induction false} SpreadAfterLaps(ring: seq<Slot>, afterId: int, start: nat, q: nat)
    requires ring != [] && DistinctIds(ring) && start == Start(ring, afterId) && Fits(ring, start, q, 0)
    ensures IsSpread(Serve(ring, afterId, Laps(q, |ring|)), ring, afterId, start, q, 0)
    decreases q
  {
    if q > 0 {
      var n, m := |ring|, Laps(q - 1, |ring|);
      FitsLap(ring, start, q);
      FitsLess(ring, start, q - 1, n, n - 1);
      FitsLess(ring, start, q - 1, n, 0);
      assert SlotFits(ring, start, q - 1, n, Wrap(n, start, n - 1));
      SpreadAfterLaps(ring, afterId, start, q - 1);
      SpreadAlongLap(ring, afterId, start, m, q - 1, n - 1);
      ServeStep(ring, afterId, start, m + n - 1, q - 1, n - 1);
    } else {
      SpreadNothing(ring, start);
    }
  }

  /** m picks spread over the whole desk: m / n clients each, and one more for the first m % n in line. */
  function SpreadOver(ring: seq<Slot>, after: int, m: nat): (s: seq<Slot>)
    requires ring != []
    ensures |s| == |ring|
  {
    Spread(ring, Start(ring, after), m / |ring|, m % |ring|)
  }

  /** Nobody's capacity is exceeded by such a spread. */
  ghost predicate RoomFor(ring: seq<Slot>, after: int, m: nat)
    requires ring != []
  {
    Fits(ring, Start(ring, after), m / |ring|, m % |ring|)
  }

  /** As long as there is room, m picks in a row end with the even spread. */
  lemma PicksSpreadEvenly(ring: seq<Slot>, afterId: int, m: nat)
    requires ring != [] && DistinctIds(ring) && RoomFor(ring, afterId, m)
    ensures Serve(ring, afterId, m).0 == SpreadOver(ring, afterId, m)
  {
    DivisionInLaps(m, |ring|);
    var start, q, r := Start(ring, afterId), m / |ring|, m % |ring|;
    FitsLess(ring, start, q, r, 0);
    SpreadAfterLaps(ring, afterId, start, q);
    SpreadAlongLap(ring, afterId, start, Laps(q, |ring|), q, r);
  }

  /** Written out: each manager gets m / n clients, and the first m % n along the lap one more. */
  lemma PicksSpreadAt(ring: seq<Slot>, afterId: int, m: nat, j: nat)
    requires ring != [] && DistinctIds(ring) && j < |ring|
    requires var n, start := |ring|, Start(ring, afterId);
             forall k :: 0 <= k < n ==>
               ring[k].clientCount + m / n + (if (k + n - start) % n < m % n then 1 else 0) <= ring[k].maxPortfolios
    ensures var n, start := |ring|, Start(ring, afterId);
            Serve(ring, afterId, m).0[j]
            == ring[j].(clientCount := ring[j].clientCount + m / n + if (j + n - start) % n < m % n then 1 else 0)
  {
    var n, start := |ring|, Start(ring, afterId);
    forall k | 0 <= k < n
      ensures SlotFits(ring, start, m / n, m % n, k) && Offset(n, start, k) == (k + n - start) % n
    {
      OffsetIsModulo(n, start, k);
      assert ring[k].clientCount + m / n + (if (k + n - start) % n < m % n then 1 else 0) <= ring[k].maxPortfolios;
    }
    PicksSpreadEvenly(ring, afterId, m);
    SpreadToAt(ring, start, m / n, m % n, n);
  }

  lemma OffsetIsModulo(n: nat, start: nat, j: nat)
    requires start < n && j < n
    ensures Offset(n, start, j) == (j + n - start) % n
  {
    if j >= start {
      OneLap(j - start, n);
    }
  }

  lemma FitsLess(ring: seq<Slot>, start: nat, q: nat, r: nat, r': nat)
    requires start < |ring| && r' <= r <= |ring| && Fits(ring, start, q, r)
    ensures Fits(ring, start, q, r')
  {
    forall j | 0 <= j < |ring| ensures SlotFits(ring, start, q, r', j) {
      assert SlotFits(ring, start, q, r, j);
    }
  }

  lemma FitsLap(ring: seq<Slot>, start: nat, q: nat)
    requires start < |ring| && q > 0 && Fits(ring, start, q, 0)
    ensures Fits(ring, start, q - 1, |ring|)
  {
    var lap, n := q - 1, |ring|;
    forall j | 0 <= j < n ensures SlotFits(ring, start, lap, n, j) {
      assert SlotFits(ring, start, q, 0, j);
    }
  }

  /** One more pick extends the spread by one, or starts the next lap. */
  lemma ServeStep(ring: seq<Slot>, afterId: int, start: nat, m: nat, q: nat, r: nat)
    requires ring != [] && DistinctIds(ring) && start == Start(ring, afterId) && r < |ring|
    requires HasCapacity(SlotAfter(ring, start, q, r, Wrap(|ring|, start, r)))
    requires IsSpread(Serve(ring, afterId, m), ring, afterId, start, q, r)
    ensures if r + 1 < |ring| then IsSpread(Serve(ring, afterId, m + 1), ring, afterId, start, q, r + 1)
            else IsSpread(Serve(ring, afterId, m + 1), ring, afterId, start, q + 1, 0)
  {
    NextPick(ring, afterId, q, r);
    SpreadToAt(ring, start, q, r, |ring|);
    SpreadStep(ring, start, q, r);
    SpreadRound(ring, start, q, |ring|);
  }

  /** After a spread of q rounds and r, the pick is the slot r places along the lap. */
  lemma NextPick(ring: seq<Slot>, afterId: int, q: nat, r: nat)
    requires ring != [] && DistinctIds(ring) && r < |ring|
    requires HasCapacity(SlotAfter(ring, Start(ring, afterId), q, r, Wrap(|ring|, Start(ring, afterId), r)))
    ensures var start := Start(ring, afterId);
            PickIndex(Spread(ring, start, q, r), LastServed(ring, afterId, start, q, r))
            == Chosen(Wrap(|ring|, start, r), false)
  {
    var n, start := |ring|, Start(ring, afterId);
    var now := Spread(ring, start, q, r);
    SpreadToAt(ring, start, q, r, n);
    if q == 0 && r == 0 {
      assert now == ring;
      assert Wrap(n, start, 0) == start;
    } else {
      var i := Wrap(n, start, if r == 0 then n - 1 else r - 1);
      assert Wrap(n, i, 1) == Wrap(n, start, r);
      assert DistinctIds(now) by {
        forall a, b | 0 <= a < b < n ensures now[a].rmId != now[b].rmId {
          assert ring[a].rmId != ring[b].rmId;
        }
      }
      NextInLine(now, i);
    }
  }
}
