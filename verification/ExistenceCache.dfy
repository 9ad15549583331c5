/**
 The short-lived cache of "this account still exists" under interleaved requests. Each
 call reads the clock once, before it takes the lock; a miss looks the account up without
 the lock, then writes its answer and may sweep expired entries.
 */
module ExistenceCache {
  import opened Options

  /** Nanoseconds. */
  const TTL := 90_000_000_000
  const MAX_ENTRIES := 10_000

  /** The code takes every error for an account that is gone. */
  datatype Outcome = Found | Missing | Failed

  /** source names the call that made the lookup; the code does not keep it. */
  datatype Entry = Entry(known: bool, expiresAt: int, source: nat)

  type Entries = map<int, Entry>

  datatype Lookup = Lookup(user: int, begunAt: int, outcome: Outcome)

  datatype Answer = Answer(known: bool, source: nat)

  datatype Phase =
    | Started | Missed | Looking(begunAt: int) | Looked(begunAt: int, outcome: Outcome) | Answered(answer: Answer)

  datatype Call = Call(user: int, readAt: int, phase: Phase)

  /** lookups keeps every finished lookup by call; sweptAt is the latest clock reading of a sweep so far. */
  datatype State = State(
    clock: int, entries: Entries, calls: map<nat, Call>, lookups: map<nat, Lookup>, sweptAt: Option<int>)

  datatype Step =
    | Tick(to: int)
    | Start(call: nat, user: int)
    | Check(call: nat)
    | BeginLookup(call: nat)
    | EndLookup(call: nat, outcome: Outcome)
    | Store(call: nat)

  const INITIAL := State(0, map[], map[], map[], None)

  // ---- the code's two critical sections ---------------------------------------------

  /** A hit is an entry whose expiry lies after the caller's clock reading. */
  function Hit(entries: Entries, user: int, readAt: int): Option<Entry> {
    if user in entries && readAt < entries[user].expiresAt then Some(entries[user]) else None
  }

  function Swept(entries: Entries, readAt: int): Entries {
    map u | u in entries && !(readAt > entries[u].expiresAt) :: entries[u]
  }

  function Written(entries: Entries, call: nat, c: Call, outcome: Outcome): Entries {
    entries[c.user := Entry(outcome == Found, c.readAt + TTL, call)]
  }

  predicate NeedsSweep(entries: Entries) {
    |entries| > MAX_ENTRIES
  }

  // ---- the steps ------------------------------------------------------------------------

  predicate In(s: State, call: nat, phase: Phase) {
    call in s.calls && s.calls[call].phase == phase
  }

  function SetPhase(s: State, call: nat, phase: Phase): State
    requires call in s.calls
  {
    s.(calls := s.calls[call := s.calls[call].(phase := phase)])
  }

  function StepTick(s: State, to: int): Option<State> {
    if to < s.clock then None else Some(s.(clock := to))
  }

  function StepStart(s: State, call: nat, user: int): Option<State> {
    if call in s.calls then None else Some(s.(calls := s.calls[call := Call(user, s.clock, Started)]))
  }

  function StepCheck(s: State, call: nat): Option<State> {
    if !In(s, call, Started) then None
    else
      match Hit(s.entries, s.calls[call].user, s.calls[call].readAt)
      case None => Some(SetPhase(s, call, Missed))
      case Some(e) => Some(SetPhase(s, call, Answered(Answer(e.known, e.source))))
  }

  function StepBegin(s: State, call: nat): Option<State> {
    if !In(s, call, Missed) then None else Some(SetPhase(s, call, Looking(s.clock)))
  }

  function StepEnd(s: State, call: nat, outcome: Outcome): Option<State> {
    if call !in s.calls || !s.calls[call].phase.Looking? then None
    else
      var c := s.calls[call];
      Some(SetPhase(s, call, Looked(c.phase.begunAt, outcome)).(
        lookups := s.lookups[call := Lookup(c.user, c.phase.begunAt, outcome)]))
  }

  function Later(a: Option<int>, b: int): Option<int> {
    if a == None || a.value < b then Some(b) else a
  }

  /** sweeping says whether the code has its eviction. */
  function StepStore(s: State, call: nat, sweeping: bool): Option<State> {
    if call !in s.calls || !s.calls[call].phase.Looked? then None
    else
      var c := s.calls[call];
      var written := Written(s.entries, call, c, c.phase.outcome);
      var answered := SetPhase(s, call, Answered(Answer(c.phase.outcome == Found, call)));
      if sweeping && NeedsSweep(written)
      then Some(answered.(entries := Swept(written, c.readAt), sweptAt := Later(s.sweptAt, c.readAt)))
      else Some(answered.(entries := written))
  }

  function Next(s: State, step: Step, sweeping: bool): Option<State> {
    match step
    case Tick(to) => StepTick(s, to)
    case Start(call, user) => StepStart(s, call, user)
    case Check(call) => StepCheck(s, call)
    case BeginLookup(call) => StepBegin(s, call)
    case EndLookup(call, outcome) => StepEnd(s, call, outcome)
    case Store(call) => StepStore(s, call, sweeping)
  }

  function Run(steps: seq<Step>, sweeping: bool): Option<State> {
    if steps == [] then Some(INITIAL)
    else
      match Run(steps[..|steps| - 1], sweeping)
      case None => None
      case Some(s) => Next(s, steps[|steps| - 1], sweeping)
  }

  // ---- every answer comes from a recent lookup ------------------------------------------------

  ghost predicate EntryOk(s: State, u: int)
    requires u in s.entries
  {
    var e := s.entries[u];
    && e.source in s.lookups
    && s.lookups[e.source].user == u
    && e.known == (s.lookups[e.source].outcome == Found)
    && e.expiresAt <= s.lookups[e.source].begunAt + TTL
  }

  /** Call k's answer is the outcome of its own lookup, or of one begun less than the TTL before its clock reading. */
  ghost predicate AnswerOk(s: State, k: nat)
    requires k in s.calls && s.calls[k].phase.Answered?
  {
    var a := s.calls[k].phase.answer;
    && a.source in s.lookups
    && s.lookups[a.source].user == s.calls[k].user
    && a.known == (s.lookups[a.source].outcome == Found)
    && (a.source == k || s.calls[k].readAt < s.lookups[a.source].begunAt + 90_000_000_000)
  }

  ghost predicate CallOk(s: State, k: nat)
    requires k in s.calls
  {
    var c := s.calls[k];
    && c.readAt <= s.clock
    && (c.phase.Looking? ==> c.readAt <= c.phase.begunAt)
    && (c.phase.Looked? ==> c.readAt <= c.phase.begunAt && k in s.lookups
                            && s.lookups[k] == Lookup(c.user, c.phase.begunAt, c.phase.outcome))
    && (k in s.lookups ==> c.phase.Looked? || c.phase.Answered?)
    && (c.phase.Answered? ==> AnswerOk(s, k))
  }

  ghost predicate Inv(s: State) {
    && (forall u :: u in s.entries ==> EntryOk(s, u))
    && (forall k :: k in s.calls ==> CallOk(s, k))
    && (forall k :: k in s.lookups ==> k in s.calls)
  }

  lemma CheckKeeps(s: State, call: nat)
    requires Inv(s) && StepCheck(s, call) != None
    ensures Inv(StepCheck(s, call).value)
  {
    var s' := StepCheck(s, call).value;
    forall u | u in s'.entries ensures EntryOk(s', u) {
      assert EntryOk(s, u);
    }
    forall k | k in s'.calls ensures CallOk(s', k) {
      assert CallOk(s, k);
    }
  }

  lemma EndKeeps(s: State, call: nat, outcome: Outcome)
    requires Inv(s) && StepEnd(s, call, outcome) != None
    ensures Inv(StepEnd(s, call, outcome).value)
  {
    var s' := StepEnd(s, call, outcome).value;
    assert CallOk(s, call);
    assert call !in s.lookups;
    forall u | u in s'.entries ensures EntryOk(s', u) {
      assert EntryOk(s, u);
    }
    forall k | k in s'.calls ensures CallOk(s', k) {
      assert CallOk(s, k);
    }
  }

  lemma StoreKeeps(s: State, call: nat, sweeping: bool)
    requires Inv(s) && StepStore(s, call, sweeping) != None
    ensures Inv(StepStore(s, call, sweeping).value)
  {
    var s' := StepStore(s, call, sweeping).value;
    assert CallOk(s, call);
    forall u | u in s'.entries ensures EntryOk(s', u) {
      if u != s.calls[call].user {
        assert EntryOk(s, u);
      }
    }
    forall k | k in s'.calls ensures CallOk(s', k) {
      assert CallOk(s, k);
    }
  }

  lemma StepKeepsInv(s: State, step: Step, sweeping: bool)
    requires Inv(s) && Next(s, step, sweeping) != None
    ensures Inv(Next(s, step, sweeping).value)
  {
    match step
    case Check(call) => CheckKeeps(s, call);
    case EndLookup(call, outcome) => EndKeeps(s, call, outcome);
    case Store(call) => StoreKeeps(s, call, sweeping);
    case _ =>
      var s' := Next(s, step, sweeping).value;
      forall u | u in s'.entries ensures EntryOk(s', u) {
        assert EntryOk(s, u);
      }
      forall k | k in s'.calls ensures CallOk(s', k) {
        if k in s.calls {
          assert CallOk(s, k);
        }
      }
  }

  lemma {:induction false} RunKeepsInv(steps: seq<Step>, sweeping: bool)
    requires Run(steps, sweeping) != None
    ensures Inv(Run(steps, sweeping).value)
    decreases |steps|
  {
    if steps != [] {
      RunKeepsInv(steps[..|steps| - 1], sweeping);
      StepKeepsInv(Run(steps[..|steps| - 1], sweeping).value, steps[|steps| - 1], sweeping);
    }
  }

  /**
   In every interleaving, every answer is the outcome of a lookup for the same user: the
   call's own, or one that began less than 90 seconds before the call read the clock.
   */
  lemma AnswersAreRecentLookups(steps: seq<Step>, sweeping: bool, k: nat)
    requires Run(steps, sweeping) != None
    requires k in Run(steps, sweeping).value.calls && Run(steps, sweeping).value.calls[k].phase.Answered?
    ensures AnswerOk(Run(steps, sweeping).value, k)
  {
    RunKeepsInv(steps, sweeping);
    assert CallOk(Run(steps, sweeping).value, k);
  }

  /**
   What a stored lookup is to others, in every reachable state: another call for that user
   that read the clock less than 90 seconds after the storing call did is answered with the
   lookup's outcome, and any other call looks the account up itself.
   */
  lemma StoredLookupIsServed(steps: seq<Step>, sweeping: bool, call: nat, other: nat)
    requires Run(steps, sweeping) != None
    requires var s := Run(steps, sweeping).value;
             && call in s.calls && s.calls[call].phase.Looked?
             && In(s, other, Started) && s.calls[other].user == s.calls[call].user
    ensures var s := Run(steps, sweeping).value;
            var s' := StepStore(s, call, sweeping).value;
            && In(s', call, Answered(Answer(s.calls[call].phase.outcome == Found, call)))
            && other in s'.calls && StepCheck(s', other) != None
            && StepCheck(s', other).value.calls[other].phase
               == if s.calls[other].readAt < s.calls[call].readAt + 90_000_000_000
                  then Answered(Answer(s.calls[call].phase.outcome == Found, call)) else Missed
  {
  }

  /** A check finds exactly the entry that has not expired at the call's clock reading, and changes nothing else. */
  lemma CheckExactly(steps: seq<Step>, sweeping: bool, call: nat)
    requires Run(steps, sweeping) != None && StepCheck(Run(steps, sweeping).value, call) != None
    ensures var s, s' := Run(steps, sweeping).value, StepCheck(Run(steps, sweeping).value, call).value;
            var c := s.calls[call];
            && s' == s.(calls := s'.calls) && s'.calls == s.calls[call := s'.calls[call]]
            && s'.calls[call]
               == if c.user in s.entries && c.readAt < s.entries[c.user].expiresAt
                  then Call(c.user, c.readAt, Answered(Answer(s.entries[c.user].known, s.entries[c.user].source)))
                  else Call(c.user, c.readAt, Missed)
  {
  }

  /** A store writes the call's entry, for 90 seconds from its clock reading, and sweeps beyond 10,000 entries. */
  lemma StoreExactly(s: State, call: nat)
    requires StepStore(s, call, true) != None
    ensures var s', c := StepStore(s, call, true).value, s.calls[call];
            var known := c.phase.outcome == Found;
            var written := s.entries[c.user := Entry(known, c.readAt + 90_000_000_000, call)];
            && In(s', call, Answered(Answer(known, call)))
            && (|written| <= 10_000 ==> s'.entries == written)
            && (|written| > 10_000 ==>
                  && (forall u :: u in s'.entries <==> u in written && c.readAt <= written[u].expiresAt)
                  && (forall u :: u in s'.entries ==> s'.entries[u] == written[u]))
  {
  }

  /**
   A lookup that fails for any reason is served as "no such account" to every other call
   for that user that read the clock less than 90 seconds after the failed call did, without
   a lookup of its own; any other call looks the account up itself.
   */
  lemma FailedLookupIsServed(steps: seq<Step>, sweeping: bool, call: nat, other: nat)
    requires Run(steps, sweeping) != None
    requires var s := Run(steps, sweeping).value;
             && call in s.calls && s.calls[call].phase.Looked? && s.calls[call].phase.outcome == Failed
             && In(s, other, Started) && s.calls[other].user == s.calls[call].user
    ensures var s := Run(steps, sweeping).value;
            var s' := StepStore(s, call, sweeping).value;
            && other in s'.calls && StepCheck(s', other) != None
            && StepCheck(s', other).value.calls[other].phase
               == if s.calls[other].readAt < s.calls[call].readAt + 90_000_000_000
                  then Answered(Answer(false, call)) else Missed
  {
    var s := Run(steps, sweeping).value;
    var c := s.calls[call];
    var written := Written(s.entries, call, c, Failed);
    assert c.user in Swept(written, c.readAt) && Swept(written, c.readAt)[c.user] == Entry(false, c.readAt + TTL, call);
  }

  /** The state after some steps from a given one. */
  function RunFrom(s: Option<State>, steps: seq<Step>, sweeping: bool): Option<State>
    decreases |steps|
  {
    if steps == [] || s == None then s else RunFrom(Next(s.value, steps[0], sweeping), steps[1..], sweeping)
  }

  lemma {:induction false} RunOneMore(s: Option<State>, steps: seq<Step>, step: Step, sweeping: bool)
    ensures var t := RunFrom(s, steps, sweeping);
            RunFrom(s, steps + [step], sweeping) == if t == None then None else Next(t.value, step, sweeping)
    decreases |steps|
  {
    if steps != [] && s != None {
      assert (steps + [step])[1..] == steps[1..] + [step];
      RunOneMore(Next(s.value, steps[0], sweeping), steps[1..], step, sweeping);
    }
  }

  lemma {:induction false} RunInTwo(first: seq<Step>, second: seq<Step>, sweeping: bool)
    ensures Run(first + second, sweeping) == RunFrom(Run(first, sweeping), second, sweeping)
    decreases |second|
  {
    if second == [] {
      assert first + second == first;
    } else {
      var front, last := second[..|second| - 1], second[|second| - 1];
      RunInTwo(first, front, sweeping);
      RunOneMore(Run(first, sweeping), front, last, sweeping);
      assert (first + second)[..|first + second| - 1] == first + front;
      assert second == front + [last];
    }
  }

  /** One call from start to end on a miss. */
  function WholeCall(call: nat, user: int, outcome: Outcome): seq<Step> {
    [Start(call, user), Check(call), BeginLookup(call), EndLookup(call, outcome), Store(call)]
  }

  /** The state just before its store. */
  function BeforeStore(s: State, call: nat, user: int, outcome: Outcome): State {
    s.(calls := s.calls[call := Call(user, s.clock, Looked(s.clock, outcome))],
       lookups := s.lookups[call := Lookup(user, s.clock, outcome)])
  }

  lemma {:induction false} RunFromInTwo(s: Option<State>, first: seq<Step>, second: seq<Step>, sweeping: bool)
    ensures RunFrom(s, first + second, sweeping) == RunFrom(RunFrom(s, first, sweeping), second, sweeping)
    decreases |first|
  {
    if first == [] {
      assert first + second == second;
    } else if s != None {
      assert (first + second)[1..] == first[1..] + second;
      RunFromInTwo(Next(s.value, first[0], sweeping), first[1..], second, sweeping);
    }
  }

  /** A call up to its lookup, on a miss. */
  lemma CallMisses(s: State, call: nat, user: int, sweeping: bool)
    requires call !in s.calls && Hit(s.entries, user, s.clock) == None
    ensures RunFrom(Some(s), [Start(call, user), Check(call), BeginLookup(call)], sweeping)
            == Some(s.(calls := s.calls[call := Call(user, s.clock, Looking(s.clock))]))
  {
    var steps := [Start(call, user), Check(call), BeginLookup(call)];
    var s1 := s.(calls := s.calls[call := Call(user, s.clock, Started)]);
    var s2 := s.(calls := s.calls[call := Call(user, s.clock, Missed)]);
    var s3 := s.(calls := s.calls[call := Call(user, s.clock, Looking(s.clock))]);
    assert StepCheck(s1, call).value.calls == s2.calls;
    assert StepBegin(s2, call).value.calls == s3.calls;
    assert steps[1..][1..] == [BeginLookup(call)] && [BeginLookup(call)][1..] == [];
    assert RunFrom(Some(s2), [BeginLookup(call)], sweeping) == Some(s3);
    assert RunFrom(Some(s1), steps[1..], sweeping) == RunFrom(Some(s2), [BeginLookup(call)], sweeping);
  }

  lemma CallStores(s: State, call: nat, outcome: Outcome, sweeping: bool)
    requires call in s.calls && s.calls[call].phase.Looking?
    ensures RunFrom(Some(s), [EndLookup(call, outcome), Store(call)], sweeping)
            == StepStore(StepEnd(s, call, outcome).value, call, sweeping)
  {
    var steps := [EndLookup(call, outcome), Store(call)];
    assert steps[1..] == [Store(call)] && [Store(call)][1..] == [];
    var t := StepEnd(s, call, outcome).value;
    assert RunFrom(Some(t), [Store(call)], sweeping) == StepStore(t, call, sweeping);
  }

  lemma WholeCallRuns(s: State, call: nat, user: int, outcome: Outcome, sweeping: bool)
    requires call !in s.calls && Hit(s.entries, user, s.clock) == None
    ensures RunFrom(Some(s), WholeCall(call, user, outcome), sweeping)
            == StepStore(BeforeStore(s, call, user, outcome), call, sweeping)
  {
    var s3 := s.(calls := s.calls[call := Call(user, s.clock, Looking(s.clock))]);
    var first, second := [Start(call, user), Check(call), BeginLookup(call)], [EndLookup(call, outcome), Store(call)];
    assert WholeCall(call, user, outcome) == first + second;
    RunFromInTwo(Some(s), first, second, sweeping);
    CallMisses(s, call, user, sweeping);
    CallStores(s3, call, outcome, sweeping);
    assert StepEnd(s3, call, outcome).value.calls == BeforeStore(s, call, user, outcome).calls;
  }

  /** Such a run: call 0's lookup fails, and call 1 is told that the account does not exist. */
  lemma FailedLookupRun(sweeping: bool)
    ensures var run := Run([Start(1, 7)] + WholeCall(0, 7, Failed) + [Check(1)], sweeping);
            run != None && 1 in run.value.calls && run.value.calls[1].phase == Answered(Answer(false, 0))
            && 1 !in run.value.lookups
  {
    var s := StepStart(INITIAL, 1, 7).value;
    assert [Start(1, 7)][..0] == [];
    assert Run([Start(1, 7)], sweeping) == Some(s);
    RunInTwo([Start(1, 7)], WholeCall(0, 7, Failed), sweeping);
    WholeCallRuns(s, 0, 7, Failed, sweeping);
    var t := StepStore(BeforeStore(s, 0, 7, Failed), 0, sweeping).value;
    var front := [Start(1, 7)] + WholeCall(0, 7, Failed);
    assert (front + [Check(1)])[..|front|] == front;
    assert t.entries[7] == Entry(false, TTL, 0);
  }

  // ---- the sweep ---------------------------------------------------------------------------------

  /**
   A sweep at one clock reading changes what another call finds exactly when that call
   read the clock before the entry expired, and the sweeper after it.
   */
  lemma SweepChangesHitExactly(entries: Entries, sweptAt: int, user: int, readAt: int)
    ensures Hit(Swept(entries, sweptAt), user, readAt) != Hit(entries, user, readAt)
            <==> user in entries && readAt < entries[user].expiresAt < sweptAt
  {
  }

  /** Every call checks the cache with a clock reading no older than that of any sweep before it. */
  ghost predicate NoLateReaders(steps: seq<Step>)
    decreases |steps|
  {
    steps != [] ==>
      var front := steps[..|steps| - 1];
      && NoLateReaders(front)
      && (steps[|steps| - 1].Check? && Run(front, true) != None ==>
            var s := Run(front, true).value;
            var call := steps[|steps| - 1].call;
            call in s.calls && s.sweptAt != None ==> s.calls[call].readAt >= s.sweptAt.value)
  }

  /** The same run with and without eviction: only entries that no later reader can hit are missing. */
  ghost predicate Alike(s: State, t: State) {
    && s.(entries := map[], sweptAt := None) == t.(entries := map[], sweptAt := None)
    && (forall u :: u in s.entries ==> u in t.entries && s.entries[u] == t.entries[u])
    && (forall u :: u in t.entries && u !in s.entries ==> s.sweptAt != None && t.entries[u].expiresAt < s.sweptAt.value)
  }

  lemma StepsAlike(s: State, t: State, step: Step)
    requires Alike(s, t)
    requires step.Check? && step.call in s.calls && s.sweptAt != None
             ==> s.calls[step.call].readAt >= s.sweptAt.value
    ensures Next(s, step, true) == None <==> Next(t, step, false) == None
    ensures Next(s, step, true) != None ==> Alike(Next(s, step, true).value, Next(t, step, false).value)
  {
    assert s.calls == t.calls && s.clock == t.clock && s.lookups == t.lookups;
    if step.Store? && Next(s, step, true) != None {
      StoresAlike(s, t, step.call);
    }
  }

  lemma StoresAlike(s: State, t: State, call: nat)
    requires Alike(s, t) && StepStore(s, call, true) != None
    ensures StepStore(t, call, false) != None
    ensures Alike(StepStore(s, call, true).value, StepStore(t, call, false).value)
  {
    assert s.calls == t.calls && s.clock == t.clock && s.lookups == t.lookups;
    var s', t' := StepStore(s, call, true).value, StepStore(t, call, false).value;
    forall u | u in t'.entries && u !in s'.entries
      ensures s'.sweptAt != None && t'.entries[u].expiresAt < s'.sweptAt.value
    {
    }
  }

  /**
   As long as no call checks with a clock reading older than a sweep's, the eviction
   changes nothing that any call can see: the run with it and the run without it make the
   same lookups and give the same answers.
   */
  lemma {:induction false} SweepIsInvisible(steps: seq<Step>)
    requires NoLateReaders(steps)
    ensures Run(steps, true) == None <==> Run(steps, false) == None
    ensures Run(steps, true) != None ==> Alike(Run(steps, true).value, Run(steps, false).value)
    decreases |steps|
  {
    if steps != [] {
      var front, step := steps[..|steps| - 1], steps[|steps| - 1];
      SweepIsInvisible(front);
      if Run(front, true) != None {
        StepsAlike(Run(front, true).value, Run(front, false).value, step);
      }
    }
  }

  // ---- a run in which the sweep changes an answer ------------------------------------------

  /** n accounts looked up at time 0: call u for user u. */
  function FillSteps(n: nat): seq<Step> {
    if n == 0 then [] else FillSteps(n - 1) + WholeCall(n, n, Found)
  }

  function FillEntries(n: nat): (e: Entries)
    ensures |e| == n
    ensures forall u :: u in e <==> 1 <= u <= n
    ensures forall u :: u in e ==> e[u].known && e[u].expiresAt == TTL && e[u].source == u
  {
    if n == 0 then map[] else FillEntries(n - 1)[n := Entry(true, TTL, n)]
  }

  ghost predicate Filled(s: State, n: nat) {
    && s.clock == 0 && s.entries == FillEntries(n) && s.sweptAt == None
    && forall k :: k in s.calls ==> 1 <= k <= n
  }

  lemma FillOne(s: State, n: nat, sweeping: bool)
    requires 0 < n <= MAX_ENTRIES && Filled(s, n - 1)
    ensures var run := RunFrom(Some(s), WholeCall(n, n, Found), sweeping); run != None && Filled(run.value, n)
  {
    WholeCallRuns(s, n, n, Found, sweeping);
    assert FillEntries(n) == s.entries[n := Entry(true, TTL, n)];
    assert !NeedsSweep(FillEntries(n));
  }

  lemma {:induction false} FillRuns(n: nat, sweeping: bool)
    requires n <= MAX_ENTRIES
    ensures Run(FillSteps(n), sweeping) != None && Filled(Run(FillSteps(n), sweeping).value, n)
    decreases n
  {
    if n > 0 {
      FillRuns(n - 1, sweeping);
      FillOne(Run(FillSteps(n - 1), sweeping).value, n, sweeping);
      RunInTwo(FillSteps(n - 1), WholeCall(n, n, Found), sweeping);
    }
  }

  /** Call 0 reads the clock at time 1; after the entries have expired, one more account is looked up; call 0 checks. */
  function LateSteps(n: nat): seq<Step> {
    [Tick(1), Start(0, 1), Tick(TTL + 1)] + WholeCall(n + 1, n + 1, Found) + [Check(0)]
  }

  lemma LateRun(n: nat, s: State, sweeping: bool)
    requires n == MAX_ENTRIES && Filled(s, n)
    ensures var run := RunFrom(Some(s), LateSteps(n), sweeping);
            run != None && In(run.value, 0, if sweeping then Missed else Answered(Answer(true, 1)))
  {
    var s3 := s.(clock := TTL + 1, calls := s.calls[0 := Call(1, 1, Started)]);
    LateStart(n, s, sweeping);
    RunOneMore(Some(s), [Tick(1), Start(0, 1), Tick(TTL + 1)] + WholeCall(n + 1, n + 1, Found), Check(0), sweeping);
    LateCheck(s3, n, sweeping);
  }

  /** All of it but the check. */
  lemma LateStart(n: nat, s: State, sweeping: bool)
    requires n == MAX_ENTRIES && Filled(s, n)
    ensures var s3 := s.(clock := TTL + 1, calls := s.calls[0 := Call(1, 1, Started)]);
            RunFrom(Some(s), [Tick(1), Start(0, 1), Tick(TTL + 1)] + WholeCall(n + 1, n + 1, Found), sweeping)
            == StepStore(BeforeStore(s3, n + 1, n + 1, Found), n + 1, sweeping)
  {
    var s3 := s.(clock := TTL + 1, calls := s.calls[0 := Call(1, 1, Started)]);
    HeadRuns(s, sweeping);
    RunFromInTwo(Some(s), [Tick(1), Start(0, 1), Tick(TTL + 1)], WholeCall(n + 1, n + 1, Found), sweeping);
    WholeCallRuns(s3, n + 1, n + 1, Found, sweeping);
  }

  lemma LateCheck(s: State, n: nat, sweeping: bool)
    requires n == MAX_ENTRIES && s.entries == FillEntries(n) && s.clock == TTL + 1
    requires 0 in s.calls && s.calls[0] == Call(1, 1, Started)
    ensures var s' := StepStore(BeforeStore(s, n + 1, n + 1, Found), n + 1, sweeping);
            && s' != None && StepCheck(s'.value, 0) != None
            && In(StepCheck(s'.value, 0).value, 0, if sweeping then Missed else Answered(Answer(true, 1)))
  {
    StoreSweeps(s, n, sweeping);
    var s' := StepStore(BeforeStore(s, n + 1, n + 1, Found), n + 1, sweeping).value;
    assert s'.calls[0] == Call(1, 1, Started);
  }

  lemma HeadRuns(s: State, sweeping: bool)
    requires s.clock == 0 && 0 !in s.calls
    ensures RunFrom(Some(s), [Tick(1), Start(0, 1), Tick(TTL + 1)], sweeping)
            == Some(s.(clock := TTL + 1, calls := s.calls[0 := Call(1, 1, Started)]))
  {
    var head := [Tick(1), Start(0, 1), Tick(TTL + 1)];
    var s1 := s.(clock := 1);
    var s2 := StepStart(s1, 0, 1).value;
    assert head[1..] == [Start(0, 1), Tick(TTL + 1)] && head[1..][1..] == [Tick(TTL + 1)];
    assert RunFrom(Some(s2), [Tick(TTL + 1)], sweeping) == Some(s2.(clock := TTL + 1));
    assert RunFrom(Some(s1), head[1..], sweeping) == RunFrom(Some(s2), [Tick(TTL + 1)], sweeping);
  }

  /** The store that brings the cache over its limit sweeps every old entry. */
  lemma StoreSweeps(s: State, n: nat, sweeping: bool)
    requires n == MAX_ENTRIES && s.entries == FillEntries(n) && s.clock == TTL + 1
    ensures var s' := StepStore(BeforeStore(s, n + 1, n + 1, Found), n + 1, sweeping).value;
            Hit(s'.entries, 1, 1) == if sweeping then None else Some(s.entries[1])
  {
    var written := Written(s.entries, n + 1, Call(n + 1, TTL + 1, Looked(TTL + 1, Found)), Found);
    assert |written| == n + 1;
    assert 1 in s.entries && written[1] == s.entries[1];
  }

  /**
   With more than 10,000 accounts the eviction can change an answer: in one and the same run
   a late call finds its account in the cache without the eviction, and has to look it up
   with it; if the account was deleted meanwhile, it is told that there is no such account.
   */
  lemma SweepCanChangeAnswer()
    ensures exists steps: seq<Step>, call: nat, source: nat ::
              && Run(steps, true) != None && Run(steps, false) != None
              && In(Run(steps, false).value, call, Answered(Answer(true, source)))
              && In(Run(steps, true).value, call, Missed)
              && var rest := [BeginLookup(call), EndLookup(call, Missing), Store(call)];
                 Run(steps + rest, true) != None
                 && In(Run(steps + rest, true).value, call, Answered(Answer(false, call)))
  {
    var n: nat :| n == MAX_ENTRIES;
    var steps := FillSteps(n) + LateSteps(n);
    LateOutcome(n, true);
    LateOutcome(n, false);
    RunInTwo(steps, [BeginLookup(0), EndLookup(0, Missing), Store(0)], true);
    MissEnds(Run(steps, true).value, 0, Missing);
  }

  lemma LateOutcome(n: nat, sweeping: bool)
    requires n == MAX_ENTRIES
    ensures var run := Run(FillSteps(n) + LateSteps(n), sweeping);
            run != None && In(run.value, 0, if sweeping then Missed else Answered(Answer(true, 1)))
  {
    FillRuns(n, sweeping);
    RunInTwo(FillSteps(n), LateSteps(n), sweeping);
    LateRun(n, Run(FillSteps(n), sweeping).value, sweeping);
  }

  /** A missed call that goes on answers with its own lookup. */
  lemma MissEnds(s: State, call: nat, outcome: Outcome)
    requires In(s, call, Missed)
    ensures var run := RunFrom(Some(s), [BeginLookup(call), EndLookup(call, outcome), Store(call)], true);
            run != None && In(run.value, call, Answered(Answer(outcome == Found, call)))
  {
    var steps := [BeginLookup(call), EndLookup(call, outcome), Store(call)];
    var s1 := StepBegin(s, call).value;
    var s2 := StepEnd(s1, call, outcome).value;
    assert steps[1..][1..] == [Store(call)] && [Store(call)][1..] == [];
    assert RunFrom(Some(s2), [Store(call)], true) == StepStore(s2, call, true);
    assert RunFrom(Some(s1), steps[1..], true) == RunFrom(Some(s2), [Store(call)], true);
  }

  // ---- the method ----------------------------------------------------------------------------------

  /** The cache object, each call run without interruption; the outcome is that of the lookup it may make. */
  class SharedCache {
    var entries: Entries

    constructor ()
      ensures entries == map[]
    {
      entries := map[];
    }

    method CheckExists(call: nat, user: int, now: int, outcome: Outcome) returns (found: bool)
      modifies this
      ensures user in old(entries) && now < old(entries)[user].expiresAt ==>
                found == old(entries)[user].known && entries == old(entries)
      ensures user !in old(entries) || now >= old(entries)[user].expiresAt ==>
                var written := old(entries)[user := Entry(found, now + 90_000_000_000, call)];
                && found == (outcome == Found)
                && if |written| <= 10_000 then entries == written
                   else && (forall u :: u in entries <==> u in written && now <= written[u].expiresAt)
                        && (forall u :: u in entries ==> entries[u] == written[u])
    {
      if user in entries && now < entries[user].expiresAt {
        return entries[user].known;
      }
      found := outcome == Found;
      entries := entries[user := Entry(found, now + TTL, call)];
      if |entries| > MAX_ENTRIES {
        entries := Sweep(entries, now);
      }
    }
  }

  /** The eviction loop: what expired before the clock reading goes, and nothing else. */
  method Sweep(entries: Entries, now: int) returns (kept: Entries)
    ensures kept == Swept(entries, now)
    ensures forall u :: u in kept <==> u in entries && now <= entries[u].expiresAt
    ensures forall u :: u in kept ==> kept[u] == entries[u]
  {
    kept := entries;
    var todo := entries.Keys;
    while exists u :: u in todo
      invariant todo <= kept.Keys <= entries.Keys
      invariant forall u :: u in kept ==> kept[u] == entries[u]
      invariant forall u :: u in entries && u !in todo ==> (u in kept <==> !(now > entries[u].expiresAt))
      decreases |todo|
    {
      var u :| u in todo;
      todo := todo - {u};
      if now > kept[u].expiresAt {
        kept := kept - {u};
      }
    }
    ghost var swept := Swept(entries, now);
    assert forall u :: u in kept <==> u in swept;
    assert kept.Keys == swept.Keys;
    assert forall u :: u in kept ==> kept[u] == swept[u];
    assert kept == swept;
  }
}
