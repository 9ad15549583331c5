/**
 The event hub as a machine of interleaved steps: taking and releasing the RW lock,
 creating and pruning a topic's entry, one send attempt at a time, and the close that
 follows the unlock in a cancellation.
 */
module EventHub {
  import opened Options

  const CAPACITY := 16

  datatype Event = Event(kind: string, userId: int, rmId: int, at: int)

  /** One select in Publish: which publication offered what, and whether the buffer was full. */
  datatype Attempt = Attempt(publication: nat, event: Event, full: bool)

  /** Where a subscription is: being made by a thread, live, inside its once, or done. */
  datatype Phase = Making(maker: nat) | Live | Cancelling(canceller: nat) | Cancelled

  datatype Channel = Channel(
    topic: string, buffer: seq<Event>, received: seq<Event>, attempts: seq<Attempt>,
    closed: bool, phase: Phase)

  /** A thread's position in Subscribe, its cancel closure, or Publish. */
  datatype Position =
    | Idle
    | SubWaiting(ch: nat)     // channel made, before the lock
    | SubLocked(ch: nat)
    | SubEntered(ch: nat)     // the topic has an entry
    | SubAdded(ch: nat)       // the channel is in it
    | CancelWaiting(ch: nat)  // inside the once, before the lock
    | CancelLocked(ch: nat)
    | CancelDeleted(ch: nat)
    | CancelPruned(ch: nat)
    | CancelUnlocked(ch: nat) // about to close
    | PubWaiting(id: nat, topic: string, event: Event)
    | PubSending(id: nat, topic: string, event: Event, todo: set<nat>)

  datatype State = State(
    subs: map<string, set<nat>>, chans: map<nat, Channel>, at: map<nat, Position>,
    writer: Option<nat>, readers: set<nat>, publications: nat,
    publishers: map<nat, nat>,     // publication -> thread that made it
    finished: map<nat, set<nat>>,  // publication -> channels its topic had
    panicked: bool)

  datatype Action =
    | DoStartSubscribe(topic: string, ch: nat) | DoLock | DoMakeEntry | DoInsert | DoSubUnlock
    | DoStartCancel(ch: nat) | DoDelete | DoPrune | DoCancelUnlock | DoClose
    | DoStartPublish(topic: string, event: Event) | DoRLock | DoTrySend(ch: nat) | DoRUnlock
    | DoReceive(ch: nat)

  /** Thread t takes one action. */
  datatype Step = Step(thread: nat, action: Action)

  const INITIAL := State(map[], map[], map[], None, {}, 0, map[], map[], false)

  function At(s: State, t: nat): Position {
    if t in s.at then s.at[t] else Idle
  }

  predicate HoldsWriteLock(p: Position) {
    p.SubLocked? || p.SubEntered? || p.SubAdded? || p.CancelLocked? || p.CancelDeleted? || p.CancelPruned?
  }

  predicate InSubscribe(p: Position) {
    p.SubWaiting? || p.SubLocked? || p.SubEntered? || p.SubAdded?
  }

  predicate InCancel(p: Position) {
    p.CancelWaiting? || p.CancelLocked? || p.CancelDeleted? || p.CancelPruned? || p.CancelUnlocked?
  }

  function Subscribers(s: State, topic: string): set<nat> {
    if topic in s.subs then s.subs[topic] else {}
  }

  /** A non-blocking send: the event is buffered, or dropped when the buffer is full. */
  function Offer(c: Channel, id: nat, event: Event): Channel {
    var full := |c.buffer| >= CAPACITY;
    c.(buffer := if full then c.buffer else c.buffer + [event],
       attempts := c.attempts + [Attempt(id, event, full)])
  }

  function MoveTo(s: State, t: nat, p: Position): State {
    s.(at := s.at[t := p])
  }

  // ---- Subscribe ------------------------------------------------------------------

  function StartSubscribe(s: State, t: nat, topic: string, ch: nat): Option<State> {
    if At(s, t) != Idle || ch in s.chans then None
    else Some(MoveTo(s, t, SubWaiting(ch)).(
      chans := s.chans[ch := Channel(topic, [], [], [], false, Making(t))]))
  }

  /** Taking the write lock, in Subscribe or in a cancellation. */
  function Lock(s: State, t: nat): Option<State> {
    var p := At(s, t);
    if s.writer != None || s.readers != {} then None
    else if p.SubWaiting? then Some(MoveTo(s, t, SubLocked(p.ch)).(writer := Some(t)))
    else if p.CancelWaiting? then Some(MoveTo(s, t, CancelLocked(p.ch)).(writer := Some(t)))
    else None
  }

  function MakeEntry(s: State, t: nat): Option<State> {
    var p := At(s, t);
    if !p.SubLocked? || p.ch !in s.chans then None
    else
      var topic := s.chans[p.ch].topic;
      Some(MoveTo(s, t, SubEntered(p.ch)).(subs := s.subs[topic := Subscribers(s, topic)]))
  }

  function Insert(s: State, t: nat): Option<State> {
    var p := At(s, t);
    if !p.SubEntered? || p.ch !in s.chans then None
    else
      var topic := s.chans[p.ch].topic;
      Some(MoveTo(s, t, SubAdded(p.ch)).(subs := s.subs[topic := Subscribers(s, topic) + {p.ch}]))
  }

  function SubUnlock(s: State, t: nat): Option<State> {
    var p := At(s, t);
    if !p.SubAdded? || p.ch !in s.chans then None
    else Some(MoveTo(s, t, Idle).(
      writer := None, chans := s.chans[p.ch := s.chans[p.ch].(phase := Live)]))
  }

  // ---- the cancel closure -----------------------------------------------------------

  /** Calling cancel: the once lets the first call in, and later calls do nothing. */
  function StartCancel(s: State, t: nat, ch: nat): Option<State> {
    if At(s, t) != Idle || ch !in s.chans then None
    else if s.chans[ch].phase == Live then
      Some(MoveTo(s, t, CancelWaiting(ch)).(
        chans := s.chans[ch := s.chans[ch].(phase := Cancelling(t))]))
    else if s.chans[ch].phase == Cancelled then Some(s)
    else None // not returned by Subscribe yet, or blocked in the once
  }

  function Delete(s: State, t: nat): Option<State> {
    var p := At(s, t);
    if !p.CancelLocked? || p.ch !in s.chans then None
    else
      var topic := s.chans[p.ch].topic;
      Some(MoveTo(s, t, CancelDeleted(p.ch)).(
        subs := if topic in s.subs then s.subs[topic := s.subs[topic] - {p.ch}] else s.subs))
  }

  function Prune(s: State, t: nat): Option<State> {
    var p := At(s, t);
    if !p.CancelDeleted? || p.ch !in s.chans then None
    else
      var topic := s.chans[p.ch].topic;
      Some(MoveTo(s, t, CancelPruned(p.ch)).(
        subs := if Subscribers(s, topic) == {} then s.subs - {topic} else s.subs))
  }

  function CancelUnlock(s: State, t: nat): Option<State> {
    var p := At(s, t);
    if !p.CancelPruned? then None
    else Some(MoveTo(s, t, CancelUnlocked(p.ch)).(writer := None))
  }

  /** Closing a closed channel panics. */
  function Close(s: State, t: nat): Option<State> {
    var p := At(s, t);
    if !p.CancelUnlocked? || p.ch !in s.chans then None
    else if s.chans[p.ch].closed then Some(s.(panicked := true))
    else Some(MoveTo(s, t, Idle).(
      chans := s.chans[p.ch := s.chans[p.ch].(closed := true, phase := Cancelled)]))
  }

  // ---- Publish and receiving ---------------------------------------------------------

  function StartPublish(s: State, t: nat, topic: string, event: Event): Option<State> {
    if At(s, t) != Idle then None
    else Some(MoveTo(s, t, PubWaiting(s.publications, topic, event)).(
      publications := s.publications + 1, publishers := s.publishers[s.publications := t]))
  }

  function RLock(s: State, t: nat): Option<State> {
    var p := At(s, t);
    if !p.PubWaiting? || s.writer != None then None
    else Some(MoveTo(s, t, PubSending(p.id, p.topic, p.event, Subscribers(s, p.topic))).(
      readers := s.readers + {t}))
  }

  /** One attempt of the loop, in any order; sending on a closed channel panics. */
  function TrySend(s: State, t: nat, ch: nat): Option<State> {
    var p := At(s, t);
    if !p.PubSending? || ch !in p.todo || ch !in s.chans then None
    else if s.chans[ch].closed then Some(s.(panicked := true))
    else Some(MoveTo(s, t, p.(todo := p.todo - {ch})).(
      chans := s.chans[ch := Offer(s.chans[ch], p.id, p.event)]))
  }

  function RUnlock(s: State, t: nat): Option<State> {
    var p := At(s, t);
    if !p.PubSending? || p.todo != {} then None
    else Some(MoveTo(s, t, Idle).(
      readers := s.readers - {t}, finished := s.finished[p.id := Subscribers(s, p.topic)]))
  }

  function Receive(s: State, ch: nat): Option<State> {
    if ch !in s.chans || s.chans[ch].buffer == [] then None
    else
      var c := s.chans[ch];
      Some(s.(chans := s.chans[ch := c.(buffer := c.buffer[1..], received := c.received + [c.buffer[0]])]))
  }

  /** The state after a step; None when the step is not possible. */
  function Next(s: State, step: Step): Option<State> {
    var t := step.thread;
    match step.action
    case DoStartSubscribe(topic, ch) => StartSubscribe(s, t, topic, ch)
    case DoLock => Lock(s, t)
    case DoMakeEntry => MakeEntry(s, t)
    case DoInsert => Insert(s, t)
    case DoSubUnlock => SubUnlock(s, t)
    case DoStartCancel(ch) => StartCancel(s, t, ch)
    case DoDelete => Delete(s, t)
    case DoPrune => Prune(s, t)
    case DoCancelUnlock => CancelUnlock(s, t)
    case DoClose => Close(s, t)
    case DoStartPublish(topic, event) => StartPublish(s, t, topic, event)
    case DoRLock => RLock(s, t)
    case DoTrySend(ch) => TrySend(s, t, ch)
    case DoRUnlock => RUnlock(s, t)
    case DoReceive(ch) => Receive(s, ch)
  }

  /** The state after a run; None when some step of it is not possible. */
  function Run(steps: seq<Step>): Option<State> {
    if steps == [] then Some(INITIAL)
    else
      var before := Run(steps[..|steps| - 1]);
      if before == None then None else Next(before.value, steps[|steps| - 1])
  }

  // ---- the invariant --------------------------------------------------------------

  /** The events a subscriber was offered while it had room. */
  function Accepted(attempts: seq<Attempt>): seq<Event> {
    if attempts == [] then []
    else
      var last := attempts[|attempts| - 1];
      var front := Accepted(attempts[..|attempts| - 1]);
      if last.full then front else front + [last.event]
  }

  /** How often one publication was offered. */
  function Offers(attempts: seq<Attempt>, id: nat): nat {
    if attempts == [] then 0
    else
      Offers(attempts[..|attempts| - 1], id)
      + if attempts[|attempts| - 1].publication == id then 1 else 0
  }

  predicate ChannelOk(c: Channel) {
    && |c.buffer| <= CAPACITY
    && c.received + c.buffer == Accepted(c.attempts)
    && (c.closed <==> c.phase == Cancelled)
  }

  /** The channel is in its topic's entry. */
  predicate Listed(s: State, c: Channel) {
    match c.phase
    case Live => true
    case Making(t) => At(s, t).SubAdded?
    case Cancelling(t) => At(s, t).CancelWaiting? || At(s, t).CancelLocked?
    case Cancelled => false
  }

  /** A thread inside Subscribe or a once owns its channel's phase. */
  predicate ThreadOk(s: State, t: nat) {
    var p := At(s, t);
    && (InSubscribe(p) ==> p.ch in s.chans && s.chans[p.ch].phase == Making(t))
    && (InCancel(p) ==> p.ch in s.chans && s.chans[p.ch].phase == Cancelling(t))
  }

  /** And a phase owned by a thread has that thread inside. */
  predicate PhaseOk(s: State, ch: nat) {
    ch in s.chans ==>
      && ChannelOk(s.chans[ch])
      && match s.chans[ch].phase
         case Making(t) => InSubscribe(At(s, t)) && At(s, t).ch == ch
         case Cancelling(t) => InCancel(At(s, t)) && At(s, t).ch == ch
         case _ => true
  }

  predicate LockHeldBy(s: State, t: nat) {
    && (HoldsWriteLock(At(s, t)) <==> s.writer == Some(t))
    && (At(s, t).PubSending? <==> t in s.readers)
  }

  /** The entries hold exactly the listed channels. */
  predicate EntryOk(s: State, topic: string, ch: nat) {
    ch in Subscribers(s, topic) <==>
    ch in s.chans && s.chans[ch].topic == topic && Listed(s, s.chans[ch])
  }

  /** The lock holder is between making or emptying this topic's entry and filling or pruning it. */
  predicate MayBeEmpty(s: State, topic: string) {
    && s.writer != None
    && var p := At(s, s.writer.value);
       (p.SubEntered? || p.CancelDeleted?) && p.ch in s.chans && s.chans[p.ch].topic == topic
  }

  predicate EntryInUse(s: State, topic: string) {
    topic in s.subs && s.subs[topic] == {} ==> MayBeEmpty(s, topic)
  }

  ghost predicate ControlInv(s: State) {
    && !s.panicked
    && (s.writer != None ==> s.readers == {})
    && (forall t: nat :: ThreadOk(s, t) && LockHeldBy(s, t))
    && (forall ch: nat :: PhaseOk(s, ch))
    && (forall topic: string, ch: nat :: EntryOk(s, topic, ch))
    && (forall topic: string :: EntryInUse(s, topic))
  }

  predicate IsPublishing(p: Position) {
    p.PubWaiting? || p.PubSending?
  }

  /** Publication id was offered exactly once to each channel of the set, and to no other. */
  ghost predicate OfferedTo(s: State, id: nat, targets: set<nat>) {
    forall ch :: ch in s.chans ==> Offers(s.chans[ch].attempts, id) == if ch in targets then 1 else 0
  }

  /** A publication in progress has offered its event once to the subscribers not left to do. */
  ghost predicate PublishingOk(s: State, t: nat) {
    var p := At(s, t);
    IsPublishing(p) ==>
      && p.id < s.publications && p.id !in s.finished
      && (p.PubWaiting? ==> OfferedTo(s, p.id, {}))
      && (p.PubSending? ==> p.todo <= Subscribers(s, p.topic)
                            && OfferedTo(s, p.id, Subscribers(s, p.topic) - p.todo))
  }

  predicate DistinctPublications(s: State, t: nat, u: nat) {
    t != u && IsPublishing(At(s, t)) && IsPublishing(At(s, u)) ==> At(s, t).id != At(s, u).id
  }

  /** A finished publication was offered exactly once to each subscriber of its topic. */
  ghost predicate FinishedOk(s: State, id: nat) {
    && (id in s.finished ==>
          id < s.publications && s.finished[id] <= s.chans.Keys && OfferedTo(s, id, s.finished[id]))
    && (id >= s.publications ==> OfferedTo(s, id, {}))
  }

  ghost predicate DeliveryInv(s: State) {
    && (forall t: nat :: PublishingOk(s, t))
    && (forall t: nat, u: nat :: DistinctPublications(s, t, u))
    && (forall id: nat :: FinishedOk(s, id))
  }

  ghost predicate Inv(s: State) {
    ControlInv(s) && DeliveryInv(s)
  }

  // ---- every step keeps it ----------------------------------------------------------

  lemma OfferKeepsChannel(c: Channel, id: nat, event: Event)
    requires ChannelOk(c)
    ensures ChannelOk(Offer(c, id, event))
    ensures Offers(Offer(c, id, event).attempts, id) == Offers(c.attempts, id) + 1
    ensures forall other :: other != id ==>
              Offers(Offer(c, id, event).attempts, other) == Offers(c.attempts, other)
  {
    var c' := Offer(c, id, event);
    assert c'.attempts[..|c'.attempts| - 1] == c.attempts;
    assert c.received + (c.buffer + [event]) == (c.received + c.buffer) + [event];
  }

  lemma ReceiveKeepsChannel(c: Channel)
    requires ChannelOk(c) && c.buffer != []
    ensures ChannelOk(c.(buffer := c.buffer[1..], received := c.received + [c.buffer[0]]))
  {
    assert c.received + [c.buffer[0]] + c.buffer[1..] == c.received + c.buffer;
  }

  /** A step that offers nothing, and finishes nothing, keeps the delivery account. */
  lemma DeliveryFrame(s: State, s': State)
    requires Inv(s)
    requires s'.publications == s.publications && s'.finished == s.finished
    requires forall ch :: ch in s.chans ==> ch in s'.chans && s'.chans[ch].attempts == s.chans[ch].attempts
    requires forall ch :: ch in s'.chans && ch !in s.chans ==> s'.chans[ch].attempts == []
    requires forall u: nat :: At(s', u) == At(s, u) || !IsPublishing(At(s', u))
    requires forall u: nat :: At(s, u).PubSending? ==>
               Subscribers(s', At(s, u).topic) == Subscribers(s, At(s, u).topic)
    ensures DeliveryInv(s')
  {
    forall u: nat ensures PublishingOk(s', u) {
      assert PublishingOk(s, u);
      if IsPublishing(At(s', u)) && At(s', u).PubSending? {
        OfferedFrame(s, s', At(s, u).id, Subscribers(s, At(s, u).topic) - At(s, u).todo);
      }
    }
    forall u: nat, v: nat ensures DistinctPublications(s', u, v) {
      assert DistinctPublications(s, u, v);
    }
    forall id: nat ensures FinishedOk(s', id) {
      assert FinishedOk(s, id);
    }
  }

  lemma OfferedFrame(s: State, s': State, id: nat, targets: set<nat>)
    requires ControlInv(s) && OfferedTo(s, id, targets)
    requires exists topic: string :: targets <= Subscribers(s, topic)
    requires forall ch :: ch in s.chans ==> ch in s'.chans && s'.chans[ch].attempts == s.chans[ch].attempts
    requires forall ch :: ch in s'.chans && ch !in s.chans ==> s'.chans[ch].attempts == []
    ensures OfferedTo(s', id, targets)
  {
    var topic: string :| targets <= Subscribers(s, topic);
    forall ch | ch in s'.chans
      ensures Offers(s'.chans[ch].attempts, id) == if ch in targets then 1 else 0
    {
      assert EntryOk(s, topic, ch);
    }
  }

  function Topic(s: State, ch: nat): string {
    if ch in s.chans then s.chans[ch].topic else ""
  }

  /** A step of thread t that touches no other position, channel or entry than its own. */
  ghost predicate OnlyOwn(s: State, s': State, t: nat, ch: nat) {
    && (forall u: nat :: u != t ==> At(s', u) == At(s, u))
    && (forall u: nat :: u != t ==>
          (s'.writer == Some(u) <==> s.writer == Some(u)) && (u in s'.readers <==> u in s.readers))
    && (forall c: nat :: c != ch ==> (c in s'.chans <==> c in s.chans) && (c in s.chans ==> s'.chans[c] == s.chans[c]))
    && (forall k: string :: k != Topic(s', ch) ==>
          (k in s'.subs <==> k in s.subs) && Subscribers(s', k) == Subscribers(s, k))
    && (forall c: nat :: c != ch ==> (c in Subscribers(s', Topic(s', ch)) <==> c in Subscribers(s, Topic(s', ch))))
    && (ch in s.chans ==>
          && ch in s'.chans && s'.chans[ch].topic == s.chans[ch].topic
          && s'.chans[ch].phase in {s.chans[ch].phase} + (if s.chans[ch].phase in {Live, Making(t), Cancelling(t)}
                                                        then {s'.chans[ch].phase} else {}))
    && (InSubscribe(At(s, t)) || InCancel(At(s, t)) ==> At(s, t).ch == ch)
  }

  /** A thread changes the phase only of a live channel or of its own. */
  predicate PhaseMoves(s: State, s': State, t: nat, ch: nat) {
    ch in s.chans ==>
      ch in s'.chans
      && (s'.chans[ch].phase == s.chans[ch].phase || s.chans[ch].phase in {Live, Making(t), Cancelling(t)})
  }

  lemma ThreadFrame(s: State, s': State, t: nat, ch: nat)
    requires ControlInv(s) && OnlyOwn(s, s', t, ch) && ThreadOk(s', t) && LockHeldBy(s', t)
    ensures forall u: nat :: ThreadOk(s', u) && LockHeldBy(s', u)
  {
    forall u: nat ensures ThreadOk(s', u) && LockHeldBy(s', u) {
      assert ThreadOk(s, u) && LockHeldBy(s, u);
    }
  }

  lemma PhaseFrame(s: State, s': State, t: nat, ch: nat)
    requires ControlInv(s) && OnlyOwn(s, s', t, ch) && PhaseOk(s', ch)
    ensures forall c: nat :: PhaseOk(s', c) && PhaseMoves(s, s', t, c)
  {
    forall c: nat ensures PhaseOk(s', c) && PhaseMoves(s, s', t, c) {
      assert PhaseOk(s, c);
    }
  }

  lemma EntryFrame(s: State, s': State, t: nat, ch: nat)
    requires ControlInv(s) && OnlyOwn(s, s', t, ch)
    requires EntryOk(s', Topic(s', ch), ch)
    ensures forall k: string, c: nat :: EntryOk(s', k, c)
  {
    forall k: string, c: nat ensures EntryOk(s', k, c) {
      assert EntryOk(s, k, c) && PhaseOk(s, c);
    }
  }

  lemma EntryUseFrame(s: State, s': State, t: nat, ch: nat)
    requires ControlInv(s) && OnlyOwn(s, s', t, ch)
    requires EntryInUse(s', Topic(s', ch))
    ensures forall k: string :: EntryInUse(s', k)
  {
    assert ThreadOk(s, t) && LockHeldBy(s, t);
    forall k: string ensures EntryInUse(s', k) {
      assert EntryInUse(s, k);
    }
  }

  /** Then it keeps the control invariant when it does so for its own thread, channel and topic. */
  lemma ControlFrame(s: State, s': State, t: nat, ch: nat)
    requires ControlInv(s) && OnlyOwn(s, s', t, ch)
    requires !s'.panicked && (s'.writer != None ==> s'.readers == {})
    requires ThreadOk(s', t) && LockHeldBy(s', t) && PhaseOk(s', ch)
    requires EntryOk(s', Topic(s', ch), ch) && EntryInUse(s', Topic(s', ch))
    ensures ControlInv(s') && forall c: nat :: PhaseMoves(s, s', t, c)
  {
    ThreadFrame(s, s', t, ch);
    PhaseFrame(s, s', t, ch);
    EntryFrame(s, s', t, ch);
    EntryUseFrame(s, s', t, ch);
  }

  lemma StartSubscribeControl(s: State, t: nat, topic: string, ch: nat)
    requires Inv(s) && StartSubscribe(s, t, topic, ch) != None
    ensures ControlInv(StartSubscribe(s, t, topic, ch).value)
    ensures forall c: nat :: PhaseMoves(s, StartSubscribe(s, t, topic, ch).value, t, c)
  {
    var s' := StartSubscribe(s, t, topic, ch).value;
    assert ThreadOk(s, t) && LockHeldBy(s, t) && PhaseOk(s, ch);
    assert EntryOk(s, topic, ch) && EntryInUse(s, topic);
    ControlFrame(s, s', t, ch);
  }

  lemma LockControl(s: State, t: nat)
    requires Inv(s) && Lock(s, t) != None
    ensures ControlInv(Lock(s, t).value) && forall c: nat :: PhaseMoves(s, Lock(s, t).value, t, c)
  {
    var s' := Lock(s, t).value;
    assert ThreadOk(s, t) && LockHeldBy(s, t) && PhaseOk(s, At(s, t).ch);
    assert EntryOk(s, Topic(s, At(s, t).ch), At(s, t).ch) && EntryInUse(s, Topic(s, At(s, t).ch));
    ControlFrame(s, s', t, At(s, t).ch);
  }

  lemma MakeEntryControl(s: State, t: nat)
    requires Inv(s) && MakeEntry(s, t) != None
    ensures ControlInv(MakeEntry(s, t).value) && forall c: nat :: PhaseMoves(s, MakeEntry(s, t).value, t, c)
  {
    var s' := MakeEntry(s, t).value;
    assert ThreadOk(s, t) && LockHeldBy(s, t) && PhaseOk(s, At(s, t).ch);
    assert EntryOk(s, Topic(s, At(s, t).ch), At(s, t).ch) && EntryInUse(s, Topic(s, At(s, t).ch));
    ControlFrame(s, s', t, At(s, t).ch);
  }

  lemma InsertControl(s: State, t: nat)
    requires Inv(s) && Insert(s, t) != None
    ensures ControlInv(Insert(s, t).value) && forall c: nat :: PhaseMoves(s, Insert(s, t).value, t, c)
  {
    var s' := Insert(s, t).value;
    assert ThreadOk(s, t) && LockHeldBy(s, t) && PhaseOk(s, At(s, t).ch);
    assert EntryOk(s, Topic(s, At(s, t).ch), At(s, t).ch) && EntryInUse(s, Topic(s, At(s, t).ch));
    ControlFrame(s, s', t, At(s, t).ch);
  }

  lemma SubUnlockControl(s: State, t: nat)
    requires Inv(s) && SubUnlock(s, t) != None
    ensures ControlInv(SubUnlock(s, t).value) && forall c: nat :: PhaseMoves(s, SubUnlock(s, t).value, t, c)
  {
    var s' := SubUnlock(s, t).value;
    assert ThreadOk(s, t) && LockHeldBy(s, t) && PhaseOk(s, At(s, t).ch);
    assert EntryOk(s, Topic(s, At(s, t).ch), At(s, t).ch) && EntryInUse(s, Topic(s, At(s, t).ch));
    ControlFrame(s, s', t, At(s, t).ch);
  }

  lemma StartCancelControl(s: State, t: nat, ch: nat)
    requires Inv(s) && StartCancel(s, t, ch) != None
    ensures ControlInv(StartCancel(s, t, ch).value) && forall c: nat :: PhaseMoves(s, StartCancel(s, t, ch).value, t, c)
  {
    var s' := StartCancel(s, t, ch).value;
    assert ThreadOk(s, t) && LockHeldBy(s, t) && PhaseOk(s, ch);
    assert EntryOk(s, Topic(s, ch), ch) && EntryInUse(s, Topic(s, ch));
    ControlFrame(s, s', t, ch);
  }

  lemma DeleteControl(s: State, t: nat)
    requires Inv(s) && Delete(s, t) != None
    ensures ControlInv(Delete(s, t).value) && forall c: nat :: PhaseMoves(s, Delete(s, t).value, t, c)
  {
    var s' := Delete(s, t).value;
    assert ThreadOk(s, t) && LockHeldBy(s, t) && PhaseOk(s, At(s, t).ch);
    assert EntryOk(s, Topic(s, At(s, t).ch), At(s, t).ch) && EntryInUse(s, Topic(s, At(s, t).ch));
    ControlFrame(s, s', t, At(s, t).ch);
  }

  lemma PruneControl(s: State, t: nat)
    requires Inv(s) && Prune(s, t) != None
    ensures ControlInv(Prune(s, t).value) && forall c: nat :: PhaseMoves(s, Prune(s, t).value, t, c)
  {
    var s' := Prune(s, t).value;
    assert ThreadOk(s, t) && LockHeldBy(s, t) && PhaseOk(s, At(s, t).ch);
    assert EntryOk(s, Topic(s, At(s, t).ch), At(s, t).ch) && EntryInUse(s, Topic(s, At(s, t).ch));
    ControlFrame(s, s', t, At(s, t).ch);
  }

  lemma CancelUnlockControl(s: State, t: nat)
    requires Inv(s) && CancelUnlock(s, t) != None
    ensures ControlInv(CancelUnlock(s, t).value) && forall c: nat :: PhaseMoves(s, CancelUnlock(s, t).value, t, c)
  {
    var s' := CancelUnlock(s, t).value;
    assert ThreadOk(s, t) && LockHeldBy(s, t) && PhaseOk(s, At(s, t).ch);
    assert EntryOk(s, Topic(s, At(s, t).ch), At(s, t).ch) && EntryInUse(s, Topic(s, At(s, t).ch));
    ControlFrame(s, s', t, At(s, t).ch);
  }

  lemma CloseControl(s: State, t: nat)
    requires Inv(s) && Close(s, t) != None
    ensures ControlInv(Close(s, t).value) && forall c: nat :: PhaseMoves(s, Close(s, t).value, t, c)
  {
    var s' := Close(s, t).value;
    assert ThreadOk(s, t) && LockHeldBy(s, t) && PhaseOk(s, At(s, t).ch);
    assert EntryOk(s, Topic(s, At(s, t).ch), At(s, t).ch) && EntryInUse(s, Topic(s, At(s, t).ch));
    ControlFrame(s, s', t, At(s, t).ch);
  }

  lemma StartPublishControl(s: State, t: nat, topic: string, event: Event)
    requires Inv(s) && StartPublish(s, t, topic, event) != None
    ensures ControlInv(StartPublish(s, t, topic, event).value)
    ensures forall c: nat :: PhaseMoves(s, StartPublish(s, t, topic, event).value, t, c)
  {
    var s' := StartPublish(s, t, topic, event).value;
    assert ThreadOk(s, t) && LockHeldBy(s, t) && PhaseOk(s, 0);
    assert EntryOk(s, Topic(s, 0), 0) && EntryInUse(s, Topic(s, 0));
    ControlFrame(s, s', t, 0);
  }

  lemma RLockControl(s: State, t: nat)
    requires Inv(s) && RLock(s, t) != None
    ensures ControlInv(RLock(s, t).value) && forall c: nat :: PhaseMoves(s, RLock(s, t).value, t, c)
  {
    var s' := RLock(s, t).value;
    assert ThreadOk(s, t) && LockHeldBy(s, t) && PhaseOk(s, 0);
    assert EntryOk(s, Topic(s, 0), 0) && EntryInUse(s, Topic(s, 0));
    ControlFrame(s, s', t, 0);
  }

  /** A send attempt goes to an open channel, and does no more than offer it the event. */
  lemma TrySendOffers(s: State, t: nat, ch: nat)
    requires Inv(s) && TrySend(s, t, ch) != None
    ensures ChannelOk(Offer(s.chans[ch], At(s, t).id, At(s, t).event))
    ensures TrySend(s, t, ch).value
            == MoveTo(s, t, At(s, t).(todo := At(s, t).todo - {ch})).(
                 chans := s.chans[ch := Offer(s.chans[ch], At(s, t).id, At(s, t).event)])
  {
    assert PublishingOk(s, t) && EntryOk(s, At(s, t).topic, ch) && PhaseOk(s, ch);
    OfferKeepsChannel(s.chans[ch], At(s, t).id, At(s, t).event);
  }

  lemma OfferControl(s: State, s': State, t: nat, ch: nat)
    requires ControlInv(s) && At(s, t).PubSending? && ch in s.chans
    requires ChannelOk(Offer(s.chans[ch], At(s, t).id, At(s, t).event))
    requires s' == MoveTo(s, t, At(s, t).(todo := At(s, t).todo - {ch})).(
                     chans := s.chans[ch := Offer(s.chans[ch], At(s, t).id, At(s, t).event)])
    ensures ControlInv(s') && forall c: nat :: PhaseMoves(s, s', t, c)
  {
    assert ThreadOk(s, t) && LockHeldBy(s, t) && PhaseOk(s, ch);
    assert EntryOk(s, Topic(s, ch), ch) && EntryInUse(s, Topic(s, ch));
    ControlFrame(s, s', t, ch);
  }

  lemma TrySendControl(s: State, t: nat, ch: nat)
    requires Inv(s) && TrySend(s, t, ch) != None
    ensures ControlInv(TrySend(s, t, ch).value) && forall c: nat :: PhaseMoves(s, TrySend(s, t, ch).value, t, c)
  {
    TrySendOffers(s, t, ch);
    OfferControl(s, TrySend(s, t, ch).value, t, ch);
  }

  lemma RUnlockControl(s: State, t: nat)
    requires Inv(s) && RUnlock(s, t) != None
    ensures ControlInv(RUnlock(s, t).value) && forall c: nat :: PhaseMoves(s, RUnlock(s, t).value, t, c)
  {
    var s' := RUnlock(s, t).value;
    assert ThreadOk(s, t) && LockHeldBy(s, t) && PhaseOk(s, 0);
    assert EntryOk(s, Topic(s, 0), 0) && EntryInUse(s, Topic(s, 0));
    ControlFrame(s, s', t, 0);
  }

  /** Receiving is no step of a thread of the hub; it changes one buffer. */
  lemma ReceiveControl(s: State, ch: nat)
    requires Inv(s) && Receive(s, ch) != None
    ensures ControlInv(Receive(s, ch).value)
  {
    var s' := Receive(s, ch).value;
    assert PhaseOk(s, ch);
    ReceiveKeepsChannel(s.chans[ch]);
    forall u: nat ensures ThreadOk(s', u) && LockHeldBy(s', u) {
      assert ThreadOk(s, u) && LockHeldBy(s, u);
    }
    forall c: nat ensures PhaseOk(s', c) {
      assert PhaseOk(s, c);
    }
    forall k: string, c: nat ensures EntryOk(s', k, c) {
      assert EntryOk(s, k, c);
    }
    forall k: string ensures EntryInUse(s', k) {
      assert EntryInUse(s, k);
    }
  }

  lemma StartPublishDelivery(s: State, t: nat, topic: string, event: Event)
    requires Inv(s) && StartPublish(s, t, topic, event) != None
    ensures DeliveryInv(StartPublish(s, t, topic, event).value)
  {
    var s' := StartPublish(s, t, topic, event).value;
    assert FinishedOk(s, s.publications);
    forall u: nat ensures PublishingOk(s', u) {
      assert PublishingOk(s, u);
    }
    forall u: nat, v: nat ensures DistinctPublications(s', u, v) {
      assert DistinctPublications(s, u, v) && PublishingOk(s, u) && PublishingOk(s, v);
    }
    forall id: nat ensures FinishedOk(s', id) {
      assert FinishedOk(s, id);
    }
  }

  lemma RLockDelivery(s: State, t: nat)
    requires Inv(s) && RLock(s, t) != None
    ensures DeliveryInv(RLock(s, t).value)
  {
    var s' := RLock(s, t).value;
    forall u: nat ensures PublishingOk(s', u) {
      assert PublishingOk(s, u);
    }
    forall u: nat, v: nat ensures DistinctPublications(s', u, v) {
      assert DistinctPublications(s, u, v);
    }
    forall id: nat ensures FinishedOk(s', id) {
      assert FinishedOk(s, id);
    }
  }

  lemma TrySendDelivery(s: State, t: nat, ch: nat)
    requires Inv(s) && TrySend(s, t, ch) != None && !TrySend(s, t, ch).value.panicked
    ensures DeliveryInv(TrySend(s, t, ch).value)
  {
    var s', p := TrySend(s, t, ch).value, At(s, t);
    assert PublishingOk(s, t) && PhaseOk(s, ch);
    OfferKeepsChannel(s.chans[ch], p.id, p.event);
    forall u: nat ensures PublishingOk(s', u) {
      assert PublishingOk(s, u) && DistinctPublications(s, t, u);
    }
    forall u: nat, v: nat ensures DistinctPublications(s', u, v) {
      assert DistinctPublications(s, u, v);
    }
    forall id: nat ensures FinishedOk(s', id) {
      assert FinishedOk(s, id);
    }
  }

  lemma RUnlockDelivery(s: State, t: nat)
    requires Inv(s) && RUnlock(s, t) != None
    ensures DeliveryInv(RUnlock(s, t).value)
  {
    var s', p := RUnlock(s, t).value, At(s, t);
    assert PublishingOk(s, t);
    forall u: nat ensures PublishingOk(s', u) {
      assert PublishingOk(s, u) && DistinctPublications(s, t, u);
    }
    forall u: nat, v: nat ensures DistinctPublications(s', u, v) {
      assert DistinctPublications(s, u, v);
    }
    forall id: nat ensures FinishedOk(s', id) {
      assert FinishedOk(s, id);
      if id == p.id {
        assert forall ch :: ch in Subscribers(s, p.topic) ==> EntryOk(s, p.topic, ch);
        assert Subscribers(s, p.topic) - p.todo == Subscribers(s, p.topic);
      }
    }
  }

  lemma StepKeepsInv(s: State, step: Step)
    requires Inv(s) && Next(s, step) != None
    ensures Inv(Next(s, step).value)
  {
    StepKeepsControl(s, step);
    StepKeepsDelivery(s, step);
  }

  lemma StepKeepsControl(s: State, step: Step)
    requires Inv(s) && Next(s, step) != None
    ensures ControlInv(Next(s, step).value)
    ensures forall c: nat :: PhaseMoves(s, Next(s, step).value, step.thread, c)
  {
    var t := step.thread;
    match step.action {
      case DoStartSubscribe(topic, ch) => StartSubscribeControl(s, t, topic, ch);
      case DoLock => LockControl(s, t);
      case DoMakeEntry => MakeEntryControl(s, t);
      case DoInsert => InsertControl(s, t);
      case DoSubUnlock => SubUnlockControl(s, t);
      case DoStartCancel(ch) => StartCancelControl(s, t, ch);
      case DoDelete => DeleteControl(s, t);
      case DoPrune => PruneControl(s, t);
      case DoCancelUnlock => CancelUnlockControl(s, t);
      case DoClose => CloseControl(s, t);
      case DoStartPublish(topic, event) => StartPublishControl(s, t, topic, event);
      case DoRLock => RLockControl(s, t);
      case DoTrySend(ch) => TrySendControl(s, t, ch);
      case DoRUnlock => RUnlockControl(s, t);
      case DoReceive(ch) => ReceiveControl(s, ch);
    }
  }

  predicate IsPublishAction(a: Action) {
    a.DoStartPublish? || a.DoRLock? || a.DoTrySend? || a.DoRUnlock?
  }

  /** Nothing is offered, begun or finished: what a step outside Publish does to the delivery account. */
  ghost predicate Quiet(s: State, s': State) {
    && s'.publications == s.publications && s'.publishers == s.publishers && s'.finished == s.finished
    && (forall u: nat :: QuietPosition(s, s', u))
    && (forall ch: nat :: QuietChannel(s, s', ch))
  }

  predicate QuietPosition(s: State, s': State, u: nat) {
    At(s', u) == At(s, u) || !IsPublishing(At(s', u))
  }

  predicate QuietChannel(s: State, s': State, ch: nat) {
    && (ch in s.chans ==> ch in s'.chans && s'.chans[ch].attempts == s.chans[ch].attempts)
    && (ch in s'.chans && ch !in s.chans ==> s'.chans[ch].attempts == [])
  }

  lemma StartSubscribeIsQuiet(s: State, t: nat, topic: string, ch: nat)
    requires StartSubscribe(s, t, topic, ch) != None
    ensures Quiet(s, StartSubscribe(s, t, topic, ch).value)
  {
  }

  lemma LockIsQuiet(s: State, t: nat)
    requires Lock(s, t) != None
    ensures Quiet(s, Lock(s, t).value)
  {
  }

  lemma MakeEntryIsQuiet(s: State, t: nat)
    requires MakeEntry(s, t) != None
    ensures Quiet(s, MakeEntry(s, t).value)
  {
  }

  lemma InsertIsQuiet(s: State, t: nat)
    requires Insert(s, t) != None
    ensures Quiet(s, Insert(s, t).value)
  {
  }

  lemma SubUnlockIsQuiet(s: State, t: nat)
    requires SubUnlock(s, t) != None
    ensures Quiet(s, SubUnlock(s, t).value)
  {
  }

  lemma StartCancelIsQuiet(s: State, t: nat, ch: nat)
    requires StartCancel(s, t, ch) != None
    ensures Quiet(s, StartCancel(s, t, ch).value)
  {
  }

  lemma DeleteIsQuiet(s: State, t: nat)
    requires Delete(s, t) != None
    ensures Quiet(s, Delete(s, t).value)
  {
  }

  lemma PruneIsQuiet(s: State, t: nat)
    requires Prune(s, t) != None
    ensures Quiet(s, Prune(s, t).value)
  {
  }

  lemma CancelUnlockIsQuiet(s: State, t: nat)
    requires CancelUnlock(s, t) != None
    ensures Quiet(s, CancelUnlock(s, t).value)
  {
  }

  lemma CloseIsQuiet(s: State, t: nat)
    requires Close(s, t) != None
    ensures Quiet(s, Close(s, t).value)
  {
  }

  lemma ReceiveIsQuiet(s: State, ch: nat)
    requires Receive(s, ch) != None
    ensures Quiet(s, Receive(s, ch).value)
  {
  }

  lemma StepIsQuiet(s: State, step: Step)
    requires Next(s, step) != None && !IsPublishAction(step.action)
    ensures Quiet(s, Next(s, step).value)
  {
    var t := step.thread;
    match step.action {
      case DoStartSubscribe(topic, ch) => StartSubscribeIsQuiet(s, t, topic, ch);
      case DoLock => LockIsQuiet(s, t);
      case DoMakeEntry => MakeEntryIsQuiet(s, t);
      case DoInsert => InsertIsQuiet(s, t);
      case DoSubUnlock => SubUnlockIsQuiet(s, t);
      case DoStartCancel(ch) => StartCancelIsQuiet(s, t, ch);
      case DoDelete => DeleteIsQuiet(s, t);
      case DoPrune => PruneIsQuiet(s, t);
      case DoCancelUnlock => CancelUnlockIsQuiet(s, t);
      case DoClose => CloseIsQuiet(s, t);
      case DoReceive(ch) => ReceiveIsQuiet(s, ch);
    }
  }

  /** While somebody publishes, nobody holds the write lock, and no entry changes. */
  lemma QuietEntries(s: State, step: Step, u: nat)
    requires ControlInv(s) && Next(s, step) != None && !IsPublishAction(step.action)
    requires At(s, u).PubSending?
    ensures Next(s, step).value.subs == s.subs
  {
    assert LockHeldBy(s, u) && LockHeldBy(s, step.thread);
  }

  lemma StepKeepsDelivery(s: State, step: Step)
    requires Inv(s) && Next(s, step) != None
    ensures DeliveryInv(Next(s, step).value)
  {
    var t := step.thread;
    StepKeepsControl(s, step);
    match step.action {
      case DoStartPublish(topic, event) => StartPublishDelivery(s, t, topic, event);
      case DoRLock => RLockDelivery(s, t);
      case DoTrySend(ch) => TrySendDelivery(s, t, ch);
      case DoRUnlock => RUnlockDelivery(s, t);
      case _ => QuietDelivery(s, step);
    }
  }

  lemma QuietDelivery(s: State, step: Step)
    requires Inv(s) && Next(s, step) != None && !IsPublishAction(step.action)
    ensures DeliveryInv(Next(s, step).value)
  {
    var s' := Next(s, step).value;
    StepIsQuiet(s, step);
    forall u: nat ensures At(s', u) == At(s, u) || !IsPublishing(At(s', u)) {
      assert QuietPosition(s, s', u);
    }
    forall ch: nat
      ensures ch in s.chans ==> ch in s'.chans && s'.chans[ch].attempts == s.chans[ch].attempts
      ensures ch in s'.chans && ch !in s.chans ==> s'.chans[ch].attempts == []
    {
      assert QuietChannel(s, s', ch);
    }
    forall u: nat | At(s, u).PubSending?
      ensures Subscribers(s', At(s, u).topic) == Subscribers(s, At(s, u).topic)
    {
      QuietEntries(s, step, u);
    }
    DeliveryFrame(s, s');
  }

  lemma {:induction false} RunKeepsInv(steps: seq<Step>)
    requires Run(steps) != None
    ensures Inv(Run(steps).value)
    decreases |steps|
  {
    if steps != [] {
      var front := steps[..|steps| - 1];
      RunKeepsInv(front);
      StepKeepsInv(Run(front).value, steps[|steps| - 1]);
    }
  }

  // ---- what every interleaving guarantees -----------------------------------------

  /** No run panics: nothing is sent on, and nothing closes, a closed channel. */
  lemma NeverPanics(steps: seq<Step>, t: nat)
    requires Run(steps) != None
    ensures !Run(steps).value.panicked
    ensures var s := Run(steps).value;
            && (At(s, t).CancelUnlocked? ==> At(s, t).ch in s.chans && !s.chans[At(s, t).ch].closed)
            && (At(s, t).PubSending? ==> forall ch :: ch in At(s, t).todo ==> ch in s.chans && !s.chans[ch].closed)
  {
    var s := Run(steps).value;
    RunKeepsInv(steps);
    assert ThreadOk(s, t) && PublishingOk(s, t);
    if At(s, t).CancelUnlocked? {
      assert PhaseOk(s, At(s, t).ch);
    } else if At(s, t).PubSending? {
      forall ch | ch in At(s, t).todo ensures ch in s.chans && !s.chans[ch].closed {
        assert EntryOk(s, At(s, t).topic, ch) && PhaseOk(s, ch);
      }
    }
  }

  /**
   Which steps are possible in a reachable state: what a thread does next follows from where
   it is, the write lock waits for everybody and a read lock for the writer, and cancel waits
   only while another call is inside the once.
   */
  lemma PossibleExactly(steps: seq<Step>, t: nat, a: Action)
    requires Run(steps) != None
    ensures var s := Run(steps).value;
            var p := At(s, t);
            Next(s, Step(t, a)) != None <==>
            match a
            case DoStartSubscribe(_, ch) => p == Idle && ch !in s.chans
            case DoLock => (p.SubWaiting? || p.CancelWaiting?) && s.writer == None && s.readers == {}
            case DoMakeEntry => p.SubLocked?
            case DoInsert => p.SubEntered?
            case DoSubUnlock => p.SubAdded?
            case DoStartCancel(ch) => p == Idle && ch in s.chans && s.chans[ch].phase in {Live, Cancelled}
            case DoDelete => p.CancelLocked?
            case DoPrune => p.CancelDeleted?
            case DoCancelUnlock => p.CancelPruned?
            case DoClose => p.CancelUnlocked?
            case DoStartPublish(_, _) => p == Idle
            case DoRLock => p.PubWaiting? && s.writer == None
            case DoTrySend(ch) => p.PubSending? && ch in p.todo
            case DoRUnlock => p.PubSending? && p.todo == {}
            case DoReceive(ch) => ch in s.chans && s.chans[ch].buffer != []
  {
    NeverPanics(steps, t);
    assert ThreadOk(Run(steps).value, t) by {
      RunKeepsInv(steps);
    }
  }

  /**
   What one step does to a channel: a send adds the publisher's event behind at most 15
   others and is lost behind 16, a receive takes the oldest, and nothing else touches what
   is buffered, received or offered.
   */
  ghost predicate ChannelAfter(s: State, step: Step, ch: nat, c: Channel, c': Channel) {
    && c'.topic == c.topic
    && if step.action == DoTrySend(ch) then
         && At(s, step.thread).PubSending? && ch in At(s, step.thread).todo && c'.received == c.received
         && c'.buffer == (if |c.buffer| < 16 then c.buffer + [At(s, step.thread).event] else c.buffer)
         && c'.attempts == c.attempts + [Attempt(At(s, step.thread).id, At(s, step.thread).event, |c.buffer| == 16)]
       else if step.action == DoReceive(ch) then
         && c.buffer != [] && c'.buffer == c.buffer[1..] && c'.received == c.received + [c.buffer[0]]
         && c'.attempts == c.attempts
       else c'.buffer == c.buffer && c'.received == c.received && c'.attempts == c.attempts
  }

  /** That holds of every step of every run; and a channel begins empty, on the topic asked for. */
  lemma StepOnChannel(steps: seq<Step>, step: Step, ch: nat)
    requires Run(steps) != None && Next(Run(steps).value, step) != None
    ensures var s, s' := Run(steps).value, Next(Run(steps).value, step).value;
            && (ch in s.chans ==> ch in s'.chans && ChannelAfter(s, step, ch, s.chans[ch], s'.chans[ch]))
            && (ch !in s.chans && ch in s'.chans ==>
                  && step.action.DoStartSubscribe? && step.action.ch == ch
                  && s'.chans[ch] == Channel(step.action.topic, [], [], [], false, Making(step.thread)))
  {
    var s := Run(steps).value;
    RunKeepsInv(steps);
    StepKeepsInv(s, step);
    assert PhaseOk(s, ch);
    match step.action {
      case DoTrySend(c) => SendOnChannel(s, step.thread, c, ch);
      case DoStartPublish(topic, event) =>
      case DoRLock =>
      case DoRUnlock =>
      case DoReceive(c) =>
      case DoStartSubscribe(topic, c) =>
      case DoStartCancel(c) =>
      case DoDelete =>
      case DoPrune =>
      case DoCancelUnlock =>
      case DoClose =>
      case _ => PhaseOnly(s, step, ch);
    }
  }

  /** The steps of a subscription under the lock change at most the phase of a channel. */
  lemma PhaseOnly(s: State, step: Step, ch: nat)
    requires Next(s, step) != None
    requires step.action in {DoLock, DoMakeEntry, DoInsert, DoSubUnlock}
    ensures ch in s.chans <==> ch in Next(s, step).value.chans
    ensures ch in s.chans ==>
              var c, c' := s.chans[ch], Next(s, step).value.chans[ch];
              c'.topic == c.topic && c'.buffer == c.buffer && c'.received == c.received && c'.attempts == c.attempts
  {
  }

  lemma SendOnChannel(s: State, t: nat, to: nat, ch: nat)
    requires TrySend(s, t, to) != None && !TrySend(s, t, to).value.panicked
    requires ch in s.chans ==> |s.chans[ch].buffer| <= 16
    ensures var s' := TrySend(s, t, to).value;
            && (ch in s'.chans <==> ch in s.chans)
            && (ch in s.chans ==> ChannelAfter(s, Step(t, DoTrySend(to)), ch, s.chans[ch], s'.chans[ch]))
  {
  }

  /** A step of a call that has begun. */
  predicate InProgress(a: Action) {
    !a.DoStartSubscribe? && !a.DoStartCancel? && !a.DoStartPublish? && !a.DoReceive?
  }

  /** The step that the holder of the write lock is about to take. */
  function HolderAction(p: Position): Action {
    match p
    case SubLocked(_) => DoMakeEntry
    case SubEntered(_) => DoInsert
    case SubAdded(_) => DoSubUnlock
    case CancelLocked(_) => DoDelete
    case CancelDeleted(_) => DoPrune
    case _ => DoCancelUnlock
  }

  /** What a thread outside the write lock does next; a publisher picks any channel it has not served. */
  function OtherAction(p: Position, ch: nat): Action {
    match p
    case SubWaiting(_) => DoLock
    case CancelWaiting(_) => DoLock
    case PubWaiting(_, _, _) => DoRLock
    case PubSending(_, _, _, todo) => if todo == {} then DoRUnlock else DoTrySend(ch)
    case _ => DoClose
  }

  /**
   There is no deadlock: in every reachable state in which a call has begun and not
   ended, some such call can go on, whether or not anybody receives.
   */
  lemma SomebodyCanGoOn(steps: seq<Step>, t: nat)
    requires Run(steps) != None && At(Run(steps).value, t) != Idle
    ensures exists step: Step :: InProgress(step.action) && Next(Run(steps).value, step) != None
  {
    var s := Run(steps).value;
    RunKeepsInv(steps);
    assert ThreadOk(s, t) && LockHeldBy(s, t);
    if s.writer != None {
      HolderCanGoOn(s, s.writer.value);
    } else if s.readers != {} {
      var r :| r in s.readers;
      ReaderCanGoOn(s, r);
    } else {
      assert Next(s, Step(t, OtherAction(At(s, t), 0))) != None;
    }
  }

  lemma HolderCanGoOn(s: State, w: nat)
    requires Inv(s) && s.writer == Some(w)
    ensures exists step: Step :: InProgress(step.action) && Next(s, step) != None
  {
    assert ThreadOk(s, w) && LockHeldBy(s, w);
    assert Next(s, Step(w, HolderAction(At(s, w)))) != None;
  }

  lemma ReaderCanGoOn(s: State, r: nat)
    requires Inv(s) && r in s.readers
    ensures exists step: Step :: InProgress(step.action) && Next(s, step) != None
  {
    assert LockHeldBy(s, r) && PublishingOk(s, r);
    var ch: nat := 0;
    if At(s, r).todo != {} {
      ch :| ch in At(s, r).todo;
      assert EntryOk(s, At(s, r).topic, ch);
    }
    assert Next(s, Step(r, OtherAction(At(s, r), ch))) != None;
  }

  /**
   Buffers hold at most 16 events, and what a subscriber received or has buffered is,
   in order, what it was offered while its buffer had room.
   */
  lemma ReceivedIsAccepted(steps: seq<Step>, ch: nat)
    requires Run(steps) != None && ch in Run(steps).value.chans
    ensures var c := Run(steps).value.chans[ch];
            |c.buffer| <= 16 && c.received + c.buffer == Accepted(c.attempts)
  {
    RunKeepsInv(steps);
    assert PhaseOk(Run(steps).value, ch);
  }

  /** With the lock free, the entries are the live or about-to-be-cancelled channels, and none is empty. */
  lemma EntriesWhenUnlocked(steps: seq<Step>, topic: string)
    requires Run(steps) != None && Run(steps).value.writer == None
    ensures var s := Run(steps).value;
            && (topic in s.subs ==> s.subs[topic] != {})
            && forall ch :: ch in Subscribers(s, topic) <==>
                 && ch in s.chans && s.chans[ch].topic == topic
                 && (s.chans[ch].phase == Live
                     || (s.chans[ch].phase.Cancelling?
                         && At(s, s.chans[ch].phase.canceller).CancelWaiting?))
  {
    var s := Run(steps).value;
    RunKeepsInv(steps);
    assert EntryInUse(s, topic);
    forall ch: nat
      ensures ch in Subscribers(s, topic) <==>
                && ch in s.chans && s.chans[ch].topic == topic
                && (s.chans[ch].phase == Live
                    || (s.chans[ch].phase.Cancelling?
                        && At(s, s.chans[ch].phase.canceller).CancelWaiting?))
    {
      assert EntryOk(s, topic, ch) && PhaseOk(s, ch);
      if ch in s.chans && s.chans[ch].phase.Making? {
        assert LockHeldBy(s, s.chans[ch].phase.maker);
      }
      if ch in s.chans && s.chans[ch].phase.Cancelling? {
        assert LockHeldBy(s, s.chans[ch].phase.canceller);
      }
    }
  }

  /**
   When a publication ends, it has been offered once to every live channel of its topic,
   and to those whose cancellation still waits for the lock; to no other channel.
   */
  lemma PublicationReachesTopic(steps: seq<Step>, t: nat, ch: nat)
    requires Run(steps) != None && Next(Run(steps).value, Step(t, DoRUnlock)) != None
    requires ch in Run(steps).value.chans
    ensures var s := Run(steps).value;
            var c := s.chans[ch];
            && At(s, t).PubSending?
            && (Offers(c.attempts, At(s, t).id)
                == if c.topic == At(s, t).topic
                      && (c.phase == Live || (c.phase.Cancelling? && At(s, c.phase.canceller).CancelWaiting?))
                   then 1 else 0)
            && At(s, t).id in Next(s, Step(t, DoRUnlock)).value.finished
  {
    var s := Run(steps).value;
    RunKeepsInv(steps);
    assert PublishingOk(s, t) && LockHeldBy(s, t);
    EntriesWhenUnlocked(steps, At(s, t).topic);
    assert Subscribers(s, At(s, t).topic) - At(s, t).todo == Subscribers(s, At(s, t).topic);
  }

  /** The publications that have begun, in order: topic and event. */
  function Published(steps: seq<Step>): seq<(string, Event)> {
    if steps == [] then []
    else
      var front := Published(steps[..|steps| - 1]);
      match steps[|steps| - 1].action
      case DoStartPublish(topic, event) => front + [(topic, event)]
      case _ => front
  }

  predicate PositionTrue(s: State, pubs: seq<(string, Event)>, t: nat) {
    IsPublishing(At(s, t)) ==>
      At(s, t).id < |pubs| && pubs[At(s, t).id] == (At(s, t).topic, At(s, t).event)
  }

  ghost predicate ChannelTrue(s: State, pubs: seq<(string, Event)>, ch: nat) {
    ch in s.chans ==> forall i :: 0 <= i < |s.chans[ch].attempts| ==> AttemptTrue(s.chans[ch], pubs, i)
  }

  predicate AttemptTrue(c: Channel, pubs: seq<(string, Event)>, i: nat)
    requires i < |c.attempts|
  {
    c.attempts[i].publication < |pubs| && pubs[c.attempts[i].publication] == (c.topic, c.attempts[i].event)
  }

  ghost predicate ContentInv(s: State, pubs: seq<(string, Event)>) {
    && |pubs| == s.publications
    && (forall t: nat :: PositionTrue(s, pubs, t))
    && (forall ch: nat :: ChannelTrue(s, pubs, ch))
  }

  lemma MorePublications(c: Channel, pubs: seq<(string, Event)>, more: seq<(string, Event)>)
    requires |pubs| <= |more| && more[..|pubs|] == pubs
    requires forall i :: 0 <= i < |c.attempts| ==> AttemptTrue(c, pubs, i)
    ensures forall i :: 0 <= i < |c.attempts| ==> AttemptTrue(c, more, i)
  {
    forall i | 0 <= i < |c.attempts| ensures AttemptTrue(c, more, i) {
      assert AttemptTrue(c, pubs, i);
      assert more[c.attempts[i].publication] == more[..|pubs|][c.attempts[i].publication];
    }
  }

  lemma {:induction false} RunKeepsContent(steps: seq<Step>)
    requires Run(steps) != None
    ensures ContentInv(Run(steps).value, Published(steps))
    decreases |steps|
  {
    if steps != [] {
      var front, step := steps[..|steps| - 1], steps[|steps| - 1];
      RunKeepsContent(front);
      var s, s', pubs, more := Run(front).value, Run(steps).value, Published(front), Published(steps);
      assert more[..|pubs|] == pubs;
      forall t: nat ensures PositionTrue(s', more, t) {
        assert PositionTrue(s, pubs, t) && PositionTrue(s, pubs, step.thread);
        assert IsPublishing(At(s, t)) ==> more[At(s, t).id] == more[..|pubs|][At(s, t).id];
        StepKeepsPosition(s, step, pubs, more, t);
      }
      forall ch: nat ensures ChannelTrue(s', more, ch) {
        StepKeepsContent(front, step, pubs, more, ch);
      }
      StepCountsPublications(s, step);
    }
  }

  lemma StepCountsPublications(s: State, step: Step)
    requires Next(s, step) != None
    ensures Next(s, step).value.publications == s.publications + if step.action.DoStartPublish? then 1 else 0
  {
    if !IsPublishAction(step.action) {
      StepIsQuiet(s, step);
    }
  }

  lemma StepKeepsPosition(s: State, step: Step, pubs: seq<(string, Event)>, more: seq<(string, Event)>, t: nat)
    requires Next(s, step) != None && |pubs| == s.publications
    requires more == match step.action
                     case DoStartPublish(topic, event) => pubs + [(topic, event)]
                     case _ => pubs
    requires PositionTrue(s, pubs, t)
    ensures PositionTrue(Next(s, step).value, more, t)
  {
    var u := step.thread;
    match step.action {
      case DoStartPublish(topic, event) =>
        assert At(StartPublish(s, u, topic, event).value, t)
            == if t == u then PubWaiting(s.publications, topic, event) else At(s, t);
      case DoRLock => RLockMovesOn(s, u, t);
      case DoTrySend(ch) => TrySendMovesOn(s, u, ch, t);
      case DoRUnlock => assert RUnlock(s, u).value.at == s.at[u := Idle];
      case _ =>
        StepIsQuiet(s, step);
        assert QuietPosition(s, Next(s, step).value, t);
    }
  }

  /** A publishing thread keeps its publication until it ends. */
  predicate SamePublication(p: Position, p': Position) {
    p' == p || (IsPublishing(p) && IsPublishing(p') && p'.id == p.id && p'.topic == p.topic && p'.event == p.event)
  }

  lemma RLockMovesOn(s: State, u: nat, t: nat)
    requires RLock(s, u) != None
    ensures SamePublication(At(s, t), At(RLock(s, u).value, t))
  {
  }

  lemma TrySendMovesOn(s: State, u: nat, ch: nat, t: nat)
    requires TrySend(s, u, ch) != None
    ensures SamePublication(At(s, t), At(TrySend(s, u, ch).value, t))
  {
  }

  lemma StepKeepsContent(
    steps: seq<Step>, step: Step, pubs: seq<(string, Event)>, more: seq<(string, Event)>, ch: nat)
    requires Run(steps) != None && Next(Run(steps).value, step) != None
    requires ContentInv(Run(steps).value, pubs) && |pubs| <= |more| && more[..|pubs|] == pubs
    ensures ChannelTrue(Next(Run(steps).value, step).value, more, ch)
  {
    var s, s' := Run(steps).value, Next(Run(steps).value, step).value;
    StepOnChannel(steps, step, ch);
    assert ChannelTrue(s, pubs, ch);
    if ch in s.chans && ch in s'.chans {
      var c, c', t := s.chans[ch], s'.chans[ch], step.thread;
      MorePublications(c, pubs, more);
      assert forall i :: 0 <= i < |c.attempts| ==> AttemptTrue(c, more, i);
      if step.action == DoTrySend(ch) {
        RunKeepsInv(steps);
        assert PositionTrue(s, pubs, t) && PublishingOk(s, t) && EntryOk(s, At(s, t).topic, ch);
        assert more[At(s, t).id] == more[..|pubs|][At(s, t).id];
      }
      forall i | 0 <= i < |c'.attempts| ensures AttemptTrue(c', more, i) {
        assert i < |c.attempts| ==> AttemptTrue(c, more, i);
      }
    }
  }

  /** Over every run: what a subscriber is offered is an event published on its topic. */
  lemma OfferedWasPublished(steps: seq<Step>, ch: nat, i: nat)
    requires Run(steps) != None && ch in Run(steps).value.chans
    requires i < |Run(steps).value.chans[ch].attempts|
    ensures var c := Run(steps).value.chans[ch];
            && c.attempts[i].publication < |Published(steps)|
            && Published(steps)[c.attempts[i].publication] == (c.topic, c.attempts[i].event)
  {
    RunKeepsContent(steps);
    assert ChannelTrue(Run(steps).value, Published(steps), ch);
    assert AttemptTrue(Run(steps).value.chans[ch], Published(steps), i);
  }

  /** A publication that ended was offered exactly once to each subscriber its topic had, and to no other. */
  lemma PublishedExactlyOnce(steps: seq<Step>, id: nat, ch: nat)
    requires Run(steps) != None && id in Run(steps).value.finished && ch in Run(steps).value.chans
    ensures var s := Run(steps).value;
            Offers(s.chans[ch].attempts, id) == if ch in s.finished[id] then 1 else 0
  {
    RunKeepsInv(steps);
    assert FinishedOk(Run(steps).value, id);
  }

  function PhaseOf(s: State, ch: nat): Option<Phase> {
    if ch in s.chans then Some(s.chans[ch].phase) else None
  }

  /** The step takes the channel's once: the call of cancel that has an effect. */
  predicate EntersOnce(s: State, step: Step, ch: nat) {
    step.action == DoStartCancel(ch) && PhaseOf(s, ch) == Some(Live)
  }

  predicate Closes(s: State, step: Step, ch: nat) {
    step.action == DoClose && At(s, step.thread) == CancelUnlocked(ch)
  }

  /** The only four ways in which a channel's phase moves. */
  function PhaseAfter(s: State, step: Step, ch: nat): Option<Phase> {
    var t := step.thread;
    if step.action.DoStartSubscribe? && step.action.ch == ch then Some(Making(t))
    else if step.action.DoSubUnlock? && At(s, t) == SubAdded(ch) then Some(Live)
    else if EntersOnce(s, step, ch) then Some(Cancelling(t))
    else if Closes(s, step, ch) then Some(Cancelled)
    else PhaseOf(s, ch)
  }

  lemma CloseMovesPhase(s: State, t: nat, ch: nat)
    requires Inv(s) && Close(s, t) != None
    ensures PhaseOf(Close(s, t).value, ch) == PhaseAfter(s, Step(t, DoClose), ch)
  {
    assert ThreadOk(s, t) && PhaseOk(s, At(s, t).ch);
  }

  lemma PublishMovesNoPhase(s: State, step: Step, ch: nat)
    requires Next(s, step) != None && IsPublishAction(step.action)
    ensures PhaseOf(Next(s, step).value, ch) == PhaseOf(s, ch)
  {
  }

  predicate IsSubscribeAction(a: Action) {
    a.DoStartSubscribe? || a.DoLock? || a.DoMakeEntry? || a.DoInsert? || a.DoSubUnlock?
  }

  lemma SubscribeMovesPhase(s: State, step: Step, ch: nat)
    requires Next(s, step) != None && IsSubscribeAction(step.action)
    ensures PhaseOf(Next(s, step).value, ch) == PhaseAfter(s, step, ch)
  {
  }

  lemma CancelMovesPhase(s: State, step: Step, ch: nat)
    requires Next(s, step) != None && !IsSubscribeAction(step.action) && !IsPublishAction(step.action)
    requires !step.action.DoClose?
    ensures PhaseOf(Next(s, step).value, ch) == PhaseAfter(s, step, ch)
  {
  }

  lemma StepMovesPhase(s: State, step: Step, ch: nat)
    requires Inv(s) && Next(s, step) != None
    ensures PhaseOf(Next(s, step).value, ch) == PhaseAfter(s, step, ch)
  {
    if step.action.DoClose? {
      CloseMovesPhase(s, step.thread, ch);
    } else if IsPublishAction(step.action) {
      PublishMovesNoPhase(s, step, ch);
    } else if IsSubscribeAction(step.action) {
      SubscribeMovesPhase(s, step, ch);
    } else {
      CancelMovesPhase(s, step, ch);
    }
  }

  function Count(b: bool): nat {
    if b then 1 else 0
  }

  /** How many calls of the channel's cancel function had an effect in a run. */
  function Entrances(steps: seq<Step>, ch: nat): nat {
    if steps == [] || Run(steps[..|steps| - 1]) == None then 0
    else
      Entrances(steps[..|steps| - 1], ch)
      + Count(EntersOnce(Run(steps[..|steps| - 1]).value, steps[|steps| - 1], ch))
  }

  /** How often the channel was closed in a run. */
  function Closings(steps: seq<Step>, ch: nat): nat {
    if steps == [] || Run(steps[..|steps| - 1]) == None then 0
    else
      Closings(steps[..|steps| - 1], ch)
      + Count(Closes(Run(steps[..|steps| - 1]).value, steps[|steps| - 1], ch))
  }

  /**
   Over every run, however often and from however many threads cancel is called, at most
   one call of it has an effect, and the channel is closed exactly once: by that call.
   */
  lemma {:induction false} CancelTakesEffectOnce(steps: seq<Step>, ch: nat)
    requires Run(steps) != None
    ensures var phase := PhaseOf(Run(steps).value, ch);
            && Entrances(steps, ch)
               == (if phase != None && (phase.value.Cancelling? || phase.value.Cancelled?) then 1 else 0)
            && Closings(steps, ch) == (if phase == Some(Cancelled) then 1 else 0)
    decreases |steps|
  {
    if steps != [] {
      var front, step := steps[..|steps| - 1], steps[|steps| - 1];
      var s := Run(front).value;
      CancelTakesEffectOnce(front, ch);
      RunKeepsInv(front);
      StepMovesPhase(s, step, ch);
      assert ThreadOk(s, step.thread);
    }
  }

  /** A call of cancel on a channel that is not live waits, is not possible yet, or changes nothing. */
  lemma LaterCancelIsNoStep(steps: seq<Step>, t: nat, ch: nat)
    requires Run(steps) != None && Entrances(steps, ch) > 0
    ensures var r := Next(Run(steps).value, Step(t, DoStartCancel(ch)));
            r == None || r == Some(Run(steps).value)
  {
    CancelTakesEffectOnce(steps, ch);
  }

  /** After cancellation the channel stays closed, and is never offered anything more. */
  lemma CancelledIsFinal(steps: seq<Step>, step: Step, ch: nat)
    requires Run(steps) != None && ch in Run(steps).value.chans
    requires Run(steps).value.chans[ch].phase == Cancelled
    requires Next(Run(steps).value, step) != None
    ensures var s, s' := Run(steps).value, Next(Run(steps).value, step).value;
            && s.chans[ch].closed
            && ch in s'.chans && s'.chans[ch].phase == Cancelled
            && s'.chans[ch].attempts == s.chans[ch].attempts
  {
    var s := Run(steps).value;
    RunKeepsInv(steps);
    assert PhaseOk(s, ch);
    if IsPublishAction(step.action) {
      CancelledNotSent(s, step, ch);
    } else {
      StepIsQuiet(s, step);
      assert QuietChannel(s, Next(s, step).value, ch);
    }
    CancelledStays(s, step, ch);
  }

  lemma CancelledNotSent(s: State, step: Step, ch: nat)
    requires Inv(s) && ch in s.chans && s.chans[ch].phase == Cancelled
    requires Next(s, step) != None && IsPublishAction(step.action)
    ensures ch in Next(s, step).value.chans
    ensures Next(s, step).value.chans[ch].attempts == s.chans[ch].attempts
  {
    if step.action.DoTrySend? {
      assert PublishingOk(s, step.thread);
      assert EntryOk(s, At(s, step.thread).topic, step.action.ch);
    }
  }

  lemma CancelledStays(s: State, step: Step, ch: nat)
    requires Inv(s) && ch in s.chans && s.chans[ch].phase == Cancelled && Next(s, step) != None
    ensures ch in Next(s, step).value.chans && Next(s, step).value.chans[ch].phase == Cancelled
  {
    StepKeepsControl(s, step);
    assert PhaseMoves(s, Next(s, step).value, step.thread, ch);
  }

  // ---- the order of one publisher -------------------------------------------------------

  /** One subscriber was offered a thread's publications in the order in which it made them. */
  ghost predicate InOrder(s: State, ch: nat) {
    ch in s.chans ==>
      var a := s.chans[ch].attempts;
      && (forall i :: 0 <= i < |a| ==> a[i].publication in s.publishers)
      && forall i, j :: 0 <= i < j < |a| && s.publishers[a[i].publication] == s.publishers[a[j].publication]
           ==> a[i].publication < a[j].publication
  }

  /** A thread that is publishing has made no later publication. */
  ghost predicate LatestOk(s: State, t: nat) {
    IsPublishing(At(s, t)) ==>
      && At(s, t).id in s.publishers && s.publishers[At(s, t).id] == t
      && forall id :: id in s.publishers && s.publishers[id] == t ==> id <= At(s, t).id
  }

  ghost predicate OrderInv(s: State) {
    && (forall id: nat :: id in s.publishers <==> id < s.publications)
    && (forall t: nat :: LatestOk(s, t))
    && (forall ch: nat :: InOrder(s, ch))
  }

  lemma {:induction false} NoOffers(attempts: seq<Attempt>, id: nat)
    requires Offers(attempts, id) == 0
    ensures forall i :: 0 <= i < |attempts| ==> attempts[i].publication != id
    decreases |attempts|
  {
    if attempts != [] {
      NoOffers(attempts[..|attempts| - 1], id);
    }
  }

  lemma QuietKeepsOrder(s: State, s': State)
    requires OrderInv(s) && Quiet(s, s')
    ensures OrderInv(s')
  {
    forall t: nat ensures LatestOk(s', t) {
      assert LatestOk(s, t) && QuietPosition(s, s', t);
    }
    forall ch: nat ensures InOrder(s', ch) {
      assert InOrder(s, ch) && QuietChannel(s, s', ch);
    }
  }

  lemma StartPublishKeepsOrder(s: State, t: nat, topic: string, event: Event)
    requires OrderInv(s) && StartPublish(s, t, topic, event) != None
    ensures OrderInv(StartPublish(s, t, topic, event).value)
  {
    var s' := StartPublish(s, t, topic, event).value;
    forall u: nat ensures LatestOk(s', u) {
      assert LatestOk(s, u);
    }
    forall ch: nat ensures InOrder(s', ch) {
      assert InOrder(s, ch);
    }
  }

  lemma TrySendKeepsOrder(s: State, t: nat, ch: nat)
    requires Inv(s) && OrderInv(s) && TrySend(s, t, ch) != None
    ensures OrderInv(TrySend(s, t, ch).value)
  {
    var s', id := TrySend(s, t, ch).value, At(s, t).id;
    TrySendOffers(s, t, ch);
    assert PublishingOk(s, t) && LatestOk(s, t);
    NoOffers(s.chans[ch].attempts, id);
    forall u: nat ensures LatestOk(s', u) {
      assert LatestOk(s, u);
    }
    forall c: nat ensures InOrder(s', c) {
      assert InOrder(s, c);
    }
  }

  lemma LockStepsKeepOrder(s: State, t: nat)
    requires OrderInv(s)
    ensures RLock(s, t) != None ==> OrderInv(RLock(s, t).value)
    ensures RUnlock(s, t) != None ==> OrderInv(RUnlock(s, t).value)
  {
    if RLock(s, t) != None {
      forall u: nat ensures LatestOk(RLock(s, t).value, u) {
        assert LatestOk(s, u);
      }
      forall ch: nat ensures InOrder(RLock(s, t).value, ch) {
        assert InOrder(s, ch);
      }
    }
    if RUnlock(s, t) != None {
      forall u: nat ensures LatestOk(RUnlock(s, t).value, u) {
        assert LatestOk(s, u);
      }
      forall ch: nat ensures InOrder(RUnlock(s, t).value, ch) {
        assert InOrder(s, ch);
      }
    }
  }

  lemma {:induction false} RunKeepsOrder(steps: seq<Step>)
    requires Run(steps) != None
    ensures OrderInv(Run(steps).value)
    decreases |steps|
  {
    if steps != [] {
      var front, step := steps[..|steps| - 1], steps[|steps| - 1];
      var s := Run(front).value;
      RunKeepsOrder(front);
      RunKeepsInv(front);
      match step.action {
        case DoStartPublish(topic, event) => StartPublishKeepsOrder(s, step.thread, topic, event);
        case DoRLock => LockStepsKeepOrder(s, step.thread);
        case DoTrySend(ch) => TrySendKeepsOrder(s, step.thread, ch);
        case DoRUnlock => LockStepsKeepOrder(s, step.thread);
        case _ =>
          StepIsQuiet(s, step);
          QuietKeepsOrder(s, Next(s, step).value);
      }
    }
  }

  /**
   Over every run each subscriber is offered the events of one publisher in the order in
   which they were published, whatever other publishers do in between.
   */
  lemma OfferedInPublishingOrder(steps: seq<Step>, ch: nat, i: nat, j: nat)
    requires Run(steps) != None && ch in Run(steps).value.chans
    requires i < j < |Run(steps).value.chans[ch].attempts|
    ensures var s := Run(steps).value;
            var first, second := s.chans[ch].attempts[i].publication, s.chans[ch].attempts[j].publication;
            && first in s.publishers && second in s.publishers
            && (s.publishers[first] == s.publishers[second] ==> first < second)
  {
    RunKeepsOrder(steps);
    assert InOrder(Run(steps).value, ch);
  }

  // ---- one publication, in whatever order the map is walked ----------------------------

  /** The channels after a publication: each target offered the event, the others as before. */
  function FanOut(chans: map<nat, Channel>, targets: set<nat>, id: nat, event: Event): map<nat, Channel> {
    map ch | ch in chans :: if ch in targets then Offer(chans[ch], id, event) else chans[ch]
  }

  predicate Distinct(order: seq<nat>) {
    forall i, j :: 0 <= i < j < |order| ==> order[i] != order[j]
  }

  function SendAll(s: State, t: nat, order: seq<nat>): Option<State>
    decreases |order|
  {
    if order == [] then Some(s)
    else
      var next := Next(s, Step(t, DoTrySend(order[0])));
      if next == None then None else SendAll(next.value, t, order[1..])
  }

  /** The sends of one publication can be made in any order, and end in the same state. */
  lemma {:induction false} SendOrderIrrelevant(s: State, t: nat, order: seq<nat>)
    requires Inv(s) && At(s, t).PubSending? && Distinct(order)
    requires (set ch | ch in order) == At(s, t).todo
    ensures var p := At(s, t);
            SendAll(s, t, order)
            == Some(MoveTo(s, t, p.(todo := {})).(chans := FanOut(s.chans, p.todo, p.id, p.event)))
    decreases |order|
  {
    var p := At(s, t);
    if order == [] {
      assert p.todo == {};
      assert FanOut(s.chans, {}, p.id, p.event) == s.chans;
      assert s.at[t := p] == s.at;
    } else {
      var ch := order[0];
      assert PublishingOk(s, t) && EntryOk(s, p.topic, ch) && PhaseOk(s, ch);
      assert ch in p.todo;
      StepKeepsInv(s, Step(t, DoTrySend(ch)));
      var s' := TrySend(s, t, ch).value;
      assert forall c :: c in order[1..] <==> c in order && c != ch;
      SendOrderIrrelevant(s', t, order[1..]);
      FanOutStep(s, t, ch, s');
    }
  }

  lemma FanOutStep(s: State, t: nat, ch: nat, s': State)
    requires At(s, t).PubSending? && ch in At(s, t).todo && ch in s.chans
    requires s' == MoveTo(s, t, At(s, t).(todo := At(s, t).todo - {ch})).(
                     chans := s.chans[ch := Offer(s.chans[ch], At(s, t).id, At(s, t).event)])
    ensures var p := At(s, t);
            && FanOut(s'.chans, p.todo - {ch}, p.id, p.event) == FanOut(s.chans, p.todo, p.id, p.event)
            && s'.at[t := p.(todo := {})] == s.at[t := p.(todo := {})]
  {
  }

  // ---- the hub itself, each method run under its lock ---------------------------------

  function SubscribersIn(subs: map<string, set<nat>>, topic: string): set<nat> {
    if topic in subs then subs[topic] else {}
  }

  /** No entry is empty, and the entries hold exactly the live channels of their topics. */
  ghost predicate HubOk(subs: map<string, set<nat>>, chans: map<nat, Channel>) {
    && (forall topic :: topic in subs ==> subs[topic] != {})
    && (forall topic: string, ch: nat :: HubEntryOk(subs, chans, topic, ch))
    && (forall ch :: ch in chans ==> ChannelOk(chans[ch]) && chans[ch].phase in {Live, Cancelled})
  }

  predicate HubEntryOk(subs: map<string, set<nat>>, chans: map<nat, Channel>, topic: string, ch: nat) {
    ch in SubscribersIn(subs, topic) <==>
    ch in chans && chans[ch].topic == topic && chans[ch].phase == Live
  }

  lemma FanOutKeepsHub(
    subs: map<string, set<nat>>, chans: map<nat, Channel>, targets: set<nat>, id: nat, event: Event)
    requires HubOk(subs, chans)
    ensures HubOk(subs, FanOut(chans, targets, id, event))
  {
    var chans' := FanOut(chans, targets, id, event);
    forall ch | ch in chans' ensures ChannelOk(chans'[ch]) && chans'[ch].phase in {Live, Cancelled} {
      OfferKeepsChannel(chans[ch], id, event);
    }
    forall topic: string, ch: nat ensures HubEntryOk(subs, chans', topic, ch) {
      assert HubEntryOk(subs, chans, topic, ch);
    }
  }

  /**
   A live channel of the topic has the event behind at most 15 others, or loses it behind 16;
   any other channel is as it was.
   */
  predicate ServedOnce(c: Channel, c': Channel, topic: string, id: nat, event: Event) {
    c' == if c.topic == topic && c.phase == Live
          then c.(buffer := if |c.buffer| < 16 then c.buffer + [event] else c.buffer,
                  attempts := c.attempts + [Attempt(id, event, |c.buffer| == 16)])
          else c
  }

  lemma FanOutServesOnce(
    subs: map<string, set<nat>>, chans: map<nat, Channel>, topic: string, id: nat, event: Event, ch: nat)
    requires HubOk(subs, chans) && ch in chans
    ensures ServedOnce(chans[ch], FanOut(chans, SubscribersIn(subs, topic), id, event)[ch], topic, id, event)
  {
    assert HubEntryOk(subs, chans, topic, ch) && ChannelOk(chans[ch]);
  }

  class Hub {
    var subs: map<string, set<nat>>
    var chans: map<nat, Channel>
    var publications: nat

    ghost predicate Valid()
      reads this
    {
      HubOk(subs, chans)
    }

    constructor ()
      ensures Valid() && subs == map[] && chans == map[] && publications == 0
    {
      subs, chans, publications := map[], map[], 0;
    }

    method Subscribe(topic: string, ch: nat)
      requires Valid() && ch !in chans
      modifies this`subs, this`chans
      ensures Valid()
      ensures chans == old(chans)[ch := Channel(topic, [], [], [], false, Live)]
      ensures subs == old(subs)[topic := SubscribersIn(old(subs), topic) + {ch}]
    {
      chans := chans[ch := Channel(topic, [], [], [], false, Live)];
      if topic !in subs {
        subs := subs[topic := {}];
      }
      subs := subs[topic := subs[topic] + {ch}];
      assert subs == old(subs)[topic := SubscribersIn(old(subs), topic) + {ch}];
      forall k: string, c: nat ensures HubEntryOk(subs, chans, k, c) {
        assert HubEntryOk(old(subs), old(chans), k, c);
      }
    }

    /** The cancel closure; the once makes any call but the first do nothing. */
    method Cancel(ch: nat)
      requires Valid() && ch in chans
      modifies this`subs, this`chans
      ensures Valid()
      ensures old(chans[ch].phase) == Cancelled ==> subs == old(subs) && chans == old(chans)
      ensures old(chans[ch].phase) == Live ==>
                && chans == old(chans)[ch := old(chans[ch]).(closed := true, phase := Cancelled)]
                && forall topic :: SubscribersIn(subs, topic) == SubscribersIn(old(subs), topic) - {ch}
    {
      if chans[ch].phase == Cancelled {
        return;
      }
      var topic := chans[ch].topic;
      assert HubEntryOk(subs, chans, topic, ch);
      subs := subs[topic := subs[topic] - {ch}];
      if subs[topic] == {} {
        subs := subs - {topic};
      }
      chans := chans[ch := chans[ch].(closed := true, phase := Cancelled)];
      forall k ensures SubscribersIn(subs, k) == SubscribersIn(old(subs), k) - {ch} {
        assert HubEntryOk(old(subs), old(chans), k, ch);
      }
      forall k: string, c: nat ensures HubEntryOk(subs, chans, k, c) {
        assert HubEntryOk(old(subs), old(chans), k, c);
      }
    }

    method Publish(topic: string, event: Event)
      requires Valid()
      modifies this`chans, this`publications
      ensures Valid() && publications == old(publications) + 1
      ensures chans == FanOut(old(chans), SubscribersIn(subs, topic), old(publications), event)
      ensures chans.Keys == old(chans).Keys
      ensures forall ch :: ch in chans ==> ServedOnce(old(chans)[ch], chans[ch], topic, old(publications), event)
    {
      var id, targets := publications, SubscribersIn(subs, topic);
      var todo := targets;
      publications := publications + 1;
      while todo != {}
        invariant todo <= targets && publications == old(publications) + 1
        invariant chans == FanOut(old(chans), targets - todo, id, event)
        decreases todo
      {
        var ch :| ch in todo;
        assert HubEntryOk(subs, old(chans), topic, ch);
        chans := chans[ch := Offer(chans[ch], id, event)];
        todo := todo - {ch};
      }
      assert targets - {} == targets;
      FanOutKeepsHub(subs, old(chans), targets, id, event);
      forall ch | ch in chans ensures ServedOnce(old(chans)[ch], chans[ch], topic, id, event) {
        FanOutServesOnce(subs, old(chans), topic, id, event, ch);
      }
    }
  }
}
