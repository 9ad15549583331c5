/**
 Who looks after whom, and the append-only history of how it got there. Every operation
 is one transaction: it answers with a new desk, or it fails and the desk stays.
 */
module AssignmentLedger {
  import opened Options
  import opened AssignmentRing
  import opened AssignmentDesk
  import opened Selections

  const NO_DESK := Desk(map[], [], [], [], None)

  // ---- the operations -----------------------------------------------------------------

  /** The two statements that every assignment ends with; both references are foreign keys. */
  function Apply(d: Desk, row: Row): Option<Desk> {
    if row.user !in d.users
       || (row.to != None && !IsStaff(d.staff, row.to.value))
       || (row.from != None && !IsStaff(d.staff, row.from.value))
       || (row.actor != None && !IsStaff(d.staff, row.actor.value))
    then None
    else Some(d.(users := d.users[row.user := d.users[row.user].(owner := row.to)],
                 history := d.history + [row]))
  }

  function AssignNext(d: Desk, user: int): Option<Desk> {
    var ring := Ring(d);
    var p := PickIndex(ring, After(d.last));
    if p.Empty? || user !in d.users then None
    else
      var chosen := ring[p.index].rmId;
      match Apply(d, Row(user, d.users[user].owner, Some(chosen), AutoAssign, None))
      case None => None
      case Some(d') => Some(d'.(last := Some(chosen)))
  }

  function ManualAssign(d: Desk, user: int, to: int, actor: Option<int>, action: Action): Option<Desk> {
    if user !in d.users then None
    else Apply(d, Row(user, d.users[user].owner, Some(to), action, actor))
  }

  function Unassign(d: Desk, user: int, actor: Option<int>): Option<Desk> {
    if user !in d.users then None
    else Apply(d, Row(user, d.users[user].owner, None, Remove, actor))
  }

  /** One client after another to the next manager in line, rm excluded. */
  function MoveAll(d: Desk, rm: int, clients: seq<int>, after: int, actor: Option<int>): Option<(Desk, int)>
    decreases |clients|
  {
    if clients == [] then Some((d, after))
    else
      var ring := Without(Ring(d), rm);
      var p := PickIndex(ring, after);
      if p.Empty? then None
      else
        var chosen := ring[p.index].rmId;
        match Apply(d, Row(clients[0], Some(rm), Some(chosen), Transfer, actor))
        case None => None
        case Some(d') => MoveAll(d', rm, clients[1..], chosen, actor)
  }

  function Offboard(d: Desk, rm: int, actor: Option<int>): Option<(Desk, nat)> {
    var clients := Book(d.joined, d.users, rm);
    if clients == [] then Some((d, 0))
    else
      match MoveAll(d, rm, clients, NIL_ID, actor)
      case None => None
      case Some((d', after)) => Some((d'.(last := Some(after)), |clients|))
  }

  /** The users who want a manager and have none, oldest first. */
  function Waiting(joined: seq<int>, users: map<int, User>): seq<int> {
    if joined == [] then []
    else
      var rest := Waiting(joined[..|joined| - 1], users);
      var u := joined[|joined| - 1];
      if IsWaiting(users, u) then rest + [u] else rest
  }

  predicate IsWaiting(users: map<int, User>, u: int) {
    u in users && users[u].owner == None && users[u].wantsRm
  }

  function TurnOf(pair: (int, int), i: nat): int {
    if i % 2 == 0 then pair.0 else pair.1
  }

  /** One transaction per user; the process may stop before any of them. The count says how many were done. */
  function BackfillFrom(d: Desk, waiting: seq<int>, pair: (int, int), i: nat, stop: nat): (Desk, nat)
    requires i <= |waiting|
    decreases |waiting| - i
  {
    if i == |waiting| || i == stop then (d, i)
    else
      match Apply(d, Row(waiting[i], None, Some(TurnOf(pair, i)), Assign, None))
      case None => (d, i)
      case Some(d') => BackfillFrom(d', waiting, pair, i + 1, stop)
  }

  function Backfill(d: Desk, pair: (int, int), stop: nat): (Desk, nat) {
    var waiting := Waiting(d.joined, d.users);
    var (d', n) := BackfillFrom(d, waiting, pair, 0, stop);
    (if n == |waiting| && n > 0 then d'.(last := Some(TurnOf(pair, n - 1))) else d', n)
  }

  /** A staff row is inserted, or its role, status or capacity changed. */
  function PutStaff(d: Desk, s: Staff): Desk {
    d.(staff := Put(d.staff, s))
  }

  function Put(staff: seq<Staff>, s: Staff): seq<Staff> {
    if staff == [] then [s]
    else if staff[0].id == s.id then [s] + staff[1..]
    else [staff[0]] + Put(staff[1..], s)
  }

  function AddUser(d: Desk, user: int, wantsRm: bool): Option<Desk> {
    if user in d.users then None
    else Some(d.(users := d.users[user := User(None, wantsRm)], joined := d.joined + [user]))
  }

  function Drop(s: seq<int>, u: int): seq<int> {
    if s == [] then []
    else
      var rest := Drop(s[..|s| - 1], u);
      if s[|s| - 1] == u then rest else rest + [s[|s| - 1]]
  }

  function DropRows(h: seq<Row>, u: int): seq<Row> {
    if h == [] then []
    else
      var rest := DropRows(h[..|h| - 1], u);
      if h[|h| - 1].user == u then rest else rest + [h[|h| - 1]]
  }

  /** Deleting a user deletes their history. */
  function DeleteUser(d: Desk, user: int): Desk {
    d.(users := d.users - {user}, joined := Drop(d.joined, user), history := DropRows(d.history, user))
  }

  /** The opt-in flag of an existing user flips; failures of the assignment, faults too, are swallowed. */
  function SyncAssignment(d: Desk, user: int, wantsRm: bool, fault: bool): Desk {
    if user !in d.users || d.users[user].wantsRm == wantsRm then d
    else
      var flipped := d.(users := d.users[user := d.users[user].(wantsRm := wantsRm)]);
      var synced := if wantsRm then AssignNext(flipped, user) else Unassign(flipped, user, None);
      if fault || synced == None then flipped else synced.value
  }

  // ---- runs ---------------------------------------------------------------------------------

  datatype Step =
    | SAddUser(user: int, wantsRm: bool)
    | SDeleteUser(user: int)
    | SPutStaff(staff: Staff)
    | SSync(user: int, wantsRm: bool, fault: bool)
    | SAssignNext(user: int)
    | SManualAssign(user: int, to: int, actor: Option<int>, action: Action)
    | SUnassign(user: int, actor: Option<int>)
    | SOffboard(rm: int, actor: Option<int>)
    | SBackfill(pair: (int, int), stop: nat)

  /** A failed transaction leaves the desk as it was. */
  function Next(d: Desk, step: Step): Desk {
    match step
    case SAddUser(u, w) => if AddUser(d, u, w) == None then d else AddUser(d, u, w).value
    case SDeleteUser(u) => DeleteUser(d, u)
    case SPutStaff(s) => PutStaff(d, s)
    case SSync(u, w, fault) => SyncAssignment(d, u, w, fault)
    case SAssignNext(u) => if AssignNext(d, u) == None then d else AssignNext(d, u).value
    case SManualAssign(u, to, actor, action) =>
      var r := ManualAssign(d, u, to, actor, action); if r == None then d else r.value
    case SUnassign(u, actor) => var r := Unassign(d, u, actor); if r == None then d else r.value
    case SOffboard(rm, actor) => var r := Offboard(d, rm, actor); if r == None then d else r.value.0
    case SBackfill(pair, stop) => Backfill(d, pair, stop).0
  }

  function Run(steps: seq<Step>): Desk {
    if steps == [] then NO_DESK else Next(Run(steps[..|steps| - 1]), steps[|steps| - 1])
  }

  // ---- the ledger -----------------------------------------------------------------------------

  /** A user's own rows, in order. */
  function Trail(h: seq<Row>, u: int): (t: seq<Row>)
    ensures forall r :: r in t ==> r in h && r.user == u
  {
    if h == [] then []
    else
      var rest := Trail(h[..|h| - 1], u);
      var r := h[|h| - 1];
      if r.user == u then rest + [r] else rest
  }

  /** Where a trail ends: nowhere when it is empty. */
  function End(t: seq<Row>): Option<int> {
    if t == [] then None else t[|t| - 1].to
  }

  /** The first row comes from nobody, and each further row from where the previous one went. */
  ghost predicate IsChain(t: seq<Row>) {
    forall i :: 0 <= i < |t| ==> Follows(t, i)
  }

  predicate Follows(t: seq<Row>, i: nat)
    requires i < |t|
  {
    t[i].from == if i == 0 then None else t[i - 1].to
  }

  ghost predicate LedgerOk(d: Desk) {
    && (forall r :: r in d.history ==> r.user in d.users)
    && (forall u :: u in d.users ==> UserOk(d, u))
  }

  ghost predicate UserOk(d: Desk, u: int) {
    IsChain(Trail(d.history, u)) && End(Trail(d.history, u)) == Owner(d.users, u)
  }

  ghost predicate Inv(d: Desk) {
    WellFormed(d) && LedgerOk(d)
  }

  lemma TrailAppend(h: seq<Row>, r: Row, u: int)
    ensures Trail(h + [r], u) == if r.user == u then Trail(h, u) + [r] else Trail(h, u)
  {
    assert (h + [r])[..|h|] == h;
  }

  lemma ChainAppend(t: seq<Row>, r: Row)
    ensures IsChain(t + [r]) <==> IsChain(t) && r.from == End(t)
  {
    var s := t + [r];
    assert Follows(s, |t|) <==> r.from == End(t);
    forall i | 0 <= i < |t| ensures Follows(s, i) <==> Follows(t, i) {
    }
  }

  /** The appended row is the new end of its user's trail, and no other trail notices it. */
  lemma ApplyTrails(d: Desk, row: Row, v: int)
    requires Apply(d, row) != None
    ensures Trail(Apply(d, row).value.history, v)
            == if v == row.user then Trail(d.history, v) + [row] else Trail(d.history, v)
    ensures v != row.user ==> Owner(Apply(d, row).value.users, v) == Owner(d.users, v)
    ensures v == row.user ==> Owner(Apply(d, row).value.users, v) == row.to
  {
    TrailAppend(d.history, row, v);
  }

  lemma ApplyKeepsShape(d: Desk, row: Row)
    requires WellFormed(d) && (forall r :: r in d.history ==> r.user in d.users) && Apply(d, row) != None
    ensures var d' := Apply(d, row).value;
            WellFormed(d') && d'.users.Keys == d.users.Keys && forall r :: r in d'.history ==> r.user in d'.users
  {
  }

  /** An appended row keeps the ledger exactly when it starts from the current owner. */
  lemma ApplyKeepsLedgerExactly(d: Desk, row: Row)
    requires Inv(d) && Apply(d, row) != None
    ensures Inv(Apply(d, row).value) <==> row.from == d.users[row.user].owner
  {
    var d' := Apply(d, row).value;
    ApplyKeepsShape(d, row);
    ApplyTrails(d, row, row.user);
    ChainAppend(Trail(d.history, row.user), row);
    assert UserOk(d, row.user);
    assert UserOk(d', row.user) <==> row.from == d.users[row.user].owner;
    forall v | v in d'.users && v != row.user ensures UserOk(d', v) {
      assert UserOk(d, v);
      ApplyTrails(d, row, v);
    }
  }

  // ---- what each operation keeps -------------------------------------------------------------

  lemma AssignNextKeeps(d: Desk, user: int)
    requires Inv(d) && AssignNext(d, user) != None
    ensures Inv(AssignNext(d, user).value)
  {
    var ring := Ring(d);
    var chosen := ring[PickIndex(ring, After(d.last)).index].rmId;
    var row := Row(user, d.users[user].owner, Some(chosen), AutoAssign, None);
    ApplyKeepsLedgerExactly(d, row);
    LastIsFree(Apply(d, row).value, Some(chosen));
  }

  /** The last assigned manager is no part of the ledger. */
  lemma LastIsFree(d: Desk, last: Option<int>)
    requires Inv(d)
    ensures Inv(d.(last := last))
  {
  }

  ghost predicate HeldBy(users: map<int, User>, clients: seq<int>, rm: int) {
    forall c :: c in clients ==> Owner(users, c) == Some(rm)
  }

  /** Moving the first client leaves the rest of the book to be moved. */
  lemma RestIsHeld(d: Desk, row: Row, clients: seq<int>, rm: int)
    requires clients != [] && NoDuplicates(clients) && HeldBy(d.users, clients, rm)
    requires row.user == clients[0] && Apply(d, row) != None
    ensures NoDuplicates(clients[1..]) && HeldBy(Apply(d, row).value.users, clients[1..], rm)
  {
    var rest := clients[1..];
    forall c | c in rest ensures Owner(Apply(d, row).value.users, c) == Some(rm) {
      var i :| 0 <= i < |rest| && rest[i] == c;
      assert clients[i + 1] == c && clients[0] != clients[i + 1];
      assert c in clients;
    }
  }

  lemma {:induction false} MoveAllKeeps(d: Desk, rm: int, clients: seq<int>, after: int, actor: Option<int>)
    requires Inv(d) && NoDuplicates(clients) && HeldBy(d.users, clients, rm)
    requires MoveAll(d, rm, clients, after, actor) != None
    ensures Inv(MoveAll(d, rm, clients, after, actor).value.0)
    decreases |clients|
  {
    if clients != [] {
      var ring := Without(Ring(d), rm);
      var chosen := ring[PickIndex(ring, after).index].rmId;
      var row := Row(clients[0], Some(rm), Some(chosen), Transfer, actor);
      assert clients[0] in clients;
      ApplyKeepsLedgerExactly(d, row);
      RestIsHeld(d, row, clients, rm);
      MoveAllKeeps(Apply(d, row).value, rm, clients[1..], chosen, actor);
    }
  }

  lemma OffboardKeeps(d: Desk, rm: int, actor: Option<int>)
    requires Inv(d) && Offboard(d, rm, actor) != None
    ensures Inv(Offboard(d, rm, actor).value.0)
  {
    var clients := Book(d.joined, d.users, rm);
    BookIsOwned(d.joined, d.users, rm);
    if clients != [] {
      MoveAllKeeps(d, rm, clients, NIL_ID, actor);
      var (d', after) := MoveAll(d, rm, clients, NIL_ID, actor).value;
      LastIsFree(d', Some(after));
    }
  }

  lemma {:induction false} WaitingIsUnassigned(joined: seq<int>, users: map<int, User>)
    ensures forall u :: u in Waiting(joined, users)
                        <==> u in joined && IsWaiting(users, u)
    ensures NoDuplicates(joined) ==> NoDuplicates(Waiting(joined, users))
    decreases |joined|
  {
    if joined != [] {
      var front, u := joined[..|joined| - 1], joined[|joined| - 1];
      assert joined == front + [u];
      WaitingIsUnassigned(front, users);
      if NoDuplicates(joined) {
        assert NoDuplicates(front);
        assert u !in front;
      }
    }
  }

  ghost predicate FreeFromOn(users: map<int, User>, waiting: seq<int>, i: nat) {
    forall k :: i <= k < |waiting| ==> Owner(users, waiting[k]) == None
  }

  lemma {:induction false} BackfillFromKeeps(d: Desk, waiting: seq<int>, pair: (int, int), i: nat, stop: nat)
    requires Inv(d) && i <= |waiting| && NoDuplicates(waiting) && FreeFromOn(d.users, waiting, i)
    ensures Inv(BackfillFrom(d, waiting, pair, i, stop).0)
    decreases |waiting| - i
  {
    if i < |waiting| && i != stop {
      var row := Row(waiting[i], None, Some(TurnOf(pair, i)), Assign, None);
      if Apply(d, row) != None {
        var d' := Apply(d, row).value;
        assert Owner(d.users, waiting[i]) == None;
        ApplyKeepsLedgerExactly(d, row);
        forall k | i + 1 <= k < |waiting| ensures Owner(d'.users, waiting[k]) == None {
          assert waiting[i] != waiting[k];
        }
        BackfillFromKeeps(d', waiting, pair, i + 1, stop);
      }
    }
  }

  lemma BackfillKeeps(d: Desk, pair: (int, int), stop: nat)
    requires Inv(d)
    ensures Inv(Backfill(d, pair, stop).0)
  {
    var waiting := Waiting(d.joined, d.users);
    WaitingIsUnassigned(d.joined, d.users);
    forall k | 0 <= k < |waiting| ensures Owner(d.users, waiting[k]) == None {
      assert waiting[k] in waiting;
    }
    BackfillFromKeeps(d, waiting, pair, 0, stop);
    var (d', n) := BackfillFrom(d, waiting, pair, 0, stop);
    if n == |waiting| && n > 0 {
      LastIsFree(d', Some(TurnOf(pair, n - 1)));
    }
  }

  lemma {:induction false} PutKeeps(staff: seq<Staff>, s: Staff)
    requires DistinctStaff(staff)
    ensures DistinctStaff(Put(staff, s))
    ensures forall id :: IsStaff(Put(staff, s), id) <==> IsStaff(staff, id) || id == s.id
    decreases |staff|
  {
    if staff == [] {
      assert Put(staff, s)[0].id == s.id;
    } else {
      var tail := staff[1..];
      var put := Put(staff, s);
      forall i, j | 0 <= i < j < |tail| ensures tail[i].id != tail[j].id {
        assert staff[i + 1].id != staff[j + 1].id;
      }
      PutKeeps(tail, s);
      StaffSplit(staff);
      StaffSplit(put);
      assert put[1..] == if staff[0].id == s.id then tail else Put(tail, s);
      assert !IsStaff(put[1..], put[0].id);
    }
  }

  /** A list has the ids of its head and of its tail; the head's id is not repeated when ids are distinct. */
  lemma StaffSplit(staff: seq<Staff>)
    requires staff != []
    ensures forall id :: IsStaff(staff, id) <==> id == staff[0].id || IsStaff(staff[1..], id)
    ensures DistinctStaff(staff) <==> DistinctStaff(staff[1..]) && !IsStaff(staff[1..], staff[0].id)
  {
    var tail := staff[1..];
    forall id | IsStaff(staff, id) ensures id == staff[0].id || IsStaff(tail, id) {
      var i :| 0 <= i < |staff| && staff[i].id == id;
      if i > 0 {
        assert tail[i - 1].id == id;
      }
    }
    forall id | IsStaff(tail, id) ensures IsStaff(staff, id) {
      var i :| 0 <= i < |tail| && tail[i].id == id;
      assert staff[i + 1].id == id;
    }
    if DistinctStaff(staff) {
      forall i, j | 0 <= i < j < |tail| ensures tail[i].id != tail[j].id {
        assert staff[i + 1].id != staff[j + 1].id;
      }
      forall i | 0 <= i < |tail| ensures tail[i].id != staff[0].id {
        assert staff[i + 1].id != staff[0].id;
      }
    }
    if DistinctStaff(tail) && !IsStaff(tail, staff[0].id) {
      forall i, j | 0 <= i < j < |staff| ensures staff[i].id != staff[j].id {
        assert staff[j] == tail[j - 1];
        if i > 0 {
          assert staff[i] == tail[i - 1];
        }
      }
    }
  }

  lemma PutStaffKeeps(d: Desk, s: Staff)
    requires Inv(d)
    ensures Inv(PutStaff(d, s))
  {
    PutKeeps(d.staff, s);
  }

  lemma {:induction false} NoTrail(h: seq<Row>, u: int)
    requires forall r :: r in h ==> r.user != u
    ensures Trail(h, u) == []
    decreases |h|
  {
    if h != [] {
      NoTrail(h[..|h| - 1], u);
    }
  }

  lemma AddUserKeeps(d: Desk, user: int, wantsRm: bool)
    requires Inv(d) && AddUser(d, user, wantsRm) != None
    ensures Inv(AddUser(d, user, wantsRm).value)
  {
    var d' := AddUser(d, user, wantsRm).value;
    assert user !in d.joined;
    forall u | u in d'.users ensures UserOk(d', u) {
      if u == user {
        NoTrail(d.history, u);
      } else {
        assert UserOk(d, u);
      }
    }
  }

  lemma {:induction false} DropIsFilter(s: seq<int>, u: int)
    ensures forall v :: v in Drop(s, u) <==> v in s && v != u
    ensures NoDuplicates(s) ==> NoDuplicates(Drop(s, u))
    decreases |s|
  {
    if s != [] {
      var front, v := s[..|s| - 1], s[|s| - 1];
      assert s == front + [v];
      DropIsFilter(front, u);
      if NoDuplicates(s) {
        assert NoDuplicates(front);
        assert v !in front;
      }
    }
  }

  lemma {:induction false} DropRowsKeepsTrails(h: seq<Row>, u: int, v: int)
    requires u != v
    ensures Trail(DropRows(h, u), v) == Trail(h, v)
    ensures forall r :: r in DropRows(h, u) <==> r in h && r.user != u
    decreases |h|
  {
    if h != [] {
      var front, r := h[..|h| - 1], h[|h| - 1];
      assert h == front + [r];
      DropRowsKeepsTrails(front, u, v);
      TrailAppend(DropRows(front, u), r, v);
    }
  }

  lemma DeleteUserKeeps(d: Desk, user: int)
    requires Inv(d)
    ensures Inv(DeleteUser(d, user))
  {
    var d' := DeleteUser(d, user);
    DropIsFilter(d.joined, user);
    DropRowsKeepsTrails(d.history, user, user + 1);
    forall u | u in d'.users ensures UserOk(d', u) {
      assert UserOk(d, u);
      DropRowsKeepsTrails(d.history, user, u);
    }
  }

  lemma SyncKeeps(d: Desk, user: int, wantsRm: bool, fault: bool)
    requires Inv(d)
    ensures Inv(SyncAssignment(d, user, wantsRm, fault))
  {
    if user in d.users && d.users[user].wantsRm != wantsRm {
      var flipped := d.(users := d.users[user := d.users[user].(wantsRm := wantsRm)]);
      if wantsRm {
        if AssignNext(flipped, user) != None {
          AssignNextKeeps(flipped, user);
        }
      } else if Unassign(flipped, user, None) != None {
        ApplyKeepsLedgerExactly(flipped, Row(user, flipped.users[user].owner, None, Remove, None));
      }
    }
  }

  lemma ManualAssignKeeps(d: Desk, user: int, to: int, actor: Option<int>, action: Action)
    requires Inv(d) && ManualAssign(d, user, to, actor, action) != None
    ensures Inv(ManualAssign(d, user, to, actor, action).value)
  {
    ApplyKeepsLedgerExactly(d, Row(user, d.users[user].owner, Some(to), action, actor));
  }

  lemma UnassignKeeps(d: Desk, user: int, actor: Option<int>)
    requires Inv(d) && Unassign(d, user, actor) != None
    ensures Inv(Unassign(d, user, actor).value)
  {
    ApplyKeepsLedgerExactly(d, Row(user, d.users[user].owner, None, Remove, actor));
  }

  lemma UserStepKeeps(d: Desk, step: Step)
    requires Inv(d) && (step.SAddUser? || step.SDeleteUser? || step.SPutStaff? || step.SSync?)
    ensures Inv(Next(d, step))
  {
    match step
    case SAddUser(u, w) => if AddUser(d, u, w) != None { AddUserKeeps(d, u, w); }
    case SDeleteUser(u) => DeleteUserKeeps(d, u);
    case SPutStaff(s) => PutStaffKeeps(d, s);
    case SSync(u, w, fault) => SyncKeeps(d, u, w, fault);
  }

  lemma AssignStepKeeps(d: Desk, step: Step)
    requires Inv(d) && (step.SAssignNext? || step.SManualAssign? || step.SUnassign?)
    ensures Inv(Next(d, step))
  {
    match step
    case SAssignNext(u) =>
      if AssignNext(d, u) == None {
        assert Next(d, step) == d;
      } else {
        AssignNextKeeps(d, u);
        assert Next(d, step) == AssignNext(d, u).value;
      }
    case SManualAssign(u, to, actor, action) =>
      if ManualAssign(d, u, to, actor, action) == None {
        assert Next(d, step) == d;
      } else {
        ManualAssignKeeps(d, u, to, actor, action);
        assert Next(d, step) == ManualAssign(d, u, to, actor, action).value;
      }
    case SUnassign(u, actor) =>
      if Unassign(d, u, actor) == None {
        assert Next(d, step) == d;
      } else {
        UnassignKeeps(d, u, actor);
        assert Next(d, step) == Unassign(d, u, actor).value;
      }
  }

  lemma BulkStepKeeps(d: Desk, step: Step)
    requires Inv(d) && (step.SOffboard? || step.SBackfill?)
    ensures Inv(Next(d, step))
  {
    match step
    case SOffboard(rm, actor) => if Offboard(d, rm, actor) != None { OffboardKeeps(d, rm, actor); }
    case SBackfill(pair, stop) => BackfillKeeps(d, pair, stop);
  }

  lemma StepKeepsInv(d: Desk, step: Step)
    requires Inv(d)
    ensures Inv(Next(d, step))
  {
    if step.SAddUser? || step.SDeleteUser? || step.SPutStaff? || step.SSync? {
      UserStepKeeps(d, step);
    } else if step.SOffboard? || step.SBackfill? {
      BulkStepKeeps(d, step);
    } else {
      AssignStepKeeps(d, step);
    }
  }

  /** In every state of every run each user's history is a chain that ends at the stored owner. */
  lemma {:induction false} RunKeepsLedger(steps: seq<Step>)
    ensures Inv(Run(steps))
    decreases |steps|
  {
    if steps != [] {
      RunKeepsLedger(steps[..|steps| - 1]);
      StepKeepsInv(Run(steps[..|steps| - 1]), steps[|steps| - 1]);
    }
  }

  lemma OwnerHasRow(d: Desk, user: int)
    requires UserOk(d, user) && Owner(d.users, user) != None
    ensures var t := Trail(d.history, user);
            t != [] && t[|t| - 1] in d.history && t[|t| - 1].to == Owner(d.users, user)
  {
    var t := Trail(d.history, user);
    assert t[|t| - 1] in t;
  }

  /** The AssignedAt lookup finds a row for every assigned user, and it is the user's last row. */
  lemma AssignedUserHasRow(steps: seq<Step>, user: int)
    requires user in Run(steps).users && Run(steps).users[user].owner != None
    ensures var d := Run(steps);
            var t := Trail(d.history, user);
            t != [] && t[|t| - 1] in d.history && t[|t| - 1].to == d.users[user].owner
  {
    RunKeepsLedger(steps);
    OwnerHasRow(Run(steps), user);
  }

  /** In every state of every run the books hold each assigned user once. */
  lemma BooksAddUp(steps: seq<Step>)
    ensures var d := Run(steps); SumOfBooks(d.staff, d.joined, d.users) == AssignedCount(d.joined, d.users)
  {
    RunKeepsLedger(steps);
    var d := Run(steps);
    BooksPartitionAssigned(d.staff, d.joined, d.users);
  }

  // ---- offboarding -----------------------------------------------------------------------------

  /** The ring that the loop picks from: every active manager except the departing one. */
  function TargetRing(d: Desk, rm: int): seq<Slot> {
    Slots(Others(Roster(d.staff), rm), d)
  }

  /** The first n picks in a row on a ring. */
  function Picks(ring: seq<Slot>, after: int, n: nat): (rms: seq<int>)
    requires ring != []
    ensures |rms| == n
  {
    if n == 0 then [] else Picks(ring, after, n - 1) + [Serve(ring, after, n).1]
  }

  lemma {:induction false} ServeFromFirst(ring: seq<Slot>, after: int, m: nat)
    requires ring != []
    ensures Serve(ring, after, m + 1) == Serve(Serve(ring, after, 1).0, Serve(ring, after, 1).1, m)
    decreases m
  {
    if m > 0 {
      ServeFromFirst(ring, after, m - 1);
    }
  }

  lemma ServeOnce(ring: seq<Slot>, after: int)
    requires ring != []
    ensures Serve(ring, after, 0) == (ring, after)
    ensures var i := PickIndex(ring, after).index; Serve(ring, after, 1) == (Take(ring, i), ring[i].rmId)
  {
    assert Serve(ring, after, 0) == (ring, after);
  }

  lemma {:induction false} PicksFromFirst(ring: seq<Slot>, next: seq<Slot>, after: int, chosen: int, n: nat)
    requires ring != [] && next != [] && (next, chosen) == Serve(ring, after, 1)
    ensures Picks(ring, after, n + 1) == [chosen] + Picks(next, chosen, n)
    decreases n
  {
    if n > 0 {
      PicksFromFirst(ring, next, after, chosen, n - 1);
      ServeFromFirst(ring, after, n);
      assert [chosen] + Picks(next, chosen, n) == [chosen] + Picks(next, chosen, n - 1) + [Serve(next, chosen, n).1];
    } else {
      assert Picks(ring, after, 0) == [];
    }
  }

  lemma TargetsAreOthers(d: Desk, rm: int)
    requires DistinctStaff(d.staff)
    ensures var roster := Others(Roster(d.staff), rm);
            && DistinctStaff(roster)
            && forall i :: 0 <= i < |roster| ==> IsStaff(d.staff, roster[i].id) && IsOther(d.staff, rm, roster[i].id)
  {
    var roster := Others(Roster(d.staff), rm);
    RosterIsDistinct(d.staff);
    OthersAreDistinct(Roster(d.staff), rm);
    forall i | 0 <= i < |roster| ensures IsStaff(d.staff, roster[i].id) && IsOther(d.staff, rm, roster[i].id) {
      assert roster[i] in roster && roster[i] in Roster(d.staff);
      RosterIsStaff(d.staff, roster[i]);
    }
  }

  /** What one round of the loop does to the target ring. */
  lemma MoveOne(d: Desk, rm: int, u: int, after: int, actor: Option<int>)
    requires WellFormed(d) && Owner(d.users, u) == Some(rm) && TargetRing(d, rm) != []
    requires actor == None || IsStaff(d.staff, actor.value)
    ensures var ring := TargetRing(d, rm);
            var chosen := ring[PickIndex(ring, after).index].rmId;
            Without(Ring(d), rm) == ring
            && IsOther(d.staff, rm, chosen)
            && Apply(d, Row(u, Some(rm), Some(chosen), Transfer, actor)) != None
            && var d' := Apply(d, Row(u, Some(rm), Some(chosen), Transfer, actor)).value;
               (TargetRing(d', rm), chosen) == Serve(ring, after, 1) && WellFormed(d')
  {
    var roster := Others(Roster(d.staff), rm);
    var ring := TargetRing(d, rm);
    SlotsWithout(Roster(d.staff), d, rm);
    SlotsAt(roster, d);
    TargetsAreOthers(d, rm);
    var i := PickIndex(ring, after).index;
    var d' := Apply(d, Row(u, Some(rm), Some(roster[i].id), Transfer, actor)).value;
    ArrivalTakesSlot(roster, d, d', u, i);
    ServeOnce(ring, after);
  }

  /**
   Client k goes to receiver k and gets one transfer row; nobody else is touched.
   */
  ghost predicate Moved(d: Desk, d': Desk, rm: int, clients: seq<int>, tos: seq<int>, actor: Option<int>)
    requires |tos| == |clients|
  {
    && d'.joined == d.joined && d'.staff == d.staff && d'.last == d.last && d'.users.Keys == d.users.Keys
    && |d'.history| == |d.history| + |clients| && d'.history[..|d.history|] == d.history
    && (forall u :: u in d.users && u !in clients ==> u in d'.users && d'.users[u] == d.users[u])
    && (forall k :: 0 <= k < |clients| ==> ClientMoved(d, d', rm, clients[k], tos[k], actor, |d.history| + k))
  }

  ghost predicate ClientMoved(d: Desk, d': Desk, rm: int, client: int, to: int, actor: Option<int>, row: nat)
    requires row < |d'.history|
  {
    && client in d.users && client in d'.users
    && d'.users[client] == d.users[client].(owner := Some(to))
    && d'.history[row] == Row(client, Some(rm), Some(to), Transfer, actor)
    && IsOther(d.staff, rm, to)
  }

  /** An active manager other than rm. */
  ghost predicate IsOther(staff: seq<Staff>, rm: int, to: int) {
    to != rm && exists s :: s in staff && s.id == to && s.active && s.isRm
  }

  /** The first round of the loop, and what it leaves for the others. */
  lemma FirstMove(d: Desk, rm: int, clients: seq<int>, after: int, actor: Option<int>)
    returns (chosen: int, next: Desk)
    requires WellFormed(d) && clients != [] && NoDuplicates(clients) && HeldBy(d.users, clients, rm)
    requires TargetRing(d, rm) != [] && (actor == None || IsStaff(d.staff, actor.value))
    ensures clients[0] in d.users && IsOther(d.staff, rm, chosen)
    ensures Apply(d, Row(clients[0], Some(rm), Some(chosen), Transfer, actor)) == Some(next)
    ensures MoveAll(d, rm, clients, after, actor) == MoveAll(next, rm, clients[1..], chosen, actor)
    ensures WellFormed(next) && next.staff == d.staff
    ensures NoDuplicates(clients[1..]) && HeldBy(next.users, clients[1..], rm)
    ensures TargetRing(next, rm) != [] && (TargetRing(next, rm), chosen) == Serve(TargetRing(d, rm), after, 1)
  {
    assert clients[0] in clients;
    MoveOne(d, rm, clients[0], after, actor);
    chosen := TargetRing(d, rm)[PickIndex(TargetRing(d, rm), after).index].rmId;
    var row := Row(clients[0], Some(rm), Some(chosen), Transfer, actor);
    next := Apply(d, row).value;
    RestIsHeld(d, row, clients, rm);
  }

  /** The ring fills up as the picks in a row fill it. */
  lemma {:induction false} MoveAllServes(d: Desk, rm: int, clients: seq<int>, after: int, actor: Option<int>)
    requires WellFormed(d) && NoDuplicates(clients) && HeldBy(d.users, clients, rm)
    requires TargetRing(d, rm) != [] && (actor == None || IsStaff(d.staff, actor.value))
    ensures MoveAll(d, rm, clients, after, actor) != None
    ensures var (d', last) := MoveAll(d, rm, clients, after, actor).value;
            d'.staff == d.staff && (TargetRing(d', rm), last) == Serve(TargetRing(d, rm), after, |clients|)
    decreases |clients|
  {
    if clients == [] {
      ServeOnce(TargetRing(d, rm), after);
    } else {
      var chosen, next := FirstMove(d, rm, clients, after, actor);
      MoveAllServes(next, rm, clients[1..], chosen, actor);
      ServeFromFirst(TargetRing(d, rm), after, |clients| - 1);
    }
  }

  /** Each client goes to its pick, and nobody else is touched. */
  lemma {:induction false} MoveAllMoves(d: Desk, rm: int, clients: seq<int>, after: int, actor: Option<int>)
    requires WellFormed(d) && NoDuplicates(clients) && HeldBy(d.users, clients, rm)
    requires TargetRing(d, rm) != [] && (actor == None || IsStaff(d.staff, actor.value))
    ensures MoveAll(d, rm, clients, after, actor) != None
    ensures Moved(d, MoveAll(d, rm, clients, after, actor).value.0, rm, clients,
                  Picks(TargetRing(d, rm), after, |clients|), actor)
    decreases |clients|, 1
  {
    if clients == [] {
      assert d.history[..|d.history|] == d.history;
    } else {
      var chosen, next := FirstMove(d, rm, clients, after, actor);
      var d' := MovedRest(d, next, rm, clients, after, chosen, actor);
      var tos := Picks(TargetRing(next, rm), chosen, |clients[1..]|);
      PicksFromFirst(TargetRing(d, rm), TargetRing(next, rm), after, chosen, |clients| - 1);
      assert Picks(TargetRing(d, rm), after, |clients|) == [chosen] + tos;
      MovedOneMore(d, next, d', rm, clients, chosen, tos, actor);
    }
  }

  lemma {:induction false} MovedRest(d: Desk, next: Desk, rm: int, clients: seq<int>, after: int, chosen: int,
                                     actor: Option<int>) returns (d': Desk)
    requires clients != [] && MoveAll(d, rm, clients, after, actor) == MoveAll(next, rm, clients[1..], chosen, actor)
    requires WellFormed(next) && NoDuplicates(clients[1..]) && HeldBy(next.users, clients[1..], rm)
    requires TargetRing(next, rm) != [] && (actor == None || IsStaff(next.staff, actor.value))
    ensures MoveAll(d, rm, clients, after, actor) != None && d' == MoveAll(d, rm, clients, after, actor).value.0
    ensures Moved(next, d', rm, clients[1..], Picks(TargetRing(next, rm), chosen, |clients[1..]|), actor)
    decreases |clients|, 0
  {
    MoveAllMoves(next, rm, clients[1..], chosen, actor);
    d' := MoveAll(next, rm, clients[1..], chosen, actor).value.0;
  }

  lemma HistoryPrefix(h: seq<Row>, r: Row, h': seq<Row>)
    requires |h| < |h'| && h'[..|h| + 1] == h + [r]
    ensures h'[..|h|] == h && h'[|h|] == r
  {
    assert h'[..|h| + 1][..|h|] == h'[..|h|];
    assert h'[..|h| + 1][|h|] == h'[|h|];
  }

  lemma MovedOneMore(d: Desk, next: Desk, d': Desk, rm: int, clients: seq<int>, chosen: int, tos: seq<int>,
                     actor: Option<int>)
    requires clients != [] && NoDuplicates(clients) && |tos| + 1 == |clients| && clients[0] in d.users
    requires Apply(d, Row(clients[0], Some(rm), Some(chosen), Transfer, actor)) == Some(next)
    requires IsOther(d.staff, rm, chosen) && Moved(next, d', rm, clients[1..], tos, actor)
    ensures Moved(d, d', rm, clients, [chosen] + tos, actor)
  {
    var rest := clients[1..];
    HistoryPrefix(d.history, Row(clients[0], Some(rm), Some(chosen), Transfer, actor), d'.history);
    assert clients[0] !in rest by {
      forall k | 0 <= k < |rest| ensures rest[k] != clients[0] {
        assert clients[k + 1] != clients[0];
      }
    }
    forall u | u in d.users && u !in clients ensures u in d'.users && d'.users[u] == d.users[u] {
      assert u !in rest && u != clients[0];
    }
    forall k | 0 <= k < |clients|
      ensures ClientMoved(d, d', rm, clients[k], ([chosen] + tos)[k], actor, |d.history| + k)
    {
      if k == 0 {
        assert clients[0] in next.users;
      } else {
        assert ClientMoved(next, d', rm, rest[k - 1], tos[k - 1], actor, |next.history| + (k - 1));
        assert clients[k] != clients[0];
      }
    }
  }

  /** Whether an active manager other than rm is there to take the clients. */
  lemma {:induction false} TargetsExist(roster: seq<Staff>, rm: int)
    ensures Others(roster, rm) != [] <==> exists s :: s in roster && s.id != rm
    decreases |roster|
  {
    if roster != [] {
      var front, s := roster[..|roster| - 1], roster[|roster| - 1];
      assert roster == front + [s];
      TargetsExist(front, rm);
    }
  }

  /** Whether rm can be relieved: an empty book, or another active manager and a known actor. */
  ghost predicate CanOffboard(d: Desk, rm: int, actor: Option<int>) {
    || Book(d.joined, d.users, rm) == []
    || ((exists to :: IsOther(d.staff, rm, to)) && (actor == None || IsStaff(d.staff, actor.value)))
  }

  /** The target ring is empty exactly when no other manager is active. */
  lemma TargetRingExactly(d: Desk, rm: int)
    ensures TargetRing(d, rm) != [] <==> exists to :: IsOther(d.staff, rm, to)
  {
    var roster := Roster(d.staff);
    TargetsExist(roster, rm);
    if exists s :: s in roster && s.id != rm {
      var s :| s in roster && s.id != rm;
      assert IsOther(d.staff, rm, s.id);
    }
    if exists to :: IsOther(d.staff, rm, to) {
      var to :| IsOther(d.staff, rm, to);
      var s :| s in d.staff && s.id == to && s.active && s.isRm;
      RosterHasAll(d.staff, s);
    }
  }

  /** Offboarding changes the desk exactly when it can; otherwise it fails as a whole. */
  lemma OffboardSucceedsExactly(d: Desk, rm: int, actor: Option<int>)
    requires WellFormed(d)
    ensures Offboard(d, rm, actor) != None <==> CanOffboard(d, rm, actor)
    ensures Offboard(d, rm, actor) != None && Book(d.joined, d.users, rm) != [] ==> TargetRing(d, rm) != []
  {
    var clients := Book(d.joined, d.users, rm);
    TargetRingExactly(d, rm);
    if clients != [] {
      BookIsOwned(d.joined, d.users, rm);
      SlotsWithout(Roster(d.staff), d, rm);
      if CanOffboard(d, rm, actor) {
        MoveAllMoves(d, rm, clients, NIL_ID, actor);
      }
    }
  }

  lemma {:induction false} NobodyHeld(joined: seq<int>, users: map<int, User>, rm: int)
    requires forall u :: u in joined ==> Owner(users, u) != Some(rm)
    ensures Book(joined, users, rm) == []
    decreases |joined|
  {
    if joined != [] {
      assert joined[|joined| - 1] in joined;
      NobodyHeld(joined[..|joined| - 1], users, rm);
    }
  }

  /** The receivers of a book, in order; an empty book needs none. */
  function Receivers(d: Desk, rm: int): (rms: seq<int>)
    requires Book(d.joined, d.users, rm) != [] ==> TargetRing(d, rm) != []
    ensures |rms| == |Book(d.joined, d.users, rm)|
  {
    var n := |Book(d.joined, d.users, rm)|;
    if n == 0 then [] else Picks(TargetRing(d, rm), NIL_ID, n)
  }

  /** What an offboarding of a non-empty book runs: the loop over the book, then the new cursor. */
  lemma OffboardRuns(d: Desk, rm: int, actor: Option<int>) returns (clients: seq<int>, moved: Desk, after: int)
    requires WellFormed(d) && Offboard(d, rm, actor) != None && Book(d.joined, d.users, rm) != []
    ensures clients == Book(d.joined, d.users, rm) && NoDuplicates(clients) && HeldBy(d.users, clients, rm)
    ensures TargetRing(d, rm) != [] && (actor == None || IsStaff(d.staff, actor.value))
    ensures MoveAll(d, rm, clients, NIL_ID, actor) == Some((moved, after))
    ensures Offboard(d, rm, actor) == Some((moved.(last := Some(after)), |clients|))
  {
    clients := Book(d.joined, d.users, rm);
    BookIsOwned(d.joined, d.users, rm);
    OffboardSucceedsExactly(d, rm, actor);
    moved := MoveAll(d, rm, clients, NIL_ID, actor).value.0;
    after := MoveAll(d, rm, clients, NIL_ID, actor).value.1;
  }

  /** Once the whole book has moved, the manager holds nobody. */
  lemma MovedEmptiesBook(d: Desk, d': Desk, rm: int, tos: seq<int>, actor: Option<int>)
    requires WellFormed(d) && |tos| == |Book(d.joined, d.users, rm)|
    requires Moved(d, d', rm, Book(d.joined, d.users, rm), tos, actor)
    ensures Book(d'.joined, d'.users, rm) == []
  {
    var clients := Book(d.joined, d.users, rm);
    BookIsOwned(d.joined, d.users, rm);
    forall u | u in d'.joined ensures Owner(d'.users, u) != Some(rm) {
      assert u in d.joined && u in d.users;
      if u in clients {
        var k :| 0 <= k < |clients| && clients[k] == u;
        assert ClientMoved(d, d', rm, clients[k], tos[k], actor, |d.history| + k);
      }
    }
    NobodyHeld(d'.joined, d'.users, rm);
  }

  /**
   A successful offboarding moves exactly the departing book: its oldest client to the
   first pick, the next one to the next, and so on. It counts that book and empties it.
   */
  lemma OffboardMovesBook(d: Desk, rm: int, actor: Option<int>)
    requires WellFormed(d) && Offboard(d, rm, actor) != None
    ensures var (d', n) := Offboard(d, rm, actor).value;
            var clients := Book(d.joined, d.users, rm);
            && n == |clients|
            && (clients != [] ==> TargetRing(d, rm) != [])
            && Moved(d, d'.(last := d.last), rm, clients, Receivers(d, rm), actor)
            && d'.last == (if clients == [] then d.last else Some(Receivers(d, rm)[n - 1]))
            && Book(d'.joined, d'.users, rm) == []
  {
    if Book(d.joined, d.users, rm) != [] {
      var clients, moved, after := OffboardRuns(d, rm, actor);
      MoveAllMoves(d, rm, clients, NIL_ID, actor);
      MoveAllServes(d, rm, clients, NIL_ID, actor);
      MovedEmptiesBook(d, moved, rm, Receivers(d, rm), actor);
      assert moved.(last := Some(after)).(last := d.last) == moved;
    }
  }

  /** Nobody gains or loses a manager altogether: the book sizes add up to the same total. */
  lemma OffboardConservesBooks(d: Desk, rm: int, actor: Option<int>)
    requires Inv(d) && Offboard(d, rm, actor) != None
    ensures var d' := Offboard(d, rm, actor).value.0;
            && (forall u :: u in d.users ==> (Owner(d.users, u) == None <==> Owner(d'.users, u) == None))
            && SumOfBooks(d'.staff, d'.joined, d'.users) == SumOfBooks(d.staff, d.joined, d.users)
  {
    var d' := Offboard(d, rm, actor).value.0;
    var clients := Book(d.joined, d.users, rm);
    OffboardMovesBook(d, rm, actor);
    OffboardKeeps(d, rm, actor);
    BookIsOwned(d.joined, d.users, rm);
    forall u | u in d.users ensures Owner(d.users, u) == None <==> Owner(d'.users, u) == None {
      if u in clients {
        var k :| 0 <= k < |clients| && clients[k] == u;
        assert ClientMoved(d, d'.(last := d.last), rm, clients[k], Receivers(d, rm)[k], actor, |d.history| + k);
      }
    }
    SameAssigned(d.joined, d.users, d'.users);
    BooksPartitionAssigned(d.staff, d.joined, d.users);
    BooksPartitionAssigned(d'.staff, d'.joined, d'.users);
  }

  lemma SlotsFrame(roster: seq<Staff>, d: Desk, d': Desk)
    requires d'.joined == d.joined && d'.users == d.users
    ensures Slots(roster, d') == Slots(roster, d)
  {
    SlotsAt(roster, d);
    SlotsAt(roster, d');
  }

  /** While nobody's capacity is exceeded, the departing book is spread evenly over the other managers. */
  lemma OffboardSpreadsEvenly(d: Desk, rm: int, actor: Option<int>)
    requires WellFormed(d) && Offboard(d, rm, actor) != None && Book(d.joined, d.users, rm) != []
    requires TargetRing(d, rm) != [] && RoomFor(TargetRing(d, rm), NIL_ID, |Book(d.joined, d.users, rm)|)
    ensures TargetRing(Offboard(d, rm, actor).value.0, rm)
            == SpreadOver(TargetRing(d, rm), NIL_ID, |Book(d.joined, d.users, rm)|)
  {
    var ring := TargetRing(d, rm);
    var clients, moved, after := OffboardRuns(d, rm, actor);
    MoveAllServes(d, rm, clients, NIL_ID, actor);
    SlotsFrame(Others(Roster(d.staff), rm), moved, moved.(last := Some(after)));
    TargetsAreOthers(d, rm);
    SlotsAreDistinct(Others(Roster(d.staff), rm), d);
    PicksSpreadEvenly(ring, NIL_ID, |clients|);
  }

  /**
   While the other managers together have places for the departing book, however they are
   spread, none of them is taken beyond capacity.
   */
  lemma OffboardStaysWithinCapacity(d: Desk, rm: int, actor: Option<int>)
    requires WellFormed(d) && Offboard(d, rm, actor) != None && Book(d.joined, d.users, rm) != []
    requires TargetRing(d, rm) != [] && |Book(d.joined, d.users, rm)| <= FreePlaces(TargetRing(d, rm))
    ensures WithinCapacity(TargetRing(d, rm), TargetRing(Offboard(d, rm, actor).value.0, rm))
  {
    var clients, moved, after := OffboardRuns(d, rm, actor);
    MoveAllServes(d, rm, clients, NIL_ID, actor);
    SlotsFrame(Others(Roster(d.staff), rm), moved, moved.(last := Some(after)));
    PicksStayWithinCapacity(TargetRing(d, rm), NIL_ID, |clients|);
  }

  /** The ring of the other managers, as a query. */
  lemma TargetRingIsQuery(d: Desk, rm: int)
    ensures var others := Filter(d.staff, (s: Staff) => s.active && s.isRm && s.id != rm);
            && |TargetRing(d, rm)| == |others|
            && forall i :: 0 <= i < |others| ==>
                 TargetRing(d, rm)[i]
                 == Slot(others[i].id, others[i].maxPortfolios, |Book(d.joined, d.users, others[i].id)|)
  {
    OthersIsQuery(d.staff, rm);
    SlotsAt(Others(Roster(d.staff), rm), d);
  }

  lemma {:induction false} OthersIsQuery(staff: seq<Staff>, rm: int)
    ensures Others(Roster(staff), rm) == Filter(staff, (s: Staff) => s.active && s.isRm && s.id != rm)
    decreases |staff|
  {
    if staff != [] {
      var front, s := staff[..|staff| - 1], staff[|staff| - 1];
      OthersIsQuery(front, rm);
      if s.active && s.isRm {
        assert (Roster(front) + [s])[..|Roster(front)|] == Roster(front);
      }
    }
  }

  // ---- sign-ups ----------------------------------------------------------------------------------

  /** Assigning an unassigned user takes the next pick of the ring and moves the rotation on. */
  lemma AssignNextServes(d: Desk, user: int)
    requires WellFormed(d) && user in d.users && d.users[user].owner == None && Ring(d) != []
    ensures AssignNext(d, user) != None
    ensures var d' := AssignNext(d, user).value;
            (Ring(d'), After(d'.last)) == Serve(Ring(d), After(d.last), 1) && WellFormed(d')
  {
    var roster, ring := Roster(d.staff), Ring(d);
    RosterIsDistinct(d.staff);
    SlotsAt(roster, d);
    var i := PickIndex(ring, After(d.last)).index;
    RosterIsStaff(d.staff, roster[i]);
    var applied := Apply(d, Row(user, None, Some(roster[i].id), AutoAssign, None)).value;
    ArrivalTakesSlot(roster, d, applied, user, i);
    ServeOnce(ring, After(d.last));
    SlotsFrame(roster, applied, applied.(last := Some(roster[i].id)));
  }

  function SignUp(d: Desk, users: seq<int>): Desk {
    if users == [] then d
    else
      var front := SignUp(d, users[..|users| - 1]);
      var r := AssignNext(front, users[|users| - 1]);
      if r == None then front else r.value
  }

  /** Nobody but the given users has changed. */
  ghost predicate OthersUntouched(d: Desk, d': Desk, users: seq<int>) {
    d'.users.Keys == d.users.Keys && forall u :: u in d.users && u !in users ==> Owner(d'.users, u) == Owner(d.users, u)
  }

  lemma SplitLast(users: seq<int>)
    requires users != [] && NoDuplicates(users)
    ensures var rest, u := users[..|users| - 1], users[|users| - 1];
            u !in rest && NoDuplicates(rest) && forall v :: v in users <==> v in rest || v == u
  {
    assert users == users[..|users| - 1] + [users[|users| - 1]];
  }

  lemma UntouchedBoth(d: Desk, mid: Desk, d': Desk, rest: seq<int>, u: int, users: seq<int>)
    requires OthersUntouched(d, mid, rest) && OthersUntouched(mid, d', [u])
    requires forall v :: v in users <==> v in rest || v == u
    ensures OthersUntouched(d, d', users)
  {
    forall v | v in d.users && v !in users ensures Owner(d'.users, v) == Owner(d.users, v) {
      assert v !in rest && v !in [u] && v in mid.users;
    }
  }

  ghost predicate Unassigned(d: Desk, users: seq<int>) {
    forall u :: u in users ==> u in d.users && d.users[u].owner == None
  }

  /** The state of the sign-ups after m of them. */
  ghost predicate SignedUp(d: Desk, d': Desk, users: seq<int>, m: nat)
    requires Ring(d) != []
  {
    && (Ring(d'), After(d'.last)) == Serve(Ring(d), After(d.last), m)
    && WellFormed(d') && OthersUntouched(d, d', users)
  }

  lemma {:induction false} SignUpsServe(d: Desk, users: seq<int>)
    requires WellFormed(d) && Ring(d) != [] && NoDuplicates(users) && Unassigned(d, users)
    ensures SignedUp(d, SignUp(d, users), users, |users|)
    decreases |users|
  {
    if users == [] {
      ServeOnce(Ring(d), After(d.last));
    } else {
      SplitLast(users);
      SignUpsServe(d, users[..|users| - 1]);
      SignUpsServeOneMore(d, SignUp(d, users[..|users| - 1]), users);
    }
  }

  lemma SignUpsServeOneMore(d: Desk, mid: Desk, users: seq<int>)
    requires Ring(d) != [] && users != [] && Unassigned(d, users)
    requires var rest, u := users[..|users| - 1], users[|users| - 1];
             u !in rest && (forall v :: v in users <==> v in rest || v == u) && SignedUp(d, mid, rest, |rest|)
    ensures var r := AssignNext(mid, users[|users| - 1]); r != None && SignedUp(d, r.value, users, |users|)
  {
    var rest, u := users[..|users| - 1], users[|users| - 1];
    assert u in users;
    assert u in mid.users && Owner(mid.users, u) == None;
    SignUpOneMore(mid, u, Ring(d), After(d.last), |rest|);
    UntouchedBoth(d, mid, AssignNext(mid, u).value, rest, u, users);
  }

  lemma SignUpOneMore(d: Desk, u: int, ring: seq<Slot>, after: int, m: nat)
    requires WellFormed(d) && u in d.users && Owner(d.users, u) == None
    requires ring != [] && (Ring(d), After(d.last)) == Serve(ring, after, m)
    ensures AssignNext(d, u) != None
    ensures var d' := AssignNext(d, u).value;
            && (Ring(d'), After(d'.last)) == Serve(ring, after, m + 1)
            && WellFormed(d') && OthersUntouched(d, d', [u])
  {
    AssignNextServes(d, u);
    ServeOnce(Ring(d), After(d.last));
  }

  /** While nobody's capacity is exceeded, new users are spread evenly over the desk. */
  lemma SignUpsSpreadEvenly(d: Desk, users: seq<int>)
    requires WellFormed(d) && Ring(d) != [] && NoDuplicates(users) && Unassigned(d, users)
    requires RoomFor(Ring(d), After(d.last), |users|)
    ensures Ring(SignUp(d, users)) == SpreadOver(Ring(d), After(d.last), |users|)
  {
    SignUpsServe(d, users);
    RosterIsDistinct(d.staff);
    SlotsAreDistinct(Roster(d.staff), d);
    PicksSpreadEvenly(Ring(d), After(d.last), |users|);
  }

  /** The flag of a user is no part of the ring. */
  lemma RingIgnoresFlags(d: Desk, flipped: Desk)
    requires flipped.joined == d.joined && flipped.staff == d.staff
    requires forall u :: Owner(flipped.users, u) == Owner(d.users, u)
    ensures Ring(flipped) == Ring(d)
  {
    var roster := Roster(d.staff);
    SlotsAt(roster, d);
    SlotsAt(roster, flipped);
    forall i | 0 <= i < |roster| ensures SlotOf(roster[i], flipped) == SlotOf(roster[i], d) {
      BookIgnoresFlags(d.joined, d.users, flipped.users, roster[i].id);
    }
  }

  /** An automatic assignment succeeds while there is a ring, and its pick is the owner. */
  lemma AssignNextPicks(d: Desk, user: int)
    requires WellFormed(d) && user in d.users && Ring(d) != []
    ensures AssignNext(d, user) != None && user in AssignNext(d, user).value.users
    ensures AssignNext(d, user).value.users[user].owner
            == Some(Ring(d)[PickIndex(Ring(d), After(d.last)).index].rmId)
  {
    var roster := Roster(d.staff);
    SlotsAt(roster, d);
    var i := PickIndex(Ring(d), After(d.last)).index;
    RosterIsStaff(d.staff, roster[i]);
    if d.users[user].owner != None {
      assert IsStaff(d.staff, d.users[user].owner.value);
    }
  }

  /**
   While an active manager has a free place, an automatic assignment goes to a manager with
   one, and takes nobody's book beyond capacity.
   */
  lemma AssignNextStaysWithinCapacity(d: Desk, user: int, s: Staff)
    requires WellFormed(d) && AssignNext(d, user) != None
    requires exists free :: free in d.staff && free.active && free.isRm
                            && |Book(d.joined, d.users, free.id)| < free.maxPortfolios
    requires s in d.staff && AssignNext(d, user).value.users[user].owner == Some(s.id)
    ensures s.active && s.isRm && |Book(d.joined, d.users, s.id)| < s.maxPortfolios
    ensures var d' := AssignNext(d, user).value; |Book(d'.joined, d'.users, s.id)| <= s.maxPortfolios
  {
    var roster, ring := Roster(d.staff), Ring(d);
    var free :| free in d.staff && free.active && free.isRm
                && |Book(d.joined, d.users, free.id)| < free.maxPortfolios;
    SlotsAt(roster, d);
    RosterHasAll(d.staff, free);
    var k :| 0 <= k < |roster| && roster[k] == free;
    assert ring[k].clientCount < ring[k].maxPortfolios;
    PickIsRoundRobin(ring, After(d.last));
    var i := PickIndex(ring, After(d.last)).index;
    AssignNextPicks(d, user);
    SameStaff(d.staff, roster[i], s);
    BookMove(d.joined, d.users, user, AssignNext(d, user).value.users[user], s.id);
  }

  lemma SameStaff(staff: seq<Staff>, a: Staff, b: Staff)
    requires DistinctStaff(staff) && a in staff && b in staff && a.id == b.id
    ensures a == b
  {
  }

  /** What a flip of the opt-in flag leaves, case by case. */
  lemma SyncExactly(d: Desk, user: int, wantsRm: bool, fault: bool)
    requires WellFormed(d)
    ensures var d' := SyncAssignment(d, user, wantsRm, fault);
            if user !in d.users || d.users[user].wantsRm == wantsRm then d' == d
            else
              var prior := d.users[user].owner;
              && d'.joined == d.joined && d'.staff == d.staff
              && user in d'.users && d'.users == d.users[user := User(d'.users[user].owner, wantsRm)]
              && if fault || (wantsRm && Filter(d.staff, (s: Staff) => s.active && s.isRm) == [])
                 then d'.users[user].owner == prior && d'.history == d.history && d'.last == d.last
                 else if wantsRm then
                   && d'.users[user].owner != None && d'.last == d'.users[user].owner
                   && d'.history == d.history + [Row(user, prior, d'.users[user].owner, AutoAssign, None)]
                 else
                   && d'.users[user].owner == None && d'.last == d.last
                   && d'.history == d.history + [Row(user, prior, None, Remove, None)]
  {
    if user in d.users && d.users[user].wantsRm != wantsRm {
      var flipped := d.(users := d.users[user := d.users[user].(wantsRm := wantsRm)]);
      RingIgnoresFlags(d, flipped);
      RingIsQuery(d);
      if wantsRm && Ring(d) != [] {
        AssignNextPicks(flipped, user);
      }
      if d.users[user].owner != None {
        assert IsStaff(d.staff, d.users[user].owner.value);
      }
    }
  }

  /** Opting in re-routes even a user who already has a manager: they end with the next pick. */
  lemma OptInTakesNextPick(d: Desk, user: int)
    requires WellFormed(d) && user in d.users && !d.users[user].wantsRm && Ring(d) != []
    ensures var ring := Ring(d);
            SyncAssignment(d, user, true, false).users[user].owner
            == Some(ring[PickIndex(ring, After(d.last)).index].rmId)
  {
    var flipped := d.(users := d.users[user := d.users[user].(wantsRm := true)]);
    RingIgnoresFlags(d, flipped);
    AssignNextPicks(flipped, user);
  }

  lemma {:induction false} BookIgnoresFlags(joined: seq<int>, users: map<int, User>, users': map<int, User>, rm: int)
    requires forall u :: Owner(users, u) == Owner(users', u)
    ensures Book(joined, users, rm) == Book(joined, users', rm)
    decreases |joined|
  {
    if joined != [] {
      BookIgnoresFlags(joined[..|joined| - 1], users, users', rm);
    }
  }

  // ---- the seed's backfill ---------------------------------------------------------------------

  lemma {:induction false} BackfillFromAlternates(d: Desk, waiting: seq<int>, pair: (int, int), i: nat, stop: nat)
    requires i <= |waiting| <= stop && NoDuplicates(waiting)
    requires IsStaff(d.staff, pair.0) && IsStaff(d.staff, pair.1)
    requires forall u :: u in waiting ==> u in d.users
    ensures var (d', n) := BackfillFrom(d, waiting, pair, i, stop);
            && n == |waiting| && d'.users.Keys == d.users.Keys && d'.joined == d.joined
            && (forall k :: i <= k < n ==>
                  waiting[k] in d'.users && waiting[k] in d.users
                  && d'.users[waiting[k]] == d.users[waiting[k]].(owner := Some(TurnOf(pair, k))))
            && (forall u :: u in d.users && u !in waiting[i..] ==> d'.users[u] == d.users[u])
    decreases |waiting| - i
  {
    if i < |waiting| {
      assert waiting[i] in waiting;
      var d1 := Apply(d, Row(waiting[i], None, Some(TurnOf(pair, i)), Assign, None)).value;
      BackfillFromAlternates(d1, waiting, pair, i + 1, stop);
      assert waiting[i] !in waiting[i + 1..];
      assert waiting[i..] == [waiting[i]] + waiting[i + 1..];
    }
  }

  /** Each round writes one row. */
  lemma {:induction false} BackfillFromRows(d: Desk, waiting: seq<int>, pair: (int, int), i: nat, stop: nat)
    requires i <= |waiting| <= stop && IsStaff(d.staff, pair.0) && IsStaff(d.staff, pair.1)
    requires forall u :: u in waiting ==> u in d.users
    ensures BackfillFrom(d, waiting, pair, i, stop).1 == |waiting|
    ensures var d' := BackfillFrom(d, waiting, pair, i, stop).0;
            && d'.staff == d.staff && d'.last == d.last && |d'.history| == |d.history| + |waiting| - i
            && d'.history[..|d.history|] == d.history
            && (forall k :: i <= k < |waiting| ==>
                  d'.history[|d.history| + (k - i)] == Row(waiting[k], None, Some(TurnOf(pair, k)), Assign, None))
    decreases |waiting| - i
  {
    if i < |waiting| {
      assert waiting[i] in waiting;
      var row := Row(waiting[i], None, Some(TurnOf(pair, i)), Assign, None);
      var d1 := Apply(d, row).value;
      BackfillFromRows(d1, waiting, pair, i + 1, stop);
      var d' := BackfillFrom(d1, waiting, pair, i + 1, stop).0;
      HistoryPrefix(d.history, row, d'.history);
      forall k | i <= k < |waiting|
        ensures d'.history[|d.history| + (k - i)] == Row(waiting[k], None, Some(TurnOf(pair, k)), Assign, None)
      {
        assert k > i ==> |d.history| + (k - i) == |d1.history| + (k - (i + 1));
      }
    }
  }

  lemma {:induction false} NobodyWaits(joined: seq<int>, users: map<int, User>)
    requires forall u :: u in joined ==> !IsWaiting(users, u)
    ensures Waiting(joined, users) == []
    decreases |joined|
  {
    if joined != [] {
      assert joined[|joined| - 1] in joined;
      NobodyWaits(joined[..|joined| - 1], users);
    }
  }

  lemma {:induction false} WaitingIsQuery(joined: seq<int>, users: map<int, User>)
    ensures Waiting(joined, users)
            == Filter(joined, (u: int) => u in users && users[u].owner == None && users[u].wantsRm)
    decreases |joined|
  {
    if joined != [] {
      WaitingIsQuery(joined[..|joined| - 1], users);
    }
  }

  /**
   A backfill that is not stopped leaves nobody waiting: the two managers take turns from
   the oldest user on, and users who did not opt in or already have a manager are untouched.
   */
  lemma BackfillServesEveryone(d: Desk, pair: (int, int), stop: nat)
    requires WellFormed(d) && IsStaff(d.staff, pair.0) && IsStaff(d.staff, pair.1)
    requires |Waiting(d.joined, d.users)| <= stop
    ensures var (d', n) := Backfill(d, pair, stop);
            var waiting := Filter(d.joined, (u: int) => u in d.users && d.users[u].owner == None && d.users[u].wantsRm);
            && n == |waiting| && Waiting(d'.joined, d'.users) == []
            && d'.users.Keys == d.users.Keys
            && (forall k :: 0 <= k < n ==>
                  waiting[k] in d.users && Owner(d'.users, waiting[k]) == Some(if k % 2 == 0 then pair.0 else pair.1))
            && (forall u :: u in d.users && (d.users[u].owner != None || !d.users[u].wantsRm)
                            ==> d'.users[u] == d.users[u])
  {
    var waiting := Waiting(d.joined, d.users);
    WaitingIsQuery(d.joined, d.users);
    WaitingIsUnassigned(d.joined, d.users);
    BackfillFromAlternates(d, waiting, pair, 0, stop);
    assert waiting[0..] == waiting;
    var (d', n) := Backfill(d, pair, stop);
    forall k | 0 <= k < n ensures waiting[k] in d.users && Owner(d'.users, waiting[k]) == Some(TurnOf(pair, k)) {
      assert waiting[k] in waiting;
    }
    BackfillLeavesNobody(d, d', pair, waiting);
  }

  /** The rows of a run of the loop, from the first user on. */
  lemma BackfillRows(d: Desk, waiting: seq<int>, pair: (int, int), stop: nat)
    requires |waiting| <= stop && IsStaff(d.staff, pair.0) && IsStaff(d.staff, pair.1)
    requires forall u :: u in waiting ==> u in d.users
    ensures var (d', n) := BackfillFrom(d, waiting, pair, 0, stop);
            && n == |waiting| && d'.last == d.last && |d'.history| == |d.history| + n
            && d'.history[..|d.history|] == d.history
            && forall k :: 0 <= k < n ==>
                 d'.history[|d.history| + k]
                 == Row(waiting[k], None, Some(if k % 2 == 0 then pair.0 else pair.1), Assign, None)
  {
    BackfillFromRows(d, waiting, pair, 0, stop);
    var d', rows := BackfillFrom(d, waiting, pair, 0, stop).0, |d.history|;
    forall k | 0 <= k < |waiting|
      ensures d'.history[rows + k] == Row(waiting[k], None, Some(if k % 2 == 0 then pair.0 else pair.1), Assign, None)
    {
      assert d'.history[rows + (k - 0)] == Row(waiting[k], None, Some(TurnOf(pair, k)), Assign, None);
    }
  }

  /** And it writes one row per user, in that order, and leaves the rotation at the manager whose turn was last. */
  lemma BackfillRecords(d: Desk, pair: (int, int), stop: nat)
    requires WellFormed(d) && IsStaff(d.staff, pair.0) && IsStaff(d.staff, pair.1)
    requires |Waiting(d.joined, d.users)| <= stop
    ensures var (d', n) := Backfill(d, pair, stop);
            var waiting := Waiting(d.joined, d.users);
            && n == |waiting| && |d'.history| == |d.history| + n && d'.history[..|d.history|] == d.history
            && (forall k :: 0 <= k < n ==>
                  d'.history[|d.history| + k]
                  == Row(waiting[k], None, Some(if k % 2 == 0 then pair.0 else pair.1), Assign, None))
            && d'.last == (if n == 0 then d.last else Some(if (n - 1) % 2 == 0 then pair.0 else pair.1))
  {
    WaitingIsUnassigned(d.joined, d.users);
    BackfillRows(d, Waiting(d.joined, d.users), pair, stop);
  }

  lemma BackfillLeavesNobody(d: Desk, d': Desk, pair: (int, int), waiting: seq<int>)
    requires WellFormed(d) && waiting == Waiting(d.joined, d.users) && d'.joined == d.joined
    requires forall k :: 0 <= k < |waiting| ==> Owner(d'.users, waiting[k]) == Some(TurnOf(pair, k))
    requires forall u :: u in d.users && u !in waiting ==> u in d'.users && d'.users[u] == d.users[u]
    ensures Waiting(d'.joined, d'.users) == []
  {
    WaitingIsUnassigned(d.joined, d.users);
    forall u | u in d'.joined ensures !IsWaiting(d'.users, u) {
      assert u in d.joined && u in d.users;
      if u in waiting {
        var k :| 0 <= k < |waiting| && waiting[k] == u;
        assert Owner(d'.users, waiting[k]) == Some(TurnOf(pair, k));
      } else {
        assert d'.users[u] == d.users[u];
      }
    }
    NobodyWaits(d'.joined, d'.users);
  }

  // ---- a stale read -----------------------------------------------------------------------------

  /**
   A manual assignment reads the owner and writes later, and nothing locks the row in
   between. When two of them read before either writes, both writes go through, and the
   history stays a chain only if the first of them had changed nothing.
   */
  lemma StaleReadBreaksChain(d: Desk, u: int, x: int, y: int, actor: Option<int>, action: Action)
    requires Inv(d) && u in d.users && IsStaff(d.staff, x) && IsStaff(d.staff, y)
    requires actor == None || IsStaff(d.staff, actor.value)
    ensures var from := d.users[u].owner;
            var first := Apply(d, Row(u, from, Some(x), action, actor));
            first != None
            && var second := Apply(first.value, Row(u, from, Some(y), action, actor));
               second != None && (Inv(second.value) <==> from == Some(x))
  {
    var from := d.users[u].owner;
    ApplyKeepsLedgerExactly(d, Row(u, from, Some(x), action, actor));
    var first := Apply(d, Row(u, from, Some(x), action, actor)).value;
    ApplyKeepsLedgerExactly(first, Row(u, from, Some(y), action, actor));
  }
}
