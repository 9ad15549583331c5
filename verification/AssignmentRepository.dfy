/**
 The repository's methods over the tables. A transaction works on its own copy of the
 desk and writes it back at the commit; faults stand for the errors of statements.
 */
module AssignmentRepository {
  import opened Options
  import opened AssignmentRing
  import opened AssignmentDesk
  import opened AssignmentLedger

  method FilterRing(ring: seq<Slot>, rm: int) returns (filtered: seq<Slot>)
    ensures filtered == Without(ring, rm)
  {
    filtered := [];
    for i := 0 to |ring|
      invariant filtered == Without(ring[..i], rm)
    {
      assert ring[..i + 1][..i] == ring[..i];
      if ring[i].rmId != rm {
        filtered := filtered + [ring[i]];
      }
    }
    assert ring[..|ring|] == ring;
  }

  /** The loop of an offboarding on the transaction's copy; a fault at number |clients| is the commit's. */
  method MoveClients(start: Desk, rm: int, clients: seq<int>, actor: Option<int>, faultAt: nat)
    returns (r: Option<(Desk, int)>)
    requires clients != []
    ensures r == if faultAt > |clients| then MoveAll(start, rm, clients, NIL_ID, actor) else None
  {
    var tx, after, moved := start, NIL_ID, 0;
    while moved < |clients|
      invariant 0 <= moved <= |clients| && moved <= faultAt
      invariant MoveAll(start, rm, clients, NIL_ID, actor) == MoveAll(tx, rm, clients[moved..], after, actor)
    {
      if moved == faultAt {
        return None;
      }
      var filtered := FilterRing(Ring(tx), rm);
      var chosen, overflow, ok := PickNextRM(filtered, after);
      assert clients[moved..][1..] == clients[moved + 1..];
      if !ok {
        return None;
      }
      var applied := Apply(tx, Row(clients[moved], Some(rm), Some(chosen), Transfer, actor));
      if applied == None {
        return None;
      }
      tx, after, moved := applied.value, chosen, moved + 1;
    }
    r := if faultAt > |clients| then Some((tx, after)) else None;
  }

  class Repository {
    var users: map<int, User>
    var joined: seq<int>
    var staff: seq<Staff>
    var history: seq<Row>
    var last: Option<int>

    function Tables(): Desk
      reads this
    {
      Desk(users, joined, staff, history, last)
    }

    /** The schema's keys and references, and a ledger in order. */
    ghost predicate Valid()
      reads this
    {
      Inv(Tables())
    }

    constructor (tables: Desk)
      requires Inv(tables)
      ensures Valid() && Tables() == tables
    {
      users, joined, staff, history, last := tables.users, tables.joined, tables.staff, tables.history, tables.last;
    }

    method Commit(tx: Desk)
      modifies this
      ensures Tables() == tx
    {
      users, joined, staff, history, last := tx.users, tx.joined, tx.staff, tx.history, tx.last;
    }

    /** What one committed assignment is to a caller: one owner changes, one row says from whom to whom. */
    twostate predicate Reassigned(user: int, to: Option<int>, action: Action, actor: Option<int>)
      reads this
    {
      && user in old(users)
      && users == old(users)[user := old(users)[user].(owner := to)]
      && history == old(history) + [Row(user, old(users)[user].owner, to, action, actor)]
      && joined == old(joined) && staff == old(staff)
    }

    method AssignNextRM(user: int, fault: bool) returns (rm: Option<int>)
      requires Valid()
      modifies this
      ensures Valid()
      ensures rm != None <==> !fault && user in old(users) && Ring(old(Tables())) != []
      ensures if rm != None then Some(Tables()) == AssignNext(old(Tables()), user) else Tables() == old(Tables())
      ensures rm != None ==> rm == last && Reassigned(user, rm, AutoAssign, None)
      ensures rm != None && SomebodyHasRoom(old(Tables())) ==>
                forall s :: s in staff && s.id == rm.value ==>
                  && s.active && s.isRm && |Book(old(joined), old(users), s.id)| < s.maxPortfolios
                  && |Book(joined, users, s.id)| <= s.maxPortfolios
    {
      var tx := Tables();
      var ring := Ring(tx);
      var chosen, overflow, ok := PickNextRM(ring, After(tx.last));
      if !ok || user !in tx.users || fault {
        return None;
      }
      PickIsStaff(tx, After(tx.last));
      OwnerIsStaff(tx, user);
      var applied := Apply(tx, Row(user, tx.users[user].owner, Some(chosen), AutoAssign, None));
      if applied == None {
        return None;
      }
      AssignNextKeeps(tx, user);
      if SomebodyHasRoom(tx) {
        forall s | s in tx.staff && s.id == chosen {
          AssignNextStaysWithinCapacity(tx, user, s);
        }
      }
      Commit(applied.value.(last := Some(chosen)));
      rm := Some(chosen);
    }

    method ManualAssignRM(user: int, to: int, actor: Option<int>, action: Action, fault: bool) returns (ok: bool)
      requires Valid()
      modifies this
      ensures Valid()
      ensures ok <==> !fault && user in old(users) && IsStaff(old(staff), to)
                      && (actor == None || IsStaff(old(staff), actor.value))
      ensures ok ==> Reassigned(user, Some(to), action, actor) && last == old(last)
      ensures ok ==> End(Trail(history, user)) == Some(to)
      ensures !ok ==> Tables() == old(Tables())
    {
      var tx := Tables();
      if user !in tx.users || fault {
        return false;
      }
      OwnerIsStaff(tx, user);
      var row := Row(user, tx.users[user].owner, Some(to), action, actor);
      var applied := Apply(tx, row);
      if applied == None {
        return false;
      }
      ApplyKeepsLedgerExactly(tx, row);
      Commit(applied.value);
      assert UserOk(Tables(), user);
      ok := true;
    }

    method UnassignRM(user: int, actor: Option<int>, fault: bool) returns (ok: bool)
      requires Valid()
      modifies this
      ensures Valid()
      ensures ok <==> !fault && user in old(users) && (actor == None || IsStaff(old(staff), actor.value))
      ensures ok ==> Reassigned(user, None, Remove, actor) && last == old(last)
      ensures ok ==> forall rm :: user !in Book(joined, users, rm)
      ensures !ok ==> Tables() == old(Tables())
    {
      var tx := Tables();
      if user !in tx.users || fault {
        return false;
      }
      OwnerIsStaff(tx, user);
      var row := Row(user, tx.users[user].owner, None, Remove, actor);
      var applied := Apply(tx, row);
      if applied == None {
        return false;
      }
      ApplyKeepsLedgerExactly(tx, row);
      Commit(applied.value);
      forall rm ensures user !in Book(joined, users, rm) {
        BookIsOwned(joined, users, rm);
      }
      ok := true;
    }

    /** A fault at client number faultAt, or none when it is beyond the book; at the very end it is the commit's. */
    method OffboardRM(rm: int, actor: Option<int>, faultAt: nat) returns (moved: Option<nat>)
      requires Valid()
      modifies this
      ensures Valid()
      ensures var book := Book(old(joined), old(users), rm);
              moved != None <==> faultAt > |book| && CanOffboard(old(Tables()), rm, actor)
      ensures if moved != None then Some((Tables(), moved.value)) == Offboard(old(Tables()), rm, actor)
              else Tables() == old(Tables())
      ensures var ring := TargetRing(old(Tables()), rm);
              moved != None && ring != [] && moved.value <= FreePlaces(ring) ==>
                WithinCapacity(ring, TargetRing(Tables(), rm))
    {
      var tx := Tables();
      OffboardSucceedsExactly(tx, rm, actor);
      var clients := Book(tx.joined, tx.users, rm);
      if |clients| == 0 {
        return if faultAt == 0 then None else Some(0);
      }
      var r := MoveClients(tx, rm, clients, actor, faultAt);
      if r == None {
        return None;
      }
      OffboardKeeps(tx, rm, actor);
      if TargetRing(tx, rm) != [] && |clients| <= FreePlaces(TargetRing(tx, rm)) {
        OffboardStaysWithinCapacity(tx, rm, actor);
      }
      Commit(r.value.0.(last := Some(r.value.1)));
      moved := Some(|clients|);
    }

    /** The seed command: one transaction per waiting user; the process may stop before any of them. */
    method BackfillRMs(pair: (int, int), stop: nat) returns (served: nat)
      requires Valid()
      modifies this
      ensures Valid()
      ensures (Tables(), served) == Backfill(old(Tables()), pair, stop)
    {
      BackfillKeeps(Tables(), pair, stop);
      var waiting := Waiting(joined, users);
      served := ServeWaiting(waiting, pair, stop);
      if served == |waiting| && served > 0 {
        last := Some(TurnOf(pair, served - 1));
      }
    }

    method ServeWaiting(waiting: seq<int>, pair: (int, int), stop: nat) returns (served: nat)
      modifies this
      ensures (Tables(), served) == BackfillFrom(old(Tables()), waiting, pair, 0, stop)
    {
      ghost var start := Tables();
      served := 0;
      while served < |waiting|
        invariant 0 <= served <= |waiting|
        invariant BackfillFrom(start, waiting, pair, 0, stop) == BackfillFrom(Tables(), waiting, pair, served, stop)
      {
        if served == stop {
          return;
        }
        var applied := Apply(Tables(), Row(waiting[served], None, Some(TurnOf(pair, served)), Assign, None));
        if applied == None {
          return;
        }
        Commit(applied.value);
        served := served + 1;
      }
    }
  }

  /** An active manager has fewer clients than they can take. */
  ghost predicate SomebodyHasRoom(d: Desk) {
    exists s :: s in d.staff && s.active && s.isRm && |Book(d.joined, d.users, s.id)| < s.maxPortfolios
  }

  lemma OwnerIsStaff(d: Desk, user: int)
    requires WellFormed(d) && user in d.users
    ensures d.users[user].owner == None || IsStaff(d.staff, d.users[user].owner.value)
  {
  }

  lemma PickIsStaff(d: Desk, after: int)
    requires Ring(d) != []
    ensures IsStaff(d.staff, Ring(d)[PickIndex(Ring(d), after).index].rmId)
  {
    SlotsAt(Roster(d.staff), d);
    RosterIsStaff(d.staff, Roster(d.staff)[PickIndex(Ring(d), after).index]);
  }
}
