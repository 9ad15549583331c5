/**
 The tables behind the relationship-manager desk and the books they define: who holds
 whom, how many, and the ring that the assignment queries build from them.
 */
module AssignmentDesk {
  import opened Options
  import opened AssignmentRing
  import opened Selections

  datatype Staff = Staff(id: int, active: bool, isRm: bool, maxPortfolios: int)

  datatype User = User(owner: Option<int>, wantsRm: bool)

  datatype Action = AutoAssign | Assign | Transfer | Remove

  /** One history row; the rows are kept in the order of their insertion. */
  datatype Row = Row(user: int, from: Option<int>, to: Option<int>, action: Action, actor: Option<int>)

  /** joined lists the users, and staff the managers and admins, by creation time. */
  datatype Desk = Desk(
    users: map<int, User>, joined: seq<int>, staff: seq<Staff>, history: seq<Row>, last: Option<int>)

  /** uuid.Nil, the last assigned manager of an empty queue state. */
  const NIL_ID := 0

  function After(last: Option<int>): int {
    if last == None then NIL_ID else last.value
  }

  function Owner(users: map<int, User>, u: int): Option<int> {
    if u in users then users[u].owner else None
  }

  predicate IsStaff(staff: seq<Staff>, id: int) {
    exists i :: 0 <= i < |staff| && staff[i].id == id
  }

  ghost predicate NoDuplicates<T>(s: seq<T>) {
    forall i, j :: 0 <= i < j < |s| ==> s[i] != s[j]
  }

  ghost predicate DistinctStaff(staff: seq<Staff>) {
    forall i, j :: 0 <= i < j < |staff| ==> staff[i].id != staff[j].id
  }

  /** The keys and references that the schema enforces. */
  ghost predicate WellFormed(d: Desk) {
    && NoDuplicates(d.joined)
    && (forall u :: u in d.users <==> u in d.joined)
    && DistinctStaff(d.staff)
    && (forall u :: u in d.users && d.users[u].owner != None ==> IsStaff(d.staff, d.users[u].owner.value))
  }

  // ---- books ------------------------------------------------------------------------------

  /** The clients of rm, oldest first. */
  function Book(joined: seq<int>, users: map<int, User>, rm: int): (clients: seq<int>)
    decreases |joined|
  {
    if joined == [] then []
    else
      var rest := Book(joined[..|joined| - 1], users, rm);
      var u := joined[|joined| - 1];
      if Owner(users, u) == Some(rm) then rest + [u] else rest
  }

  /** The query of a book: the users with that owner, in the order of the table. */
  lemma {:induction false} BookIsQuery(joined: seq<int>, users: map<int, User>, rm: int)
    ensures Book(joined, users, rm) == Filter(joined, (u: int) => u in users && users[u].owner == Some(rm))
    decreases |joined|
  {
    if joined != [] {
      BookIsQuery(joined[..|joined| - 1], users, rm);
    }
  }

  lemma {:induction false} BookIsOwned(joined: seq<int>, users: map<int, User>, rm: int)
    ensures forall u :: u in Book(joined, users, rm) <==> u in joined && Owner(users, u) == Some(rm)
    ensures NoDuplicates(joined) ==> NoDuplicates(Book(joined, users, rm))
    decreases |joined|
  {
    if joined != [] {
      var front, u := joined[..|joined| - 1], joined[|joined| - 1];
      assert joined == front + [u];
      BookIsOwned(front, users, rm);
      if NoDuplicates(joined) {
        assert NoDuplicates(front);
        assert u !in front;
      }
    }
  }

  function One(b: bool): nat {
    if b then 1 else 0
  }

  lemma {:induction false} BookWithout(joined: seq<int>, users: map<int, User>, u: int, row: User, rm: int)
    requires u !in joined
    ensures Book(joined, users[u := row], rm) == Book(joined, users, rm)
    decreases |joined|
  {
    if joined != [] {
      assert joined == joined[..|joined| - 1] + [joined[|joined| - 1]];
      BookWithout(joined[..|joined| - 1], users, u, row, rm);
    }
  }

  /** Changing one client's owner moves exactly that client between books. */
  lemma {:induction false} BookMove(joined: seq<int>, users: map<int, User>, u: int, row: User, rm: int)
    requires NoDuplicates(joined) && u in joined
    ensures |Book(joined, users[u := row], rm)| + One(Owner(users, u) == Some(rm))
            == |Book(joined, users, rm)| + One(row.owner == Some(rm))
    decreases |joined|
  {
    var front, v := joined[..|joined| - 1], joined[|joined| - 1];
    assert joined == front + [v];
    assert NoDuplicates(front);
    if v == u {
      assert u !in front;
      BookWithout(front, users, u, row, rm);
    } else {
      BookMove(front, users, u, row, rm);
    }
  }

  // ---- the ring ---------------------------------------------------------------------------------

  /** The active managers, in ring order. */
  function Roster(staff: seq<Staff>): (roster: seq<Staff>)
    ensures forall s :: s in roster ==> s in staff && s.active && s.isRm
  {
    if staff == [] then []
    else
      var rest := Roster(staff[..|staff| - 1]);
      var s := staff[|staff| - 1];
      if s.active && s.isRm then rest + [s] else rest
  }

  function Others(roster: seq<Staff>, rm: int): (others: seq<Staff>)
    ensures forall s :: s in others ==> s in roster && s.id != rm
  {
    if roster == [] then []
    else
      var rest := Others(roster[..|roster| - 1], rm);
      var s := roster[|roster| - 1];
      if s.id != rm then rest + [s] else rest
  }

  function SlotOf(s: Staff, d: Desk): Slot {
    Slot(s.id, s.maxPortfolios, |Book(d.joined, d.users, s.id)|)
  }

  function Slots(roster: seq<Staff>, d: Desk): (ring: seq<Slot>)
    ensures |ring| == |roster|
  {
    if roster == [] then []
    else Slots(roster[..|roster| - 1], d) + [SlotOf(roster[|roster| - 1], d)]
  }

  /** What the ring query returns. */
  function Ring(d: Desk): seq<Slot> {
    Slots(Roster(d.staff), d)
  }

  function Without(ring: seq<Slot>, rm: int): seq<Slot> {
    if ring == [] then []
    else
      var rest := Without(ring[..|ring| - 1], rm);
      var s := ring[|ring| - 1];
      if s.rmId != rm then rest + [s] else rest
  }

  lemma {:induction false} RosterIsQuery(staff: seq<Staff>)
    ensures Roster(staff) == Filter(staff, (s: Staff) => s.active && s.isRm)
    decreases |staff|
  {
    if staff != [] {
      RosterIsQuery(staff[..|staff| - 1]);
    }
  }

  /** The query of the ring: every active manager in order of creation, with capacity and size of the book. */
  lemma RingIsQuery(d: Desk)
    ensures var roster := Filter(d.staff, (s: Staff) => s.active && s.isRm);
            && |Ring(d)| == |roster|
            && forall i :: 0 <= i < |roster| ==>
                 Ring(d)[i] == Slot(roster[i].id, roster[i].maxPortfolios, |Book(d.joined, d.users, roster[i].id)|)
  {
    RosterIsQuery(d.staff);
    SlotsAt(Roster(d.staff), d);
  }

  lemma {:induction false} SlotsAt(roster: seq<Staff>, d: Desk)
    ensures forall i :: 0 <= i < |roster| ==> Slots(roster, d)[i] == SlotOf(roster[i], d)
    decreases |roster|
  {
    if roster != [] {
      SlotsAt(roster[..|roster| - 1], d);
    }
  }

  lemma {:induction false} SlotsWithout(roster: seq<Staff>, d: Desk, rm: int)
    ensures Without(Slots(roster, d), rm) == Slots(Others(roster, rm), d)
    decreases |roster|
  {
    if roster != [] {
      var front, s := roster[..|roster| - 1], roster[|roster| - 1];
      SlotsWithout(front, d, rm);
      var ring := Slots(roster, d);
      assert ring[..|ring| - 1] == Slots(front, d);
      if s.id != rm {
        assert (Others(front, rm) + [s])[..|Others(front, rm)|] == Others(front, rm);
      }
    }
  }

  lemma {:induction false} RosterHasAll(staff: seq<Staff>, s: Staff)
    requires s in staff && s.active && s.isRm
    ensures s in Roster(staff)
    decreases |staff|
  {
    var front, last := staff[..|staff| - 1], staff[|staff| - 1];
    assert staff == front + [last];
    if s in front {
      RosterHasAll(front, s);
    }
  }

  lemma {:induction false} RosterIsDistinct(staff: seq<Staff>)
    requires DistinctStaff(staff)
    ensures DistinctStaff(Roster(staff))
    decreases |staff|
  {
    if staff != [] {
      var front, s := staff[..|staff| - 1], staff[|staff| - 1];
      RosterIsDistinct(front);
      forall t | t in front ensures t.id != s.id {
        var i :| 0 <= i < |front| && front[i] == t;
        assert staff[i] == t;
      }
    }
  }

  lemma {:induction false} OthersAreDistinct(roster: seq<Staff>, rm: int)
    requires DistinctStaff(roster)
    ensures DistinctStaff(Others(roster, rm))
    decreases |roster|
  {
    if roster != [] {
      var front, s := roster[..|roster| - 1], roster[|roster| - 1];
      OthersAreDistinct(front, rm);
      forall t | t in front ensures t.id != s.id {
        var i :| 0 <= i < |front| && front[i] == t;
        assert roster[i] == t;
      }
    }
  }

  lemma SlotsAreDistinct(roster: seq<Staff>, d: Desk)
    requires DistinctStaff(roster)
    ensures DistinctIds(Slots(roster, d))
  {
    SlotsAt(roster, d);
    forall i, j | 0 <= i < j < |roster| ensures Slots(roster, d)[i].rmId != Slots(roster, d)[j].rmId {
      assert roster[i].id != roster[j].id;
    }
  }

  lemma {:induction false} RosterIsStaff(staff: seq<Staff>, s: Staff)
    requires s in Roster(staff)
    ensures IsStaff(staff, s.id)
  {
    var i :| 0 <= i < |staff| && staff[i] == s;
  }

  /** A client who arrives at one manager's book, from outside the ring, takes one place there. */
  lemma ArrivalTakesSlot(roster: seq<Staff>, d: Desk, d': Desk, u: int, i: nat)
    requires DistinctStaff(roster) && i < |roster|
    requires NoDuplicates(d.joined) && u in d.joined && d'.joined == d.joined
    requires u in d'.users && d'.users == d.users[u := d'.users[u]] && d'.users[u].owner == Some(roster[i].id)
    requires forall j :: 0 <= j < |roster| ==> Owner(d.users, u) != Some(roster[j].id)
    ensures Slots(roster, d') == Take(Slots(roster, d), i)
  {
    SlotsAt(roster, d);
    SlotsAt(roster, d');
    forall j | 0 <= j < |roster| ensures Slots(roster, d')[j] == Take(Slots(roster, d), i)[j] {
      BookMove(d.joined, d.users, u, d'.users[u], roster[j].id);
      assert roster[j].id == roster[i].id ==> i == j;
    }
  }

  // ---- conservation -------------------------------------------------------------------------------

  function SumOfBooks(staff: seq<Staff>, joined: seq<int>, users: map<int, User>): nat {
    if staff == [] then 0
    else SumOfBooks(staff[..|staff| - 1], joined, users) + |Book(joined, users, staff[|staff| - 1].id)|
  }

  function AssignedCount(joined: seq<int>, users: map<int, User>): nat {
    if joined == [] then 0
    else AssignedCount(joined[..|joined| - 1], users) + One(Owner(users, joined[|joined| - 1]) != None)
  }

  lemma {:induction false} SumOfNoBooks(staff: seq<Staff>, users: map<int, User>)
    ensures SumOfBooks(staff, [], users) == 0
    decreases |staff|
  {
    if staff != [] {
      SumOfNoBooks(staff[..|staff| - 1], users);
    }
  }

  /** One more user adds one to the sum when a manager on the list owns them. */
  lemma {:induction false} SumOfBooksGrows(staff: seq<Staff>, joined: seq<int>, users: map<int, User>)
    requires joined != [] && DistinctStaff(staff)
    ensures var u := Owner(users, joined[|joined| - 1]);
            SumOfBooks(staff, joined, users)
            == SumOfBooks(staff, joined[..|joined| - 1], users) + One(u != None && IsStaff(staff, u.value))
    decreases |staff|
  {
    if staff != [] {
      var front, s := staff[..|staff| - 1], staff[|staff| - 1];
      var u := Owner(users, joined[|joined| - 1]);
      SumOfBooksGrows(front, joined, users);
      assert staff == front + [s];
      if u != None {
        assert IsStaff(staff, u.value) <==> IsStaff(front, u.value) || s.id == u.value by {
          if IsStaff(front, u.value) {
            var i :| 0 <= i < |front| && front[i].id == u.value;
            assert staff[i].id == u.value;
          }
          assert staff[|staff| - 1].id == s.id;
        }
        if s.id == u.value {
          assert !IsStaff(front, u.value) by {
            forall i | 0 <= i < |front| ensures front[i].id != u.value {
              assert staff[i].id != staff[|staff| - 1].id;
            }
          }
        }
      }
    }
  }

  /** The books partition the assigned users: their sizes add up to the number of assigned users. */
  lemma {:induction false} BooksPartitionAssigned(staff: seq<Staff>, joined: seq<int>, users: map<int, User>)
    requires DistinctStaff(staff)
    requires forall u :: u in joined && Owner(users, u) != None ==> IsStaff(staff, Owner(users, u).value)
    ensures SumOfBooks(staff, joined, users) == AssignedCount(joined, users)
    decreases |joined|
  {
    if joined == [] {
      SumOfNoBooks(staff, users);
    } else {
      assert joined[|joined| - 1] in joined;
      SumOfBooksGrows(staff, joined, users);
      BooksPartitionAssigned(staff, joined[..|joined| - 1], users);
    }
  }

  lemma {:induction false} SameAssigned(joined: seq<int>, users: map<int, User>, users': map<int, User>)
    requires forall u :: u in joined ==> (Owner(users, u) == None <==> Owner(users', u) == None)
    ensures AssignedCount(joined, users) == AssignedCount(joined, users')
    decreases |joined|
  {
    if joined != [] {
      assert joined[|joined| - 1] in joined;
      SameAssigned(joined[..|joined| - 1], users, users');
    }
  }
}
