/**
 Assignments that interleave: each one reads the owner in one statement and writes owner
 and history row in a later one, and nothing locks the user's row in between.
 */
module AssignmentRaces {
  import opened Options
  import opened AssignmentDesk
  import opened AssignmentLedger

  /** tx remembers what it read; a write to None is a removal. */
  datatype RaceStep =
    | Read(tx: nat, user: int)
    | Write(tx: nat, to: Option<int>, action: Action, actor: Option<int>)

  datatype Race = Race(desk: Desk, seen: map<nat, (int, Option<int>)>)

  function RowOf(r: Race, step: RaceStep): Row
    requires step.Write? && step.tx in r.seen
  {
    Row(r.seen[step.tx].0, r.seen[step.tx].1, step.to, step.action, step.actor)
  }

  /** The write goes through. */
  predicate Writes(r: Race, step: RaceStep) {
    step.Write? && step.tx in r.seen && Apply(r.desk, RowOf(r, step)) != None
  }

  function Next(r: Race, step: RaceStep): Race {
    match step
    case Read(tx, user) =>
      if user in r.desk.users then r.(seen := r.seen[tx := (user, r.desk.users[user].owner)]) else r
    case Write(tx, _, _, _) =>
      if Writes(r, step) then Race(Apply(r.desk, RowOf(r, step)).value, r.seen - {tx}) else r.(seen := r.seen - {tx})
  }

  function Run(start: Desk, steps: seq<RaceStep>): Race {
    if steps == [] then Race(start, map[]) else Next(Run(start, steps[..|steps| - 1]), steps[|steps| - 1])
  }

  /** What a transaction reads, and what its write leaves: the new owner, and one row with the owner that was read. */
  lemma RaceStepExactly(r: Race, step: RaceStep)
    requires if step.Read? then step.user in r.desk.users else step.tx in r.seen
    ensures var r' := Next(r, step);
            match step
            case Read(tx, user) => r' == Race(r.desk, r.seen[tx := (user, r.desk.users[user].owner)])
            case Write(tx, to, action, actor) =>
              var (user, from) := r.seen[tx];
              && tx !in r'.seen && r'.desk.joined == r.desk.joined && r'.desk.staff == r.desk.staff
              && if Writes(r, step) then
                   && user in r.desk.users
                   && r'.desk.users == r.desk.users[user := User(to, r.desk.users[user].wantsRm)]
                   && r'.desk.history == r.desk.history + [Row(user, from, to, action, actor)]
                 else r'.desk == r.desk
  {
  }

  /** A write that goes through still finds the owner that its transaction read. */
  predicate IsFresh(r: Race, step: RaceStep) {
    Writes(r, step) ==> r.seen[step.tx].1 == Owner(r.desk.users, r.seen[step.tx].0)
  }

  predicate AllFresh(start: Desk, steps: seq<RaceStep>) {
    steps == [] ||
    (AllFresh(start, steps[..|steps| - 1]) && IsFresh(Run(start, steps[..|steps| - 1]), steps[|steps| - 1]))
  }

  /** What even stale writes keep: keys and references, and histories that end at the stored owner. */
  ghost predicate LooseInv(d: Desk) {
    && WellFormed(d)
    && (forall r :: r in d.history ==> r.user in d.users)
    && forall u :: u in d.users ==> End(Trail(d.history, u)) == Owner(d.users, u)
  }

  ghost predicate AllChains(d: Desk) {
    forall u :: u in d.users ==> IsChain(Trail(d.history, u))
  }

  lemma InvIsLooseAndChains(d: Desk)
    ensures Inv(d) <==> LooseInv(d) && AllChains(d)
  {
    if Inv(d) {
      forall u | u in d.users ensures IsChain(Trail(d.history, u)) && End(Trail(d.history, u)) == Owner(d.users, u) {
        assert UserOk(d, u);
      }
    }
    if LooseInv(d) && AllChains(d) {
      forall u | u in d.users ensures UserOk(d, u) {
      }
    }
  }

  lemma ApplyKeepsLoose(d: Desk, row: Row)
    requires LooseInv(d) && Apply(d, row) != None
    ensures LooseInv(Apply(d, row).value)
  {
    var d' := Apply(d, row).value;
    forall u | u in d'.users ensures End(Trail(d'.history, u)) == Owner(d'.users, u) {
      TrailAppend(d.history, row, u);
    }
  }

  lemma ApplyKeepsChainsExactly(d: Desk, row: Row)
    requires LooseInv(d) && Apply(d, row) != None
    ensures AllChains(Apply(d, row).value) <==> AllChains(d) && row.from == Owner(d.users, row.user)
  {
    var d' := Apply(d, row).value;
    forall u | u in d.users
      ensures IsChain(Trail(d'.history, u))
              <==> IsChain(Trail(d.history, u)) && (u == row.user ==> row.from == Owner(d.users, u))
    {
      TrailAppend(d.history, row, u);
      ChainAppend(Trail(d.history, u), row);
    }
  }

  lemma StepKeepsExactly(r: Race, step: RaceStep)
    requires LooseInv(r.desk)
    ensures LooseInv(Next(r, step).desk)
    ensures AllChains(Next(r, step).desk) <==> AllChains(r.desk) && IsFresh(r, step)
  {
    if Writes(r, step) {
      ApplyKeepsLoose(r.desk, RowOf(r, step));
      ApplyKeepsChainsExactly(r.desk, RowOf(r, step));
    }
  }

  lemma {:induction false} RunKeepsExactly(start: Desk, steps: seq<RaceStep>)
    requires Inv(start)
    ensures LooseInv(Run(start, steps).desk)
    ensures AllChains(Run(start, steps).desk) <==> AllFresh(start, steps)
    decreases |steps|
  {
    if steps == [] {
      InvIsLooseAndChains(start);
    } else {
      RunKeepsExactly(start, steps[..|steps| - 1]);
      StepKeepsExactly(Run(start, steps[..|steps| - 1]), steps[|steps| - 1]);
    }
  }

  /**
   Over every interleaving of reads and writes from a desk in order, the ledger is in order
   at the end if and only if every write still found the owner that its transaction had read.
   One stale write can never be made good by later ones.
   */
  lemma RaceKeepsLedgerExactly(start: Desk, steps: seq<RaceStep>)
    requires Inv(start)
    ensures Inv(Run(start, steps).desk) <==> AllFresh(start, steps)
  {
    RunKeepsExactly(start, steps);
    InvIsLooseAndChains(Run(start, steps).desk);
  }

  /** Even then, the stored owner of every user is where the user's last row went. */
  lemma OwnerIsAlwaysLastRow(start: Desk, steps: seq<RaceStep>, user: int)
    requires Inv(start) && user in start.users
    ensures var d := Run(start, steps).desk;
            user in d.users && End(Trail(d.history, user)) == d.users[user].owner
  {
    RunKeepsExactly(start, steps);
    UsersStay(start, steps);
  }

  lemma {:induction false} UsersStay(start: Desk, steps: seq<RaceStep>)
    ensures Run(start, steps).desk.users.Keys == start.users.Keys
    decreases |steps|
  {
    if steps != [] {
      UsersStay(start, steps[..|steps| - 1]);
    }
  }
}
