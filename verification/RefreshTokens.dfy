/**
 Refresh tokens under contention. A rotation is a transaction of several statements:
 a conditional update that locks the old token's row, an insert that may violate the
 unique hash, then commit or rollback. The app-side and the staff-side tables run the
 same statements.
 */
module RefreshTokens {
  import opened Options

  type Hash = string

  /** A token row as everybody sees it. The login is the chain of rotations it belongs to. */
  datatype Token = Token(user: int, login: nat, expires: int, revokedAt: Option<int>)

  /** A row in the table: the newest version, and the transaction whose write is not committed. */
  datatype Row = Row(token: Token, writer: Option<nat>, inserted: bool)

  datatype Phase = Begun | Updated | Inserted

  /** An open rotation; start is the transaction's own now(). */
  datatype Rotation = Rotation(used: Hash, issued: Hash, newExpires: int, start: int, phase: Phase)

  /** accepted logs, in order, every token that a call answered with ok. */
  datatype State = State(
    rows: map<Hash, Row>, open: map<nat, Rotation>, now: int, accepted: seq<Hash>, logins: nat)

  datatype Step =
    | Tick(to: int)
    | Create(user: int, hash: Hash, expires: int)
    | Revoke(hash: Hash)
    | Consume(hash: Hash, start: int)
    | Begin(tx: nat, used: Hash, issued: Hash, newExpires: int)
    | Update(tx: nat)
    | Insert(tx: nat)
    | Commit(tx: nat)
    | Rollback(tx: nat)

  const INITIAL := State(map[], map[], 0, [], 0)

  predicate IsLive(t: Token) {
    t.revokedAt == None
  }

  /** A committed row that some statement can update: no rows match an uncommitted insert. */
  predicate Visible(s: State, h: Hash) {
    h in s.rows && !(s.rows[h].writer != None && s.rows[h].inserted)
  }

  /** Another transaction's uncommitted write: a statement on this row waits. */
  predicate Blocked(s: State, h: Hash) {
    h in s.rows && s.rows[h].writer != None
  }

  function SetRevoked(r: Row, at: Option<int>, writer: Option<nat>): Row {
    r.(token := r.token.(revokedAt := at), writer := writer)
  }

  /** Undo the writes of an open rotation. */
  function Undo(rows: map<Hash, Row>, r: Rotation): map<Hash, Row> {
    var restored := if r.phase != Begun && r.used in rows
                    then rows[r.used := SetRevoked(rows[r.used], None, None)] else rows;
    if r.phase == Inserted then restored - {r.issued} else restored
  }

  function CreateToken(s: State, user: int, hash: Hash, expires: int): Option<State> {
    if Blocked(s, hash) then None
    else if hash in s.rows then Some(s) // unique violation: the call reports an error
    else Some(s.(
      rows := s.rows[hash := Row(Token(user, s.logins, expires, None), None, false)],
      logins := s.logins + 1))
  }

  function RevokeToken(s: State, hash: Hash): Option<State> {
    if Visible(s, hash) && Blocked(s, hash) then None
    else if !Visible(s, hash) || !IsLive(s.rows[hash].token) then Some(s)
    else Some(s.(rows := s.rows[hash := SetRevoked(s.rows[hash], Some(s.now), None)]))
  }

  /** The conditional update as a statement of its own; start is when it began to wait. */
  function ConsumeToken(s: State, hash: Hash, start: int): Option<State> {
    if start > s.now || (Visible(s, hash) && Blocked(s, hash)) then None
    else if !Visible(s, hash) || !Claimable(s.rows[hash].token, start) then Some(s)
    else Some(s.(
      rows := s.rows[hash := SetRevoked(s.rows[hash], Some(start), None)],
      accepted := s.accepted + [hash]))
  }

  predicate Claimable(t: Token, at: int) {
    IsLive(t) && t.expires > at
  }

  function BeginRotation(s: State, tx: nat, used: Hash, issued: Hash, newExpires: int): Option<State> {
    if tx in s.open then None
    else Some(s.(open := s.open[tx := Rotation(used, issued, newExpires, s.now, Begun)]))
  }

  /** The conditional update inside a rotation; no matching row ends it with ok false. */
  function UpdateOld(s: State, tx: nat): Option<State> {
    if tx !in s.open || s.open[tx].phase != Begun then None
    else
      var r := s.open[tx];
      if Visible(s, r.used) && Blocked(s, r.used) then None
      else if !Visible(s, r.used) || !Claimable(s.rows[r.used].token, r.start) then
        Some(s.(open := s.open - {tx}))
      else Some(s.(
        rows := s.rows[r.used := SetRevoked(s.rows[r.used], Some(r.start), Some(tx))],
        open := s.open[tx := r.(phase := Updated)]))
  }

  /** The insert inside a rotation; a committed duplicate hash rolls everything back. */
  function InsertNew(s: State, tx: nat): Option<State> {
    if tx !in s.open || s.open[tx].phase != Updated then None
    else
      var r := s.open[tx];
      if r.issued != r.used && Blocked(s, r.issued) then None
      else if r.issued in s.rows || r.used !in s.rows then
        Some(s.(rows := Undo(s.rows, r), open := s.open - {tx}))
      else
        var used := s.rows[r.used].token;
        Some(s.(
          rows := s.rows[r.issued := Row(Token(used.user, used.login, r.newExpires, None), Some(tx), true)],
          open := s.open[tx := r.(phase := Inserted)]))
  }

  function CommitRotation(s: State, tx: nat): Option<State> {
    if tx !in s.open || s.open[tx].phase != Inserted then None
    else
      var r := s.open[tx];
      if r.used !in s.rows || r.issued !in s.rows then None
      else Some(s.(
        rows := s.rows[r.used := s.rows[r.used].(writer := None)]
                      [r.issued := s.rows[r.issued].(writer := None, inserted := false)],
        open := s.open - {tx},
        accepted := s.accepted + [r.used]))
  }

  function RollbackRotation(s: State, tx: nat): Option<State> {
    if tx !in s.open then None
    else Some(s.(rows := Undo(s.rows, s.open[tx]), open := s.open - {tx}))
  }

  /** The state after a step; None when it is not possible, or has to wait. */
  function Next(s: State, step: Step): Option<State> {
    match step
    case Tick(to) => if to < s.now then None else Some(s.(now := to))
    case Create(user, hash, expires) => CreateToken(s, user, hash, expires)
    case Revoke(hash) => RevokeToken(s, hash)
    case Consume(hash, start) => ConsumeToken(s, hash, start)
    case Begin(tx, used, issued, newExpires) => BeginRotation(s, tx, used, issued, newExpires)
    case Update(tx) => UpdateOld(s, tx)
    case Insert(tx) => InsertNew(s, tx)
    case Commit(tx) => CommitRotation(s, tx)
    case Rollback(tx) => RollbackRotation(s, tx)
  }

  function Run(steps: seq<Step>): Option<State> {
    if steps == [] then Some(INITIAL)
    else
      var before := Run(steps[..|steps| - 1]);
      if before == None then None else Next(before.value, steps[|steps| - 1])
  }

  // ---- the committed view, and the atomic store it refines ---------------------------

  /** What a reader sees: uncommitted inserts are absent, uncommitted revocations undone. */
  function View(s: State): map<Hash, Token> {
    map h | h in s.rows && Visible(s, h) ::
      if s.rows[h].writer != None then s.rows[h].token.(revokedAt := None) else s.rows[h].token
  }

  datatype Atomic =
    | Nothing
    | Issued(hash: Hash, token: Token)
    | Revoked(hash: Hash, at: int)
    | Rotated(used: Hash, issued: Hash, at: int, newExpires: int)

  /** One atomic change of the committed table. */
  predicate AtomicStep(v: map<Hash, Token>, a: Atomic, v': map<Hash, Token>) {
    match a
    case Nothing => v' == v
    case Issued(h, t) => h !in v && t.revokedAt == None && v' == v[h := t]
    case Revoked(h, at) => h in v && v[h].revokedAt == None && v' == v[h := v[h].(revokedAt := Some(at))]
    case Rotated(used, issued, at, exp) =>
      && used in v && issued !in v && v[used].revokedAt == None && v[used].expires > at
      && v' == v[used := v[used].(revokedAt := Some(at))]
                [issued := Token(v[used].user, v[used].login, exp, None)]
  }

  /** The atomic change a step of the interleaved machine makes. */
  function Effect(s: State, step: Step): Atomic {
    match step
    case Create(user, hash, expires) =>
      if hash in s.rows then Nothing else Issued(hash, Token(user, s.logins, expires, None))
    case Revoke(hash) =>
      if Visible(s, hash) && IsLive(s.rows[hash].token) then Revoked(hash, s.now) else Nothing
    case Consume(hash, start) =>
      if Visible(s, hash) && Claimable(s.rows[hash].token, start) then Revoked(hash, start) else Nothing
    case Commit(tx) =>
      if tx in s.open then
        var r := s.open[tx];
        Rotated(r.used, r.issued, r.start, r.newExpires)
      else Nothing
    case _ => Nothing
  }

  // ---- the invariant of open rotations -------------------------------------------------

  predicate RotationOk(s: State, tx: nat) {
    tx in s.open ==>
      var r := s.open[tx];
      && (r.phase != Begun ==>
            && r.used in s.rows && s.rows[r.used].writer == Some(tx) && !s.rows[r.used].inserted
            && s.rows[r.used].token.revokedAt == Some(r.start)
            && s.rows[r.used].token.expires > r.start)
      && (r.phase == Inserted ==>
            && r.issued != r.used
            && r.issued in s.rows && s.rows[r.issued].writer == Some(tx) && s.rows[r.issued].inserted
            && s.rows[r.issued].token
               == Token(s.rows[r.used].token.user, s.rows[r.used].token.login, r.newExpires, None))
  }

  /** A locked row is the old or the new token of an open rotation. */
  predicate RowOk(s: State, h: Hash) {
    h in s.rows ==>
      && (s.rows[h].inserted ==> s.rows[h].writer != None)
      && (s.rows[h].writer != None ==>
            var tx := s.rows[h].writer.value;
            && tx in s.open
            && if s.rows[h].inserted then s.open[tx].phase == Inserted && s.open[tx].issued == h
               else s.open[tx].phase != Begun && s.open[tx].used == h)
  }

  ghost predicate LocksOk(s: State) {
    && (forall tx: nat :: RotationOk(s, tx))
    && (forall h: Hash :: RowOk(s, h))
  }

  /** A statement outside any rotation changes one row that nobody has locked. */
  lemma FreeRowKeepsLocks(s: State, s': State, h: Hash, r: Row)
    requires LocksOk(s) && s' == s.(rows := s.rows[h := r], accepted := s'.accepted, logins := s'.logins)
    requires !Blocked(s, h) && r.writer == None && !r.inserted
    ensures LocksOk(s')
  {
    forall tx: nat ensures RotationOk(s', tx) {
      assert RotationOk(s, tx);
    }
    forall g: Hash ensures RowOk(s', g) {
      assert RowOk(s, g);
    }
  }

  lemma UpdateKeepsLocks(s: State, tx: nat)
    requires LocksOk(s) && UpdateOld(s, tx) != None
    ensures LocksOk(UpdateOld(s, tx).value)
  {
    var s' := UpdateOld(s, tx).value;
    assert RowOk(s, s.open[tx].used);
    forall t: nat ensures RotationOk(s', t) {
      assert RotationOk(s, t);
    }
    forall h: Hash ensures RowOk(s', h) {
      assert RowOk(s, h);
    }
  }

  lemma UndoKeepsLocks(s: State, tx: nat)
    requires LocksOk(s) && tx in s.open
    ensures LocksOk(s.(rows := Undo(s.rows, s.open[tx]), open := s.open - {tx}))
  {
    var s' := s.(rows := Undo(s.rows, s.open[tx]), open := s.open - {tx});
    assert RotationOk(s, tx);
    forall t: nat ensures RotationOk(s', t) {
      assert RotationOk(s, t);
    }
    forall h: Hash ensures RowOk(s', h) {
      assert RowOk(s, h);
    }
  }

  lemma InsertKeepsLocks(s: State, tx: nat)
    requires LocksOk(s) && InsertNew(s, tx) != None
    ensures LocksOk(InsertNew(s, tx).value)
  {
    var s' := InsertNew(s, tx).value;
    assert RotationOk(s, tx);
    if s.open[tx].issued in s.rows {
      UndoKeepsLocks(s, tx);
    } else {
      forall t: nat ensures RotationOk(s', t) {
        assert RotationOk(s, t);
      }
      forall h: Hash ensures RowOk(s', h) {
        assert RowOk(s, h);
      }
    }
  }

  lemma CommitKeepsLocks(s: State, tx: nat)
    requires LocksOk(s) && CommitRotation(s, tx) != None
    ensures LocksOk(CommitRotation(s, tx).value)
  {
    var s' := CommitRotation(s, tx).value;
    assert RotationOk(s, tx);
    forall t: nat ensures RotationOk(s', t) {
      assert RotationOk(s, t);
    }
    forall h: Hash ensures RowOk(s', h) {
      assert RowOk(s, h);
    }
  }

  lemma BeginKeepsLocks(s: State, tx: nat, used: Hash, issued: Hash, newExpires: int)
    requires LocksOk(s) && BeginRotation(s, tx, used, issued, newExpires) != None
    ensures LocksOk(BeginRotation(s, tx, used, issued, newExpires).value)
  {
    var s' := BeginRotation(s, tx, used, issued, newExpires).value;
    forall t: nat ensures RotationOk(s', t) {
      assert RotationOk(s, t);
    }
    forall h: Hash ensures RowOk(s', h) {
      assert RowOk(s, h);
    }
  }

  lemma TickKeepsLocks(s: State, to: int)
    requires LocksOk(s)
    ensures LocksOk(s.(now := to))
  {
    var s' := s.(now := to);
    forall t: nat ensures RotationOk(s', t) {
      assert RotationOk(s, t);
    }
    forall h: Hash ensures RowOk(s', h) {
      assert RowOk(s, h);
    }
  }

  lemma StepKeepsLocks(s: State, step: Step)
    requires LocksOk(s) && Next(s, step) != None
    ensures LocksOk(Next(s, step).value)
  {
    var s' := Next(s, step).value;
    match step {
      case Tick(to) => TickKeepsLocks(s, to);
      case Create(_, h, _) =>
        if h !in s.rows {
          FreeRowKeepsLocks(s, s', h, s'.rows[h]);
        }
      case Revoke(h) =>
        assert RowOk(s, h);
        if s' != s {
          FreeRowKeepsLocks(s, s', h, s'.rows[h]);
        }
      case Consume(h, _) =>
        assert RowOk(s, h);
        if s' != s {
          FreeRowKeepsLocks(s, s', h, s'.rows[h]);
        }
      case Begin(tx, used, issued, newExpires) => BeginKeepsLocks(s, tx, used, issued, newExpires);
      case Update(tx) => UpdateKeepsLocks(s, tx);
      case Insert(tx) => InsertKeepsLocks(s, tx);
      case Commit(tx) => CommitKeepsLocks(s, tx);
      case Rollback(tx) => UndoKeepsLocks(s, tx);
    }
  }

  // ---- refinement: every interleaved step is one atomic change, or none -----------------

  lemma CreateRefines(s: State, user: int, hash: Hash, expires: int)
    requires LocksOk(s) && CreateToken(s, user, hash, expires) != None
    ensures AtomicStep(View(s), Effect(s, Create(user, hash, expires)),
                       View(CreateToken(s, user, hash, expires).value))
  {
    assert RowOk(s, hash);
  }

  lemma RevokeRefines(s: State, hash: Hash)
    requires LocksOk(s) && RevokeToken(s, hash) != None
    ensures AtomicStep(View(s), Effect(s, Revoke(hash)), View(RevokeToken(s, hash).value))
  {
    assert RowOk(s, hash);
  }

  lemma ConsumeRefines(s: State, hash: Hash, start: int)
    requires LocksOk(s) && ConsumeToken(s, hash, start) != None
    ensures AtomicStep(View(s), Effect(s, Consume(hash, start)), View(ConsumeToken(s, hash, start).value))
  {
    assert RowOk(s, hash);
  }

  /** Locking the old token changes nothing that others see. */
  lemma UpdateRefines(s: State, tx: nat)
    requires LocksOk(s) && UpdateOld(s, tx) != None
    ensures View(UpdateOld(s, tx).value) == View(s)
  {
    assert RowOk(s, s.open[tx].used);
  }

  /** Undoing an open rotation restores exactly what others saw all along. */
  lemma UndoRefines(s: State, tx: nat)
    requires LocksOk(s) && tx in s.open
    ensures View(s.(rows := Undo(s.rows, s.open[tx]), open := s.open - {tx})) == View(s)
  {
    assert RotationOk(s, tx);
  }

  lemma InsertRefines(s: State, tx: nat)
    requires LocksOk(s) && InsertNew(s, tx) != None
    ensures View(InsertNew(s, tx).value) == View(s)
  {
    UndoRefines(s, tx);
  }

  lemma CommitRefines(s: State, tx: nat)
    requires LocksOk(s) && CommitRotation(s, tx) != None
    ensures AtomicStep(View(s), Effect(s, Commit(tx)), View(CommitRotation(s, tx).value))
  {
    assert RotationOk(s, tx);
  }

  lemma StepRefines(s: State, step: Step)
    requires LocksOk(s) && Next(s, step) != None
    ensures AtomicStep(View(s), Effect(s, step), View(Next(s, step).value))
  {
    match step {
      case Create(user, hash, expires) => CreateRefines(s, user, hash, expires);
      case Revoke(hash) => RevokeRefines(s, hash);
      case Consume(hash, start) => ConsumeRefines(s, hash, start);
      case Update(tx) => UpdateRefines(s, tx);
      case Insert(tx) => InsertRefines(s, tx);
      case Commit(tx) => CommitRefines(s, tx);
      case Rollback(tx) => UndoRefines(s, tx);
      case Tick(to) =>
      case Begin(tx, used, issued, newExpires) =>
    }
  }

  // ---- safety of the atomic store ---------------------------------------------------------

  ghost predicate OneLivePerLogin(v: map<Hash, Token>) {
    forall g, h :: g in v && h in v && g != h && v[g].login == v[h].login ==>
      !(IsLive(v[g]) && IsLive(v[h]))
  }

  ghost predicate LoginsBelow(v: map<Hash, Token>, n: nat) {
    forall h :: h in v ==> v[h].login < n
  }

  /** Revoked before it expired. */
  predicate InTime(t: Token) {
    t.revokedAt != None && t.revokedAt.value < t.expires
  }

  /** Every accepted token was claimed before it expired, and no token was accepted twice. */
  ghost predicate AcceptedOnce(v: map<Hash, Token>, accepted: seq<Hash>) {
    && (forall i :: 0 <= i < |accepted| ==> accepted[i] in v && InTime(v[accepted[i]]))
    && (forall i, j :: 0 <= i < j < |accepted| ==> accepted[i] != accepted[j])
  }

  ghost predicate Inv(s: State) {
    && LocksOk(s)
    && OneLivePerLogin(View(s))
    && LoginsBelow(View(s), s.logins)
    && AcceptedOnce(View(s), s.accepted)
  }

  lemma AtomicKeepsOneLive(v: map<Hash, Token>, a: Atomic, v': map<Hash, Token>, n: nat)
    requires AtomicStep(v, a, v') && OneLivePerLogin(v) && LoginsBelow(v, n)
    requires a.Issued? ==> a.token.login == n
    ensures OneLivePerLogin(v')
  {
  }

  lemma AtomicIsMonotone(v: map<Hash, Token>, a: Atomic, v': map<Hash, Token>, h: Hash)
    requires AtomicStep(v, a, v') && h in v
    ensures h in v' && v'[h].user == v[h].user && v'[h].login == v[h].login
    ensures !IsLive(v[h]) ==> v'[h] == v[h]
  {
  }

  /**
   A step that answers ok does so for a token that was live until then, and the time of the
   claim, which becomes the time of the revocation, is before the token's expiry.
   */
  lemma AcceptStep(s: State, step: Step)
    requires Inv(s) && Next(s, step) != None
    ensures var s' := Next(s, step).value;
            && (s'.accepted == s.accepted
                || (s'.accepted != [] && s'.accepted == s.accepted + [s'.accepted[|s'.accepted| - 1]]
                    && var h := s'.accepted[|s'.accepted| - 1];
                       && h in View(s) && IsLive(View(s)[h])
                       && h in View(s') && !IsLive(View(s')[h]) && InTime(View(s')[h])))
  {
    StepRefines(s, step);
    match step {
      case Consume(hash, start) => assert RowOk(s, hash);
      case Commit(tx) => assert RotationOk(s, tx);
      case _ =>
    }
  }

  /** What was accepted stays so, whatever happens to the table next. */
  lemma AcceptedStays(v: map<Hash, Token>, a: Atomic, v': map<Hash, Token>, accepted: seq<Hash>)
    requires AtomicStep(v, a, v') && AcceptedOnce(v, accepted)
    ensures AcceptedOnce(v', accepted)
  {
    forall i | 0 <= i < |accepted| ensures accepted[i] in v' && InTime(v'[accepted[i]]) {
      AtomicIsMonotone(v, a, v', accepted[i]);
    }
  }

  lemma StepKeepsAccepted(s: State, step: Step)
    requires Inv(s) && Next(s, step) != None
    ensures AcceptedOnce(View(Next(s, step).value), Next(s, step).value.accepted)
  {
    StepRefines(s, step);
    AcceptStep(s, step);
    AcceptedStays(View(s), Effect(s, step), View(Next(s, step).value), s.accepted);
  }

  lemma StepKeepsInv(s: State, step: Step)
    requires Inv(s) && Next(s, step) != None
    ensures Inv(Next(s, step).value)
  {
    StepKeepsLocks(s, step);
    StepRefines(s, step);
    StepKeepsLogins(s, step);
    StepKeepsAccepted(s, step);
    AtomicKeepsOneLive(View(s), Effect(s, step), View(Next(s, step).value), s.logins);
  }

  lemma StepKeepsLogins(s: State, step: Step)
    requires Inv(s) && Next(s, step) != None
    ensures LoginsBelow(View(Next(s, step).value), Next(s, step).value.logins)
  {
    var s' := Next(s, step).value;
    StepRefines(s, step);
    assert s'.logins >= s.logins;
  }

  lemma {:induction false} RunKeepsInv(steps: seq<Step>)
    requires Run(steps) != None
    ensures Inv(Run(steps).value)
    decreases |steps|
  {
    if steps != [] {
      RunKeepsInv(steps[..|steps| - 1]);
      StepKeepsInv(Run(steps[..|steps| - 1]).value, steps[|steps| - 1]);
    }
  }

  // ---- what every interleaving guarantees ---------------------------------------------------

  /**
   Each token is answered with ok at most once, and only if it was claimed before its expiry;
   each login has at most one live token.
   */
  lemma TokensAreSingleUse(steps: seq<Step>)
    requires Run(steps) != None
    ensures var s := Run(steps).value;
            && (forall i, j :: 0 <= i < j < |s.accepted| ==> s.accepted[i] != s.accepted[j])
            && (forall i :: 0 <= i < |s.accepted| ==> s.accepted[i] in View(s) && InTime(View(s)[s.accepted[i]]))
            && OneLivePerLogin(View(s))
  {
    RunKeepsInv(steps);
  }

  /** A token that can be claimed at a time, as everybody sees it. */
  predicate Usable(v: map<Hash, Token>, h: Hash, at: int) {
    h in v && v[h].revokedAt == None && v[h].expires > at
  }

  /** The single statements, in every reachable state: what they answer, and what everybody sees afterwards. */
  lemma StatementOnView(steps: seq<Step>, step: Step)
    requires Run(steps) != None && Next(Run(steps).value, step) != None && RotationOf(step) == None
    ensures var s, s' := Run(steps).value, Next(Run(steps).value, step).value;
            var v := View(s);
            match step
            case Create(user, h, expires) =>
              s'.accepted == s.accepted
              && View(s') == if h in v then v else v[h := Token(user, s.logins, expires, None)]
            case Revoke(h) =>
              s'.accepted == s.accepted
              && View(s') == if h in v && v[h].revokedAt == None then v[h := v[h].(revokedAt := Some(s.now))] else v
            case Consume(h, start) =>
              if Usable(v, h, start)
              then s'.accepted == s.accepted + [h] && View(s') == v[h := v[h].(revokedAt := Some(start))]
              else s'.accepted == s.accepted && View(s') == v
            case _ => s'.accepted == s.accepted && View(s') == v
  {
    var s := Run(steps).value;
    RunKeepsInv(steps);
    StepRefines(s, step);
    match step {
      case Create(user, h, expires) => assert RowOk(s, h);
      case Revoke(h) => assert RowOk(s, h);
      case Consume(h, start) => assert RowOk(s, h);
      case _ =>
    }
  }

  /**
   The steps of a rotation, in every reachable state: it begins with its two hashes, the
   expiry of the new token and the time; the update goes on exactly with a token
   that can be claimed at the rotation's start, the insert exactly with an unknown hash, and
   the commit shows everybody both changes at once.
   */
  lemma RotationOnView(steps: seq<Step>, tx: nat, step: Step)
    requires Run(steps) != None && RotationOf(step) == Some(tx)
    requires Next(Run(steps).value, step) != None && (step.Begin? || tx in Run(steps).value.open)
    ensures var s, s' := Run(steps).value, Next(Run(steps).value, step).value;
            var v := View(s);
            var r := if step.Begin? then Rotation(step.used, step.issued, step.newExpires, s.now, Begun)
                     else s.open[tx];
            match step
            case Begin(_, _, _, _) => s' == s.(open := s.open[tx := r]) && tx !in s.open
            case Update(_) =>
              && View(s') == v && s'.accepted == s.accepted
              && if Usable(v, r.used, r.start) then tx in s'.open && s'.open[tx] == r.(phase := Updated)
                 else tx !in s'.open
            case Insert(_) =>
              && View(s') == v && s'.accepted == s.accepted
              && if r.issued in s.rows then tx !in s'.open
                 else tx in s'.open && s'.open[tx] == r.(phase := Inserted)
            case Commit(_) =>
              && tx !in s'.open && s'.accepted == s.accepted + [r.used] && Usable(v, r.used, r.start)
              && View(s') == v[r.used := v[r.used].(revokedAt := Some(r.start))]
                              [r.issued := Token(v[r.used].user, v[r.used].login, r.newExpires, None)]
            case _ => View(s') == v && s'.accepted == s.accepted && tx !in s'.open
  {
    var s := Run(steps).value;
    RunKeepsInv(steps);
    StepRefines(s, step);
    if !step.Begin? {
      assert RotationOk(s, tx) && RowOk(s, s.open[tx].used);
    }
  }

  /** A rotation has claimed h and is still open. */
  predicate Claims(r: Rotation, h: Hash) {
    r.phase != Begun && r.used == h
  }

  /** No open rotation other than the one of the statement itself has claimed h, or inserted it. */
  predicate NobodyHolds(s: State, h: Hash, own: Option<nat>, inserts: bool) {
    forall tx :: tx in s.open && Some(tx) != own ==>
      !Claims(s.open[tx], h) && !(inserts && s.open[tx].phase == Inserted && s.open[tx].issued == h)
  }

  lemma HeldIsBlocked(s: State, h: Hash, own: Option<nat>)
    requires LocksOk(s) && (own != None ==> h in s.rows ==> s.rows[h].writer != own)
    requires own != None && own.value in s.open ==>
               !Claims(s.open[own.value], h) && (s.open[own.value].phase == Inserted ==> s.open[own.value].issued != h)
    ensures NobodyHolds(s, h, own, true) <==> !Blocked(s, h)
    ensures NobodyHolds(s, h, own, false) <==> !(Visible(s, h) && Blocked(s, h))
  {
    assert RowOk(s, h);
    forall tx: nat | tx in s.open ensures RotationOk(s, tx) {
    }
  }

  /**
   Which steps are possible in a reachable state: a statement waits exactly while another open
   rotation has claimed the row it is about, and an insert also while one has inserted its hash.
   */
  lemma StepsWaitExactly(steps: seq<Step>, step: Step)
    requires Run(steps) != None
    ensures var s := Run(steps).value;
            Next(s, step) != None <==>
            match step
            case Tick(to) => to >= s.now
            case Create(_, h, _) => NobodyHolds(s, h, None, true)
            case Revoke(h) => NobodyHolds(s, h, None, false)
            case Consume(h, start) => start <= s.now && NobodyHolds(s, h, None, false)
            case Begin(tx, _, _, _) => tx !in s.open
            case Update(tx) =>
              tx in s.open && s.open[tx].phase == Begun && NobodyHolds(s, s.open[tx].used, Some(tx), false)
            case Insert(tx) =>
              tx in s.open && s.open[tx].phase == Updated && NobodyHolds(s, s.open[tx].issued, Some(tx), true)
            case Commit(tx) => tx in s.open && s.open[tx].phase == Inserted
            case Rollback(tx) => tx in s.open
  {
    var s := Run(steps).value;
    RunKeepsInv(steps);
    match step {
      case Create(_, h, _) => HeldIsBlocked(s, h, None);
      case Revoke(h) => HeldIsBlocked(s, h, None);
      case Consume(h, _) => HeldIsBlocked(s, h, None);
      case Update(tx) =>
        if tx in s.open && s.open[tx].phase == Begun {
          assert RowOk(s, s.open[tx].used);
          HeldIsBlocked(s, s.open[tx].used, Some(tx));
        }
      case Insert(tx) =>
        if tx in s.open && s.open[tx].phase == Updated && s.open[tx].issued != s.open[tx].used {
          assert RowOk(s, s.open[tx].issued);
          HeldIsBlocked(s, s.open[tx].issued, Some(tx));
        } else if tx in s.open {
          forall other: nat | other in s.open ensures RotationOk(s, other) {
          }
        }
      case Commit(tx) => assert RotationOk(s, tx);
      case _ =>
    }
  }

  /** A committed revocation is permanent: no later step of any run changes the token again. */
  lemma RevocationIsPermanent(steps: seq<Step>, step: Step, h: Hash)
    requires Run(steps) != None && Next(Run(steps).value, step) != None
    requires h in View(Run(steps).value) && !IsLive(View(Run(steps).value)[h])
    ensures h in View(Next(Run(steps).value, step).value)
    ensures View(Next(Run(steps).value, step).value)[h] == View(Run(steps).value)[h]
  {
    var s := Run(steps).value;
    RunKeepsInv(steps);
    StepRefines(s, step);
    AtomicIsMonotone(View(s), Effect(s, step), View(Next(s, step).value), h);
  }

  /** The rotation that a step belongs to, if it belongs to one. */
  function RotationOf(step: Step): Option<nat> {
    match step
    case Begin(tx, _, _, _) => Some(tx)
    case Update(tx) => Some(tx)
    case Insert(tx) => Some(tx)
    case Commit(tx) => Some(tx)
    case Rollback(tx) => Some(tx)
    case _ => None
  }

  /**
   A row that an open rotation has written is out of everybody else's reach: whatever step
   another rotation or a single statement takes, the row and the rotation stay as they are.
   */
  lemma LockedRowIsLeftAlone(steps: seq<Step>, step: Step, h: Hash, tx: nat)
    requires Run(steps) != None && Next(Run(steps).value, step) != None
    requires h in Run(steps).value.rows && Run(steps).value.rows[h].writer == Some(tx)
    requires RotationOf(step) != Some(tx)
    ensures var s, s' := Run(steps).value, Next(Run(steps).value, step).value;
            && h in s'.rows && s'.rows[h] == s.rows[h]
            && tx in s.open && tx in s'.open && s'.open[tx] == s.open[tx]
  {
    var s := Run(steps).value;
    RunKeepsInv(steps);
    assert RowOk(s, h);
    if RotationOf(step) != None && RotationOf(step).value in s.open {
      assert RotationOk(s, RotationOf(step).value);
    }
  }

  /**
   Whatever the others did meanwhile, rolling a rotation back leaves the committed table
   as it is, with the old token live again and the new one gone.
   */
  lemma RollbackLeavesOldLive(steps: seq<Step>, tx: nat)
    requires Run(steps) != None && tx in Run(steps).value.open && Run(steps).value.open[tx].phase != Begun
    ensures var s := Run(steps).value;
            var r, s' := s.open[tx], RollbackRotation(s, tx).value;
            && View(s') == View(s)
            && r.used in View(s') && IsLive(View(s')[r.used])
            && !Blocked(s', r.used)
            && (r.phase == Inserted ==> r.issued !in s'.rows)
  {
    var s := Run(steps).value;
    RunKeepsInv(steps);
    assert RotationOk(s, tx);
    UndoRefines(s, tx);
  }

  /** A committed rotation hands the live token of a login from the old hash to the new one. */
  lemma CommitMovesLiveness(steps: seq<Step>, tx: nat)
    requires Run(steps) != None && tx in Run(steps).value.open && Run(steps).value.open[tx].phase == Inserted
    ensures var s := Run(steps).value;
            var r := s.open[tx];
            CommitRotation(s, tx) != None
            && var v, v' := View(s), View(CommitRotation(s, tx).value);
               && r.used in v && IsLive(v[r.used]) && r.used in v' && !IsLive(v'[r.used])
               && r.issued in v' && IsLive(v'[r.issued])
               && v'[r.issued].user == v[r.used].user && v'[r.issued].login == v[r.used].login
  {
    var s := Run(steps).value;
    RunKeepsInv(steps);
    assert RotationOk(s, tx);
    CommitRefines(s, tx);
  }

  // ---- the repository's methods, each run alone ------------------------------------------------

  class TokenStore {
    var tokens: map<Hash, Token>
    var logins: nat

    /** Each login has at most one live token. */
    ghost predicate Valid()
      reads this
    {
      OneLivePerLogin(tokens) && LoginsBelow(tokens, logins)
    }

    constructor ()
      ensures Valid() && tokens == map[] && logins == 0
    {
      tokens, logins := map[], 0;
    }

    /** ok is false for the error of a duplicate hash. */
    method CreateRefreshToken(user: int, hash: Hash, expires: int) returns (ok: bool)
      requires Valid()
      modifies this
      ensures Valid()
      ensures ok <==> hash !in old(tokens)
      ensures AtomicStep(old(tokens),
                         if ok then Issued(hash, Token(user, old(logins), expires, None)) else Nothing, tokens)
      ensures logins == old(logins) + if ok then 1 else 0
    {
      ok := hash !in tokens;
      if ok {
        tokens := tokens[hash := Token(user, logins, expires, None)];
        logins := logins + 1;
      }
    }

    method RevokeRefreshToken(hash: Hash, now: int)
      requires Valid()
      modifies this`tokens
      ensures Valid()
      ensures AtomicStep(old(tokens),
                         if hash in old(tokens) && old(tokens)[hash].revokedAt == None
                         then Revoked(hash, now) else Nothing, tokens)
    {
      if hash in tokens && IsLive(tokens[hash]) {
        tokens := tokens[hash := tokens[hash].(revokedAt := Some(now))];
      }
    }

    method ConsumeRefreshToken(hash: Hash, now: int) returns (user: Option<int>)
      requires Valid()
      modifies this`tokens
      ensures Valid()
      ensures user != None <==>
                hash in old(tokens) && old(tokens)[hash].revokedAt == None && old(tokens)[hash].expires > now
      ensures user != None ==> user.value == old(tokens)[hash].user
      ensures AtomicStep(old(tokens), if user != None then Revoked(hash, now) else Nothing, tokens)
    {
      if hash !in tokens || !Claimable(tokens[hash], now) {
        return None;
      }
      user := Some(tokens[hash].user);
      tokens := tokens[hash := tokens[hash].(revokedAt := Some(now))];
    }

    /** The transaction works on its own copy; fails says that the insert or the commit failed. */
    method RotateRefreshToken(used: Hash, issued: Hash, newExpires: int, now: int, fails: bool)
      returns (user: Option<int>)
      requires Valid()
      modifies this`tokens
      ensures Valid()
      ensures user != None <==>
                && !fails && used in old(tokens) && issued !in old(tokens)
                && old(tokens)[used].revokedAt == None && old(tokens)[used].expires > now
      ensures user != None ==> user.value == old(tokens)[used].user
      ensures AtomicStep(old(tokens),
                         if user != None then Rotated(used, issued, now, newExpires) else Nothing, tokens)
    {
      var tx := tokens;
      if used !in tx || !Claimable(tx[used], now) {
        return None;
      }
      var owner := tx[used];
      tx := tx[used := owner.(revokedAt := Some(now))];
      if issued in tx || fails {
        return None;
      }
      tx := tx[issued := Token(owner.user, owner.login, newExpires, None)];
      tokens := tx;
      user := Some(owner.user);
    }
  }
}
