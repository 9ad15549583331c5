/**
 The table of chat memories, one row per user and topic key, as a fold of everything that
 was ever written to it; and the service calls that write.
 */
module MemoryStore {
  import opened Options
  import opened MemoryKeys
  import opened Selections

  datatype Source = Auto | User

  /** The kinds that the table accepts. */
  datatype Kind = Fact | Preference | Personal | Instruction | GoalNote | Summary

  datatype Row = Row(id: nat, kind: Kind, content: string, salience: int, source: Source, capturedAt: int)

  /** Rows by user and key. */
  type Table = map<(int, string), Row>

  datatype Store = Store(rows: Table, nextId: nat)

  datatype Write = Write(user: int, key: string, kind: Kind, content: string, salience: int, source: Source)

  datatype Op =
    | Put(w: Write, now: int)
    | PutSummary(user: int, text: string, now: int)
    | Delete(user: int, id: nat)

  const EMPTY_STORE := Store(map[], 0)

  /** The reserved key of the rolling summary. */
  const SUMMARY_KEY := "__conversation_summary__"

  // ---- the statements ------------------------------------------------------------------

  function Max(a: int, b: int): int {
    if a < b then b else a
  }

  /** Non-positive salience is replaced by the default. */
  function Stored(salience: int): int {
    if salience <= 0 then 3 else salience
  }

  function Merge(prior: Row, w: Write, now: int): Row {
    Row(prior.id, w.kind, w.content, Max(prior.salience, Stored(w.salience)),
        if prior.source == User then User else w.source, now)
  }

  function Upsert(s: Store, w: Write, now: int): Store {
    var k := (w.user, w.key);
    if k in s.rows then s.(rows := s.rows[k := Merge(s.rows[k], w, now)])
    else Store(s.rows[k := Row(s.nextId, w.kind, w.content, Stored(w.salience), w.source, now)], s.nextId + 1)
  }

  function SetSummary(s: Store, user: int, text: string, now: int): Store {
    var k := (user, SUMMARY_KEY);
    if k in s.rows then s.(rows := s.rows[k := s.rows[k].(content := text, capturedAt := now)])
    else Store(s.rows[k := Row(s.nextId, Summary, text, 0, Auto, now)], s.nextId + 1)
  }

  function DeleteByID(s: Store, user: int, id: nat): Store {
    s.(rows := map k | k in s.rows && !(k.0 == user && s.rows[k].id == id) :: s.rows[k])
  }

  function Apply(s: Store, op: Op): Store {
    match op
    case Put(w, now) => Upsert(s, w, now)
    case PutSummary(user, text, now) => SetSummary(s, user, text, now)
    case Delete(user, id) => DeleteByID(s, user, id)
  }

  function Run(ops: seq<Op>): Store {
    if ops == [] then EMPTY_STORE else Apply(Run(ops[..|ops| - 1]), ops[|ops| - 1])
  }

  /** What the service guarantees of its writes: a normal key and a kind of its own. */
  ghost predicate FactOp(op: Op) {
    op.Put? ==> IsKey(op.w.key) && op.w.kind != Summary
  }

  ghost predicate FactOps(ops: seq<Op>) {
    forall i :: 0 <= i < |ops| ==> FactOp(ops[i])
  }

  // ---- the fold ---------------------------------------------------------------------------

  /** The writes to a key since its row was last deleted, oldest first. */
  function WritesSince(ops: seq<Op>, user: int, key: string): seq<Op>
    decreases |ops|
  {
    if ops == [] then []
    else
      var front := WritesSince(ops[..|ops| - 1], user, key);
      match ops[|ops| - 1]
      case Put(w, now) => if (w.user, w.key) == (user, key) then front + [ops[|ops| - 1]] else front
      case PutSummary(_, _, _) => front
      case Delete(u, id) =>
        var rows := Run(ops[..|ops| - 1]).rows;
        if u == user && (user, key) in rows && rows[(user, key)].id == id then [] else front
  }

  /** A row that the writes in ws, and nothing else, can have left. */
  ghost predicate IsFoldOf(r: Row, ws: seq<Op>)
    requires ws != [] && forall i :: 0 <= i < |ws| ==> ws[i].Put?
  {
    var last := ws[|ws| - 1];
    && r.content == last.w.content && r.kind == last.w.kind && r.capturedAt == last.now
    && (forall i :: 0 <= i < |ws| ==> Stored(ws[i].w.salience) <= r.salience)
    && (exists i :: 0 <= i < |ws| && r.salience == Stored(ws[i].w.salience))
    && (r.source == User <==> exists i :: 0 <= i < |ws| && ws[i].w.source == User)
  }

  ghost predicate Puts(ws: seq<Op>) {
    forall i :: 0 <= i < |ws| ==> ws[i].Put?
  }

  ghost predicate RowIsFold(s: Store, ws: seq<Op>, user: int, key: string) {
    && Puts(ws)
    && ((user, key) in s.rows <==> ws != [])
    && (ws != [] ==> IsFoldOf(s.rows[(user, key)], ws))
  }

  lemma FoldOneMore(r: Row, ws: seq<Op>, op: Op)
    requires op.Put? && Puts(ws) && ws != [] && IsFoldOf(r, ws)
    ensures IsFoldOf(Merge(r, op.w, op.now), ws + [op])
  {
    var more := ws + [op];
    assert more[|ws|] == op;
    forall i | 0 <= i < |more| ensures Stored(more[i].w.salience) <= Max(r.salience, Stored(op.w.salience)) {
      if i < |ws| {
        assert more[i] == ws[i];
      }
    }
    var m :| 0 <= m < |ws| && r.salience == Stored(ws[m].w.salience);
    assert more[m] == ws[m];
    if r.source == User {
      var i :| 0 <= i < |ws| && ws[i].w.source == User;
      assert more[i] == ws[i];
    }
  }

  lemma FoldOfOne(op: Op, id: nat)
    requires op.Put?
    ensures IsFoldOf(Row(id, op.w.kind, op.w.content, Stored(op.w.salience), op.w.source, op.now), [op])
  {
    assert [op][0] == op;
  }

  /**
   For every topic, in every state: the row exists when something was written since its
   last deletion; it has the last content and kind, the largest salience, and the source
   user once any of those writes had it.
   */
  lemma {:induction false} StateIsFoldOfHistory(ops: seq<Op>, user: int, key: string)
    requires key != SUMMARY_KEY
    ensures RowIsFold(Run(ops), WritesSince(ops, user, key), user, key)
    decreases |ops|
  {
    if ops != [] {
      var front, op := ops[..|ops| - 1], ops[|ops| - 1];
      var s := Run(front);
      StateIsFoldOfHistory(front, user, key);
      if op.Put? && (op.w.user, op.w.key) == (user, key) {
        if (user, key) in s.rows {
          FoldOneMore(s.rows[(user, key)], WritesSince(front, user, key), op);
        } else {
          FoldOfOne(op, s.nextId);
        }
      }
    }
  }

  // ---- the summary row -------------------------------------------------------------------------

  /** The summary rows are exactly the rows under the reserved key, and only SetSummary's. */
  ghost predicate SummaryApart(s: Store) {
    forall k :: k in s.rows ==> RowApart(s, k)
  }

  ghost predicate RowApart(s: Store, k: (int, string))
    requires k in s.rows
  {
    && (s.rows[k].kind == Summary <==> k.1 == SUMMARY_KEY)
    && (k.1 == SUMMARY_KEY ==> s.rows[k].salience == 0 && s.rows[k].source == Auto)
    && (k.1 != SUMMARY_KEY ==> s.rows[k].salience > 0 && IsKey(k.1))
  }

  /** Ids are given out once, and below the next one. */
  ghost predicate IdsDistinct(s: Store) {
    && (forall k :: k in s.rows ==> s.rows[k].id < s.nextId)
    && (forall j, k :: j in s.rows && k in s.rows && j != k ==> s.rows[j].id != s.rows[k].id)
  }

  lemma SummaryKeyIsReserved(key: string)
    requires IsKey(key)
    ensures key != SUMMARY_KEY && SUMMARY_KEY == "__conversation_summary__"
  {
    if key == SUMMARY_KEY {
      assert IsBar(key[0]);
    }
  }

  lemma {:induction false} RunKeepsIds(ops: seq<Op>)
    ensures IdsDistinct(Run(ops))
    decreases |ops|
  {
    if ops != [] {
      RunKeepsIds(ops[..|ops| - 1]);
      StepKeepsIds(Run(ops[..|ops| - 1]), ops[|ops| - 1]);
    }
  }

  lemma StepKeepsIds(s: Store, op: Op)
    requires IdsDistinct(s)
    ensures IdsDistinct(Apply(s, op))
  {
    var s' := Apply(s, op);
    forall k | k in s'.rows ensures if k in s.rows then s'.rows[k].id == s.rows[k].id else s'.rows[k].id == s.nextId {
    }
  }

  lemma {:induction false} RunKeepsSummaryApart(ops: seq<Op>)
    requires FactOps(ops)
    ensures SummaryApart(Run(ops))
    decreases |ops|
  {
    if ops != [] {
      var front, op := ops[..|ops| - 1], ops[|ops| - 1];
      RunKeepsSummaryApart(front);
      StepKeepsSummaryApart(Run(front), op);
    }
  }

  lemma StepKeepsSummaryApart(s: Store, op: Op)
    requires SummaryApart(s) && FactOp(op)
    ensures SummaryApart(Apply(s, op))
  {
    var s' := Apply(s, op);
    if op.Put? {
      SummaryKeyIsReserved(op.w.key);
    }
    forall k | k in s'.rows ensures RowApart(s', k) {
      if k in s.rows {
        assert RowApart(s, k);
      }
    }
  }

  /** No fact write touches any summary, and the facts are exactly the rows that are not a summary. */
  lemma FactsLeaveSummary(ops: seq<Op>, op: Op, user: int)
    requires FactOps(ops) && op.Put? && FactOp(op)
    ensures var s, s' := Run(ops), Apply(Run(ops), op);
            var k := (user, SUMMARY_KEY);
            && (k in s'.rows <==> k in s.rows)
            && (k in s.rows ==> s'.rows[k] == s.rows[k])
            && forall j :: j in s'.rows ==> (s'.rows[j].kind == Summary <==> j.1 == SUMMARY_KEY)
  {
    SummaryKeyIsReserved(op.w.key);
    RunKeepsSummaryApart(ops);
    StepKeepsSummaryApart(Run(ops), op);
    forall j | j in Apply(Run(ops), op).rows
      ensures Apply(Run(ops), op).rows[j].kind == Summary <==> j.1 == SUMMARY_KEY
    {
      assert RowApart(Apply(Run(ops), op), j);
    }
  }

  /** Setting the summary changes no fact, and of an existing summary only the text and its date. */
  lemma SummaryLeavesFacts(ops: seq<Op>, user: int, text: string, now: int, k: (int, string))
    requires FactOps(ops)
    ensures var s, s' := Run(ops), SetSummary(Run(ops), user, text, now);
            && (k != (user, SUMMARY_KEY) ==>
                  (k in s'.rows <==> k in s.rows) && (k in s.rows ==> s'.rows[k] == s.rows[k]))
            && (k == (user, SUMMARY_KEY) ==>
                  k in s'.rows && s'.rows[k].content == text && s'.rows[k].kind == Summary
                  && s'.rows[k].salience == 0 && s'.rows[k].source == Auto
                  && (k in s.rows ==> s'.rows[k].id == s.rows[k].id))
  {
    RunKeepsSummaryApart(ops);
    assert k in Run(ops).rows ==> RowApart(Run(ops), k);
  }

  /** Deleting by id removes at most one row, and only the owner's. */
  lemma DeleteRemovesOwnRow(ops: seq<Op>, user: int, id: nat, k: (int, string))
    requires k in Run(ops).rows && Run(ops).rows[k].id == id
    ensures var s := Run(ops);
            DeleteByID(s, user, id).rows == if k.0 == user then s.rows - {k} else s.rows
  {
    RunKeepsIds(ops);
  }

  // ---- the service ----------------------------------------------------------------------------------

  datatype Extracted = Extracted(key: string, kind: Option<Kind>, content: string, salience: int)

  /** Functions of the surroundings: the character tables, the PII guard, the byte-wise cut of a pinned text. */
  datatype World = World(unicode: Unicode, pii: string -> bool, cut: string -> string)

  function ClampSalience(n: int): int {
    if n < 1 then 1 else if n > 5 then 5 else n
  }

  /** Unknown kinds, and the summary's own, become facts. */
  function FactKind(kind: Option<Kind>): Kind {
    if kind == None || kind.value == Summary then Fact else kind.value
  }

  /** What AddUserMemory writes, or nothing for a blank text. */
  function Pinned(user: int, content: string, kind: Option<Kind>, w: World): Option<Write> {
    var text := Trim(content, w.unicode.space);
    if text == [] then None
    else
      var kept := w.cut(text);
      Some(Write(user, NormalizeKey(kept, w.unicode), FactKind(kind), kept, 5, User))
  }

  /** What Observe writes for one extracted memory, or nothing. */
  function Observed(user: int, m: Extracted, w: World): Option<Write> {
    var content := Trim(m.content, w.unicode.space);
    if content == [] || |content| > 300 || w.pii(content) || w.pii(m.key) then None
    else
      var key := NormalizeKey(FirstNonEmpty(m.key, content, w.unicode), w.unicode);
      if key == [] then None
      else Some(Write(user, key, FactKind(m.kind), content, ClampSalience(m.salience), Auto))
  }

  function FirstNonEmpty(a: string, b: string, u: Unicode): string {
    if Trim(a, u.space) != [] then a else b
  }

  /** What Observe would write for each extracted memory. */
  function Candidates(user: int, ms: seq<Extracted>, w: World): (cs: seq<Option<Write>>)
    ensures |cs| == |ms|
  {
    if ms == [] then [] else Candidates(user, ms[..|ms| - 1], w) + [Observed(user, ms[|ms| - 1], w)]
  }

  lemma {:induction false} CandidatesAt(user: int, ms: seq<Extracted>, w: World)
    ensures forall i :: 0 <= i < |ms| ==> Candidates(user, ms, w)[i] == Observed(user, ms[i], w)
    decreases |ms|
  {
    if ms != [] {
      CandidatesAt(user, ms[..|ms| - 1], w);
    }
  }

  /** The facts of one exchange: the upserts that succeed, until six are kept. */
  function Kept<O>(cs: seq<Option<O>>, fails: nat -> bool, i: nat, kept: nat): seq<O>
    requires i <= |cs|
    decreases |cs| - i
  {
    if i == |cs| || kept >= MAX_KEPT then []
    else if cs[i] == None || fails(i) then Kept(cs, fails, i + 1, kept)
    else [cs[i].value] + Kept(cs, fails, i + 1, kept + 1)
  }

  function ObserveWrites(user: int, ms: seq<Extracted>, w: World, fails: nat -> bool): seq<Write> {
    Kept(Candidates(user, ms, w), fails, 0, 0)
  }

  const MAX_KEPT := 6
  const MAX_SUMMARY := 600

  /** What the model extracted, or None when its call or its answer failed. */
  datatype Extraction = Extraction(memories: seq<Extracted>, summary: string)

  function NewSummary(ext: Extraction, priorSummary: string, w: World): Option<string> {
    var text := Trim(ext.summary, w.unicode.space);
    if text == [] || text == Trim(priorSummary, w.unicode.space) then None
    else Some(if |text| > MAX_SUMMARY then text[..MAX_SUMMARY] else text)
  }

  datatype Call =
    | AddUserMemory(user: int, content: string, kind: Option<Kind>, failed: bool)
    | Observe(user: int, userMsg: string, ext: Option<Extraction>, priorSummary: string,
              fails: nat -> bool, summaryFails: bool)
    | Forget(user: int, id: nat)

  function AsPuts(ws: seq<Write>, now: int): (ops: seq<Op>)
    ensures |ops| == |ws| && forall i :: 0 <= i < |ws| ==> ops[i] == Put(ws[i], now)
  {
    if ws == [] then [] else AsPuts(ws[..|ws| - 1], now) + [Put(ws[|ws| - 1], now)]
  }

  /** The statements of one call. */
  function CallOps(c: Call, now: int, w: World): seq<Op> {
    match c
    case AddUserMemory(user, content, kind, failed) =>
      var p := Pinned(user, content, kind, w);
      if p == None || failed then [] else [Put(p.value, now)]
    case Observe(user, userMsg, ext, priorSummary, fails, summaryFails) =>
      if Trim(userMsg, w.unicode.space) == [] || ext == None then []
      else
        var summary := NewSummary(ext.value, priorSummary, w);
        AsPuts(ObserveWrites(user, ext.value.memories, w, fails), now)
        + if summary == None || summaryFails then [] else [PutSummary(user, summary.value, now)]
    case Forget(user, id) => [Delete(user, id)]
  }

  /** Call number n happens at time n. */
  function ServiceOps(calls: seq<Call>, w: World): seq<Op> {
    if calls == [] then []
    else ServiceOps(calls[..|calls| - 1], w) + CallOps(calls[|calls| - 1], |calls|, w)
  }

  /** A fact write of the service has a normal key, an own kind, and a salience from 1 to 5. */
  ghost predicate GoodWrite(x: Write) {
    IsKey(x.key) && x.kind != Summary && 1 <= x.salience <= 5
  }

  lemma PinnedIsGood(user: int, content: string, kind: Option<Kind>, w: World)
    requires Sane(w.unicode)
    ensures Pinned(user, content, kind, w) != None ==> GoodWrite(Pinned(user, content, kind, w).value)
  {
    KeyIsNormal(w.cut(Trim(content, w.unicode.space)), w.unicode);
  }

  lemma ObservedIsGood(user: int, m: Extracted, w: World)
    requires Sane(w.unicode)
    ensures Observed(user, m, w) != None ==>
              GoodWrite(Observed(user, m, w).value) && Observed(user, m, w).value.key != []
  {
    KeyIsNormal(FirstNonEmpty(m.key, Trim(m.content, w.unicode.space), w.unicode), w.unicode);
  }

  lemma {:induction false} KeptAreCandidates(cs: seq<Option<Write>>, fails: nat -> bool, i: nat, kept: nat)
    requires i <= |cs| && kept <= MAX_KEPT
    ensures kept + |Kept(cs, fails, i, kept)| <= MAX_KEPT
    ensures forall x :: x in Kept(cs, fails, i, kept) ==> Some(x) in cs
    decreases |cs| - i
  {
    if i < |cs| && kept < MAX_KEPT {
      if cs[i] == None || fails(i) {
        KeptAreCandidates(cs, fails, i + 1, kept);
      } else {
        KeptAreCandidates(cs, fails, i + 1, kept + 1);
      }
    }
  }

  /** An exchange stores at most six facts, each a good write, none under the empty key. */
  lemma ObserveWritesAreGood(user: int, ms: seq<Extracted>, w: World, fails: nat -> bool)
    requires Sane(w.unicode)
    ensures var ws := ObserveWrites(user, ms, w, fails);
            |ws| <= MAX_KEPT && forall x :: x in ws ==> GoodWrite(x) && x.key != []
  {
    var cs := Candidates(user, ms, w);
    KeptAreCandidates(cs, fails, 0, 0);
    CandidatesAt(user, ms, w);
    forall x | x in ObserveWrites(user, ms, w, fails) ensures GoodWrite(x) && x.key != [] {
      var i :| 0 <= i < |cs| && cs[i] == Some(x);
      ObservedIsGood(user, ms[i], w);
    }
  }

  /** What becomes of one extracted memory. */
  lemma ObservedWrittenOut(user: int, m: Extracted, w: World)
    ensures var content := Trim(m.content, w.unicode.space);
            var key := NormalizeKey(if Trim(m.key, w.unicode.space) != [] then m.key else content, w.unicode);
            Observed(user, m, w)
            == if content == [] || |content| > 300 || w.pii(content) || w.pii(m.key) || key == [] then None
               else Some(Write(user, key,
                               if m.kind in {None, Some(Summary)} then Fact else m.kind.value, content,
                               if m.salience < 1 then 1 else if m.salience > 5 then 5 else m.salience, Auto))
  {
  }

  function Indices(i: nat, n: nat): (places: seq<int>)
    requires i <= n
    ensures |places| == n - i && forall k :: 0 <= k < n - i ==> places[k] == i + k
  {
    seq(n - i, k requires 0 <= k < n - i => i + k)
  }

  /** The places, from i on, of the candidates that are stored if there is still room. */
  function Storable(cs: seq<Option<Write>>, fails: nat -> bool, i: nat): seq<int>
    requires i <= |cs|
  {
    Filter(Indices(i, |cs|), (k: int) => 0 <= k < |cs| && cs[k] != None && !fails(k))
  }

  ghost predicate IsFirstOf(ws: seq<Write>, cs: seq<Option<Write>>, places: seq<int>, room: nat) {
    && |ws| == (if |places| < room then |places| else room)
    && forall k :: 0 <= k < |ws| ==> 0 <= places[k] < |cs| && cs[places[k]] == Some(ws[k])
  }

  lemma {:induction false} KeptAreFirst(cs: seq<Option<Write>>, fails: nat -> bool, i: nat, kept: nat)
    requires i <= |cs| && kept <= MAX_KEPT
    ensures IsFirstOf(Kept(cs, fails, i, kept), cs, Storable(cs, fails, i), MAX_KEPT - kept)
    decreases |cs| - i
  {
    if i < |cs| && kept < MAX_KEPT {
      StorableNext(cs, fails, i);
      if cs[i] == None || fails(i) {
        KeptAreFirst(cs, fails, i + 1, kept);
      } else {
        KeptAreFirst(cs, fails, i + 1, kept + 1);
        FirstTaken(Kept(cs, fails, i + 1, kept + 1), cs, Storable(cs, fails, i + 1), MAX_KEPT - kept - 1, i);
      }
    }
  }

  lemma StorableNext(cs: seq<Option<Write>>, fails: nat -> bool, i: nat)
    requires i < |cs|
    ensures Storable(cs, fails, i)
            == (if cs[i] != None && !fails(i) then [i] else []) + Storable(cs, fails, i + 1)
  {
    assert Indices(i, |cs|) == [i] + Indices(i + 1, |cs|);
    FilterFirst(i, Indices(i + 1, |cs|), (k: int) => 0 <= k < |cs| && cs[k] != None && !fails(k));
  }

  lemma FirstTaken(ws: seq<Write>, cs: seq<Option<Write>>, places: seq<int>, room: nat, i: nat)
    requires IsFirstOf(ws, cs, places, room) && i < |cs| && cs[i] != None
    ensures IsFirstOf([cs[i].value] + ws, cs, [i] + places, room + 1)
  {
  }

  /**
   An exchange stores the first six of the memories that are good and whose write succeeds,
   in their order; fewer only when there are fewer.
   */
  lemma ObserveKeepsFirstSix(user: int, ms: seq<Extracted>, w: World, fails: nat -> bool)
    ensures var ws := ObserveWrites(user, ms, w, fails);
            var good := Filter(Indices(0, |ms|),
                               (k: int) => 0 <= k < |ms| && Observed(user, ms[k], w) != None && !fails(k));
            && |ws| == (if |good| < 6 then |good| else 6)
            && forall k :: 0 <= k < |ws| ==> 0 <= good[k] < |ms| && Observed(user, ms[good[k]], w) == Some(ws[k])
  {
    var cs := Candidates(user, ms, w);
    CandidatesAt(user, ms, w);
    KeptAreFirst(cs, fails, 0, 0);
    FilterSame(Indices(0, |ms|), (k: int) => 0 <= k < |cs| && cs[k] != None && !fails(k),
               (k: int) => 0 <= k < |ms| && Observed(user, ms[k], w) != None && !fails(k));
  }

  lemma {:induction false} FilterSame<T>(xs: seq<T>, f: T -> bool, g: T -> bool)
    requires forall x :: f(x) == g(x)
    ensures Filter(xs, f) == Filter(xs, g)
    decreases |xs|
  {
    if xs != [] {
      FilterSame(xs[..|xs| - 1], f, g);
    }
  }

  /** The new summary: trimmed, and its first 600 characters, unless it is blank or the old one. */
  lemma SummaryWrittenOut(ext: Extraction, prior: string, w: World)
    ensures var text := Trim(ext.summary, w.unicode.space);
            NewSummary(ext, prior, w)
            == if text == [] || text == Trim(prior, w.unicode.space) then None
               else if |text| <= 600 then Some(text) else Some(text[..600])
  {
  }

  lemma CallOpsAreFacts(c: Call, now: int, w: World)
    requires Sane(w.unicode)
    ensures FactOps(CallOps(c, now, w))
  {
    match c
    case AddUserMemory(user, content, kind, failed) => PinnedIsGood(user, content, kind, w);
    case Observe(user, userMsg, ext, priorSummary, fails, summaryFails) =>
      if ext != None {
        ObserveWritesAreGood(user, ext.value.memories, w, fails);
      }
    case Forget(user, id) =>
  }

  /**
   Whatever is extracted and pinned, no run of the service writes a fact over a summary:
   all that is proved of fact operations holds in every state it reaches.
   */
  lemma {:induction false} ServiceWritesOnlyFacts(calls: seq<Call>, w: World)
    requires Sane(w.unicode)
    ensures FactOps(ServiceOps(calls, w)) && SummaryApart(Run(ServiceOps(calls, w)))
    decreases |calls|
  {
    if calls != [] {
      ServiceWritesOnlyFacts(calls[..|calls| - 1], w);
      CallOpsAreFacts(calls[|calls| - 1], |calls|, w);
    }
    RunKeepsSummaryApart(ServiceOps(calls, w));
  }

  /**
   Pinned texts without a letter a-z or a digit all have the empty key, which is not
   refused: the second one replaces the first.
   */
  lemma LetterlessPinsShareOneRow(s: Store, user: int, first: string, second: string, w: World, t: int)
    requires Sane(w.unicode) && Pinned(user, first, None, w) != None && Pinned(user, second, None, w) != None
    requires var p, q := Pinned(user, first, None, w).value, Pinned(user, second, None, w).value;
             (forall i :: 0 <= i < |p.content| ==> !IsWord(w.unicode.lower(p.content[i])))
             && (forall i :: 0 <= i < |q.content| ==> !IsWord(w.unicode.lower(q.content[i])))
    ensures var p, q := Pinned(user, first, None, w).value, Pinned(user, second, None, w).value;
            var once, twice := Upsert(s, p, t), Upsert(Upsert(s, p, t), q, t + 1);
            && p.key == q.key == []
            && twice.rows.Keys == once.rows.Keys
            && once.rows[(user, [])].content == p.content && twice.rows[(user, [])].content == q.content
  {
    EmptyKeyExactly(Pinned(user, first, None, w).value.content, w.unicode);
    EmptyKeyExactly(Pinned(user, second, None, w).value.content, w.unicode);
  }

  // ---- the methods ---------------------------------------------------------------------------------

  /** One more statement after a run. */
  lemma RunOneMore(ops: seq<Op>, op: Op)
    ensures Run(ops + [op]) == Apply(Run(ops), op)
  {
    assert (ops + [op])[..|ops|] == ops;
  }

  /** There is a row under k, and every other row is as it was. */
  ghost predicate OnlyChanged(before: Table, after: Table, k: (int, string)) {
    k in after && after - {k} == before - {k}
  }

  /** A row just written to: the new content, kind and date, the larger salience, and never back to automatic. */
  ghost predicate IsUpserted(before: Store, r: Row, x: Write, now: int) {
    var given := if x.salience <= 0 then 3 else x.salience;
    && r.content == x.content && r.kind == x.kind && r.capturedAt == now
    && if (x.user, x.key) in before.rows
       then var prior := before.rows[(x.user, x.key)];
            && r.id == prior.id && (r.source == User <==> prior.source == User || x.source == User)
            && r.salience in {prior.salience, given} && prior.salience <= r.salience && given <= r.salience
       else r.source == x.source && r.salience == given && r.id == before.nextId
  }

  lemma UpsertIsUpserted(s: Store, x: Write, now: int)
    ensures var s', k := Upsert(s, x, now), (x.user, x.key);
            OnlyChanged(s.rows, s'.rows, k) && IsUpserted(s, s'.rows[k], x, now)
  {
  }

  /** Nobody else's row differs between the two tables. */
  ghost predicate OthersKept(before: Table, after: Table, user: int) {
    forall k: (int, string) :: k.0 != user ==> (k in after <==> k in before) && (k in after ==> after[k] == before[k])
  }

  lemma OthersKeptByOne(before: Table, after: Table, user: int, key: string)
    requires OnlyChanged(before, after, (user, key))
    ensures OthersKept(before, after, user)
  {
    forall k: (int, string) | k.0 != user
      ensures (k in after <==> k in before) && (k in after ==> after[k] == before[k])
    {
      assert k in after <==> k in after - {(user, key)};
      assert k in before <==> k in before - {(user, key)};
      assert k in after ==> after[k] == (after - {(user, key)})[k] == (before - {(user, key)})[k] == before[k];
    }
  }

  lemma OthersKeptTwice(before: Table, now: Table, after: Table, user: int)
    requires OthersKept(before, now, user) && OthersKept(now, after, user)
    ensures OthersKept(before, after, user)
  {
  }

  /** One round of the loop takes the first of the writes that are still to come, or skips. */
  lemma RoundTakes(done: seq<Op>, all: seq<Op>, cs: seq<Option<Write>>, fails: nat -> bool, i: nat, kept: nat,
                   now: int)
    requires i < |cs| && kept < MAX_KEPT && done + AsPuts(Kept(cs, fails, i, kept), now) == all
    ensures if cs[i] == None || fails(i) then done + AsPuts(Kept(cs, fails, i + 1, kept), now) == all
            else (done + [Put(cs[i].value, now)]) + AsPuts(Kept(cs, fails, i + 1, kept + 1), now) == all
  {
    if cs[i] != None && !fails(i) {
      var rest := AsPuts(Kept(cs, fails, i + 1, kept + 1), now);
      assert AsPuts(Kept(cs, fails, i, kept), now) == [Put(cs[i].value, now)] + rest;
      assert (done + [Put(cs[i].value, now)]) + rest == done + ([Put(cs[i].value, now)] + rest);
    }
  }

  lemma NothingToCome(done: seq<Op>, cs: seq<Option<Write>>, fails: nat -> bool, i: nat, kept: nat, now: int)
    requires i <= |cs| && (i == |cs| || kept >= MAX_KEPT)
    ensures done + AsPuts(Kept(cs, fails, i, kept), now) == done
  {
  }

  class MemoryService {
    var rows: Table
    var nextId: nat
    /** Every statement executed so far, oldest first. */
    ghost var log: seq<Op>

    function Contents(): Store
      reads this
    {
      Store(rows, nextId)
    }

    /**
     The table is what the statements leave. Ids are never shared; as long as the statements
     are the service's own, summaries stay apart.
     */
    ghost predicate Valid()
      reads this
    {
      && Contents() == Run(log)
      && IdsDistinct(Contents())
      && (FactOps(log) ==> SummaryApart(Contents()))
    }

    /** Every fact row of a valid object is the fold of the writes to it. */
    lemma FactIsFold(user: int, key: string)
      requires Valid() && key != SUMMARY_KEY
      ensures RowIsFold(Contents(), WritesSince(log, user, key), user, key)
    {
      StateIsFoldOfHistory(log, user, key);
    }

    constructor ()
      ensures Valid() && log == [] && rows == map[]
    {
      rows, nextId, log := map[], 0, [];
    }

    ghost method Record(op: Op)
      requires Contents() == Apply(Run(log), op)
      modifies this`log
      ensures log == old(log) + [op] && Valid()
    {
      RunOneMore(log, op);
      log := log + [op];
      RunKeepsIds(log);
      if FactOps(log) {
        RunKeepsSummaryApart(log);
      }
    }

    method UpsertRow(x: Write, now: int)
      requires Valid()
      modifies this
      ensures Valid() && log == old(log) + [Put(x, now)]
      ensures OnlyChanged(old(rows), rows, (x.user, x.key))
      ensures IsUpserted(old(Contents()), rows[(x.user, x.key)], x, now)
    {
      var k := (x.user, x.key);
      var salience := if x.salience <= 0 then 3 else x.salience;
      if k in rows {
        var r := rows[k];
        rows := rows[k := Row(r.id, x.kind, x.content, if r.salience < salience then salience else r.salience,
                              if r.source == User then User else x.source, now)];
      } else {
        rows := rows[k := Row(nextId, x.kind, x.content, salience, x.source, now)];
        nextId := nextId + 1;
      }
      UpsertIsUpserted(old(Contents()), x, now);
      Record(Put(x, now));
    }

    method SetSummaryRow(user: int, text: string, now: int)
      requires Valid()
      modifies this
      ensures Valid() && log == old(log) + [PutSummary(user, text, now)]
      ensures OnlyChanged(old(rows), rows, (user, SUMMARY_KEY))
      ensures var r := rows[(user, SUMMARY_KEY)];
              && r.content == text && r.capturedAt == now
              && (FactOps(old(log)) ==> r.kind == Summary && r.salience == 0 && r.source == Auto)
              && ((user, SUMMARY_KEY) in old(rows) ==> r.id == old(rows)[(user, SUMMARY_KEY)].id)
    {
      var k := (user, SUMMARY_KEY);
      if k in rows {
        rows := rows[k := rows[k].(content := text, capturedAt := now)];
      } else {
        rows := rows[k := Row(nextId, Summary, text, 0, Auto, now)];
        nextId := nextId + 1;
      }
      Record(PutSummary(user, text, now));
      assert FactOps(log) ==> RowApart(Contents(), k);
    }

    /** found says whether the user has a row with that id; that row goes, and no other. */
    method ForgetRow(user: int, id: nat) returns (found: bool)
      requires Valid()
      modifies this
      ensures Valid() && log == old(log) + [Delete(user, id)]
      ensures found <==> exists key :: (user, key) in old(rows) && old(rows)[(user, key)].id == id
      ensures !found ==> rows == old(rows)
      ensures found ==>
                exists key :: (user, key) in old(rows) && old(rows)[(user, key)].id == id
                              && rows == old(rows) - {(user, key)}
    {
      found := exists k :: k in rows && k.0 == user && rows[k].id == id;
      ghost var before := rows;
      rows := map k | k in rows && !(k.0 == user && rows[k].id == id) :: rows[k];
      if found {
        ghost var k :| k in before && k.0 == user && before[k].id == id;
        assert k == (user, k.1);
        DeleteRemovesOwnRow(log, user, id, k);
      }
      Record(Delete(user, id));
    }

    /**
     ok is false for a blank text and for a failed write. Otherwise the text is there, as the
     user's own, under a normal key.
     */
    method AddUserMemory(user: int, content: string, kind: Option<Kind>, failed: bool, now: int, w: World)
      returns (ok: bool)
      requires Valid()
      modifies this
      ensures Valid() && log == old(log) + CallOps(Call.AddUserMemory(user, content, kind, failed), now, w)
      ensures Sane(w.unicode) && FactOps(old(log)) ==> FactOps(log)
      ensures ok <==> Trim(content, w.unicode.space) != [] && !failed
      ensures OthersKept(old(rows), rows, user) && (!ok ==> rows == old(rows))
      ensures ok ==>
                var text := w.cut(Trim(content, w.unicode.space));
                var k := (user, NormalizeKey(text, w.unicode));
                && k in rows && rows[k].content == text && rows[k].source == User && rows[k].salience >= 5
                && rows[k].kind == (if kind in {None, Some(Summary)} then Fact else kind.value)
                && log == old(log) + [Put(Write(user, k.1, rows[k].kind, text, 5, User), now)]
    {
      if Sane(w.unicode) {
        CallOpsAreFacts(Call.AddUserMemory(user, content, kind, failed), now, w);
      }
      var text := Trim(content, w.unicode.space);
      if text == [] || failed {
        return false;
      }
      text := w.cut(text);
      var x := Write(user, NormalizeKey(text, w.unicode), FactKind(kind), text, 5, User);
      if Sane(w.unicode) {
        PinnedIsGood(user, content, kind, w);
      }
      UpsertRow(x, now);
      ok := true;
    }

    method Keep(x: Write, now: int)
      requires Valid()
      modifies this
      ensures Valid() && log == old(log) + [Put(x, now)] && OthersKept(old(rows), rows, x.user)
    {
      UpsertRow(x, now);
      OthersKeptByOne(old(rows), rows, x.user, x.key);
    }

    method KeepFacts(user: int, ms: seq<Extracted>, fails: nat -> bool, now: int, w: World)
      requires Valid()
      modifies this
      ensures Valid() && log == old(log) + AsPuts(ObserveWrites(user, ms, w, fails), now)
      ensures OthersKept(old(rows), rows, user)
    {
      ghost var cs := Candidates(user, ms, w);
      ghost var all := log + AsPuts(Kept(cs, fails, 0, 0), now);
      var kept, i := 0, 0;
      while i < |ms| && kept < MAX_KEPT
        invariant 0 <= i <= |ms| && 0 <= kept && Valid() && OthersKept(old(rows), rows, user)
        invariant log + AsPuts(Kept(cs, fails, i, kept), now) == all
      {
        ghost var before := rows;
        RoundTakes(log, all, cs, fails, i, kept, now);
        var x := Judge(user, ms, i, w);
        if x != None && !fails(i) {
          Keep(x.value, now);
          OthersKeptTwice(old(rows), before, rows, user);
          kept := kept + 1;
        }
        i := i + 1;
      }
      NothingToCome(log, cs, fails, i, kept, now);
    }

    method Judge(user: int, ms: seq<Extracted>, i: nat, w: World) returns (x: Option<Write>)
      requires i < |ms|
      ensures x == Candidates(user, ms, w)[i] && (x != None ==> x.value.user == user)
    {
      CandidatesAt(user, ms, w);
      var m := ms[i];
      var content := Trim(m.content, w.unicode.space);
      if content == [] || |content| > 300 || w.pii(content) || w.pii(m.key) {
        return None;
      }
      var key := NormalizeKey(FirstNonEmpty(m.key, content, w.unicode), w.unicode);
      if key == [] {
        return None;
      }
      x := Some(Write(user, key, FactKind(m.kind), content, ClampSalience(m.salience), Auto));
    }

    /** The facts that are kept, then a new summary; nothing of another user. */
    method Observe(user: int, userMsg: string, ext: Option<Extraction>, priorSummary: string,
                   fails: nat -> bool, summaryFails: bool, now: int, w: World)
      requires Valid()
      modifies this
      ensures Valid()
      ensures log == old(log)
                     + CallOps(Call.Observe(user, userMsg, ext, priorSummary, fails, summaryFails), now, w)
      ensures Sane(w.unicode) && FactOps(old(log)) ==> FactOps(log)
      ensures OthersKept(old(rows), rows, user)
      ensures Trim(userMsg, w.unicode.space) == [] || ext == None ==> log == old(log)
      ensures Trim(userMsg, w.unicode.space) != [] && ext != None ==>
                var facts := AsPuts(ObserveWrites(user, ext.value.memories, w, fails), now);
                var text := NewSummary(ext.value, priorSummary, w);
                if text == None || summaryFails then log == old(log) + facts
                else log == old(log) + facts + [PutSummary(user, text.value, now)]
    {
      if Sane(w.unicode) {
        CallOpsAreFacts(Call.Observe(user, userMsg, ext, priorSummary, fails, summaryFails), now, w);
      }
      if Trim(userMsg, w.unicode.space) == [] || ext == None {
        return;
      }
      KeepFacts(user, ext.value.memories, fails, now, w);
      var summary := NewSummary(ext.value, priorSummary, w);
      if summary != None && !summaryFails {
        ghost var before := rows;
        SetSummaryRow(user, summary.value, now);
        OthersKeptByOne(before, rows, user, SUMMARY_KEY);
        OthersKeptTwice(old(rows), before, rows, user);
      }
    }
  }
}
