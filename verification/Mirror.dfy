/**
 Replacing one owner's part of a mirrored table: upsert every item under the table's
 conflict rule, then delete the owner's rows that were not among the items.
 */
module Mirror {
  import opened Options

  /** Rows by owner and key. */
  type Table<O(==), K(==), R> = map<(O, K), R>

  /** The INSERT ... ON CONFLICT DO UPDATE of one row; merge is the conflict rule (stored row, new row). */
  function Upsert<O(==), K(==), R>(t: Table<O, K, R>, owner: O, k: K, x: R, merge: (R, R) -> R): Table<O, K, R> {
    t[(owner, k) := if (owner, k) in t then merge(t[(owner, k)], x) else x]
  }

  function UpsertAll<O(==), K(==), R>(t: Table<O, K, R>, owner: O, items: seq<(K, R)>, merge: (R, R) -> R)
    : Table<O, K, R>
  {
    if items == [] then t
    else
      var (k, x) := items[|items| - 1];
      Upsert(UpsertAll(t, owner, items[..|items| - 1], merge), owner, k, x, merge)
  }

  function Keys<K, R>(items: seq<(K, R)>): (keys: seq<K>)
    ensures |keys| == |items|
  {
    if items == [] then [] else Keys(items[..|items| - 1]) + [items[|items| - 1].0]
  }

  function Prune<O(==), K(==), R>(t: Table<O, K, R>, owner: O, keep: seq<K>): Table<O, K, R> {
    map o | o in t && (o.0 != owner || o.1 in keep) :: t[o]
  }

  function DeleteAll<O(==), K(==), R>(t: Table<O, K, R>, owner: O): Table<O, K, R> {
    map o | o in t && o.0 != owner :: t[o]
  }

  function Replaced<O(==), K(==), R>(t: Table<O, K, R>, owner: O, items: seq<(K, R)>, merge: (R, R) -> R)
    : Table<O, K, R>
  {
    Prune(UpsertAll(t, owner, items, merge), owner, Keys(items))
  }

  /** The transaction; an error of a statement, or of the commit at the end, changes nothing. */
  method Replace<O(==), K(==), R>(t: Table<O, K, R>, owner: O, items: seq<(K, R)>, merge: (R, R) -> R, faultAt: nat)
    returns (ok: bool, t': Table<O, K, R>)
    ensures ok <==> faultAt > |items|
    ensures t' == if ok then Replaced(t, owner, items, merge) else t
  {
    var tx, keep := t, [];
    for i := 0 to |items|
      invariant tx == UpsertAll(t, owner, items[..i], merge) && keep == Keys(items[..i]) && faultAt >= i
    {
      assert items[..i + 1][..i] == items[..i];
      keep := keep + [items[i].0];
      if faultAt == i {
        return false, t;
      }
      var o := (owner, items[i].0);
      if o in tx {
        tx := tx[o := merge(tx[o], items[i].1)];
      } else {
        tx := tx[o := items[i].1];
      }
    }
    assert items[..|items|] == items;
    if |keep| > 0 {
      tx := Prune(tx, owner, keep);
    } else {
      tx := DeleteAll(tx, owner);
    }
    ok := faultAt > |items|;
    t' := if ok then tx else t;
  }

  // ---- what the replacement leaves ---------------------------------------------------------

  /** The new rows for one key, in order. */
  function ItemsFor<K(==), R>(items: seq<(K, R)>, k: K): seq<R> {
    if items == [] then []
    else
      var rest := ItemsFor(items[..|items| - 1], k);
      if items[|items| - 1].0 == k then rest + [items[|items| - 1].1] else rest
  }

  /** The conflict rule applied from left to right, from the stored row on. */
  function FoldRow<R>(merge: (R, R) -> R, prior: Option<R>, xs: seq<R>): Option<R> {
    if xs == [] then prior
    else
      match FoldRow(merge, prior, xs[..|xs| - 1])
      case None => Some(xs[|xs| - 1])
      case Some(r) => Some(merge(r, xs[|xs| - 1]))
  }

  function At<O(==), K(==), R>(t: Table<O, K, R>, o: (O, K)): Option<R> {
    if o in t then Some(t[o]) else None
  }

  lemma {:induction false} UpsertAllIsFold<O, K, R>(
    t: Table<O, K, R>, owner: O, items: seq<(K, R)>, merge: (R, R) -> R, w: O, k: K)
    ensures At(UpsertAll(t, owner, items, merge), (w, k))
            == if w == owner then FoldRow(merge, At(t, (w, k)), ItemsFor(items, k)) else At(t, (w, k))
    decreases |items|
  {
    if items != [] {
      UpsertAllIsFold(t, owner, items[..|items| - 1], merge, w, k);
    }
  }

  lemma {:induction false} KeysAreItems<K, R>(items: seq<(K, R)>, k: K)
    ensures k in Keys(items) <==> ItemsFor(items, k) != []
    decreases |items|
  {
    if items != [] {
      KeysAreItems(items[..|items| - 1], k);
    }
  }

  /**
   After a replacement the owner has exactly the keys of the list; each row is the
   left-to-right fold of the conflict rule over the row stored before; and the rows of
   other owners are untouched.
   */
  lemma ReplacedExactly<O, K, R>(t: Table<O, K, R>, owner: O, items: seq<(K, R)>, merge: (R, R) -> R, w: O, k: K)
    ensures At(Replaced(t, owner, items, merge), (w, k))
            == if w != owner then At(t, (w, k))
               else if k in Keys(items) then FoldRow(merge, At(t, (w, k)), ItemsFor(items, k)) else None
  {
    UpsertAllIsFold(t, owner, items, merge, w, k);
    KeysAreItems(items, k);
  }

  lemma SameTable<O, K, R>(t: Table<O, K, R>, t': Table<O, K, R>)
    requires forall o :: At(t, o) == At(t', o)
    ensures t == t'
  {
    forall o ensures o in t <==> o in t' {
      assert At(t, o) == At(t', o);
    }
    forall o | o in t ensures t[o] == t'[o] {
      assert At(t, o) == At(t', o);
    }
  }

  // ---- replacing twice ---------------------------------------------------------------------------

  /** A conflict rule that may be applied in any grouping, and once more without effect. */
  ghost predicate Absorbing<R(!new)>(merge: (R, R) -> R) {
    && (forall a: R, b: R, c: R :: Associates(merge, a, b, c))
    && (forall a: R :: merge(a, a) == a)
  }

  predicate Associates<R(==)>(merge: (R, R) -> R, a: R, b: R, c: R) {
    merge(merge(a, b), c) == merge(a, merge(b, c))
  }

  lemma {:induction false} FoldFromPrior<R(!new)>(merge: (R, R) -> R, r: R, xs: seq<R>)
    requires Absorbing(merge) && xs != []
    ensures FoldRow(merge, None, xs) != None
    ensures FoldRow(merge, Some(r), xs) == Some(merge(r, FoldRow(merge, None, xs).value))
    decreases |xs|
  {
    if |xs| > 1 {
      var front, last := xs[..|xs| - 1], xs[|xs| - 1];
      FoldFromPrior(merge, r, front);
      assert Associates(merge, r, FoldRow(merge, None, front).value, last);
    }
  }

  lemma FoldTwice<R(!new)>(merge: (R, R) -> R, prior: Option<R>, xs: seq<R>)
    requires Absorbing(merge)
    ensures FoldRow(merge, FoldRow(merge, prior, xs), xs) == FoldRow(merge, prior, xs)
  {
    if xs != [] {
      var once := FoldRow(merge, prior, xs);
      FoldFromPrior(merge, FoldRow(merge, None, xs).value, xs);
      FoldFromPrior(merge, once.value, xs);
      var x := FoldRow(merge, None, xs).value;
      if prior != None {
        FoldFromPrior(merge, prior.value, xs);
        assert Associates(merge, prior.value, x, x);
      }
    }
  }

  /** Under such a rule a second replacement with the same list changes nothing. */
  lemma ReplaceTwice<O(!new), K(!new), R(!new)>(t: Table<O, K, R>, owner: O, items: seq<(K, R)>, merge: (R, R) -> R)
    requires Absorbing(merge)
    ensures Replaced(Replaced(t, owner, items, merge), owner, items, merge) == Replaced(t, owner, items, merge)
  {
    var once := Replaced(t, owner, items, merge);
    var twice := Replaced(once, owner, items, merge);
    forall o: (O, K) ensures At(twice, o) == At(once, o) {
      ReplacedExactly(t, owner, items, merge, o.0, o.1);
      ReplacedExactly(once, owner, items, merge, o.0, o.1);
      FoldTwice(merge, At(t, o), ItemsFor(items, o.1));
    }
    SameTable(twice, once);
  }

  // ---- what the fold does to a field ---------------------------------------------------------------

  function Sticky(stored: string, incoming: string): string {
    if incoming != "" then incoming else stored
  }

  function Coalesce<T>(stored: Option<T>, incoming: Option<T>): Option<T> {
    if incoming != None then incoming else stored
  }

  /** A field that an update leaves alone unless the new row gives a value. */
  ghost predicate KeepsGiven<R(!new), V(!new)>(merge: (R, R) -> R, get: R -> V, blank: V) {
    forall a: R, b: R :: get(merge(a, b)) == if get(b) != blank then get(b) else get(a)
  }

  /** A field that an update overwrites. */
  ghost predicate Overwrites<R(!new), V(!new)>(merge: (R, R) -> R, get: R -> V) {
    forall a: R, b: R :: get(merge(a, b)) == get(b)
  }

  /** Item i is the last one for k. */
  ghost predicate IsLastOf<K, R>(items: seq<(K, R)>, k: K, i: nat) {
    i < |items| && items[i].0 == k && forall j :: i < j < |items| ==> items[j].0 != k
  }

  /** Item i is the last one for k that gives the field a value. */
  ghost predicate IsLastGiver<K, R, V>(items: seq<(K, R)>, k: K, get: R -> V, blank: V, i: nat) {
    && i < |items| && items[i].0 == k && get(items[i].1) != blank
    && forall j :: i < j < |items| && items[j].0 == k ==> get(items[j].1) == blank
  }

  /** v is the last value given for k, or the one before them all when none is. */
  ghost predicate IsLastGiven<K, R, V>(v: V, blank: V, before: V, items: seq<(K, R)>, k: K, get: R -> V) {
    || (v == before && forall i :: 0 <= i < |items| && items[i].0 == k ==> get(items[i].1) == blank)
    || (exists i: nat :: IsLastGiver(items, k, get, blank, i) && v == get(items[i].1))
  }

  lemma LastGivenOneMore<K, R, V>(
    v: V, blank: V, before: V, items: seq<(K, R)>, k: K, get: R -> V, item: (K, R))
    requires IsLastGiven(v, blank, before, items, k, get)
    ensures IsLastGiven(if item.0 == k && get(item.1) != blank then get(item.1) else v,
                        blank, before, items + [item], k, get)
  {
    var more := items + [item];
    assert more[|items|] == item;
    if item.0 == k && get(item.1) != blank {
      assert IsLastGiver(more, k, get, blank, |items|);
    } else if !(v == before && forall i :: 0 <= i < |items| && items[i].0 == k ==> get(items[i].1) == blank) {
      var i: nat :| IsLastGiver(items, k, get, blank, i) && v == get(items[i].1);
      assert more[i] == items[i] && IsLastGiver(more, k, get, blank, i);
    }
  }

  lemma {:induction false} UpsertsKeepGiven<O(!new), K(!new), R(!new), V(!new)>(
    t: Table<O, K, R>, owner: O, items: seq<(K, R)>, merge: (R, R) -> R, k: K, get: R -> V, blank: V)
    requires KeepsGiven(merge, get, blank)
    ensures At(UpsertAll(t, owner, items, merge), (owner, k)) != None ==>
              IsLastGiven(get(At(UpsertAll(t, owner, items, merge), (owner, k)).value), blank,
                          if At(t, (owner, k)) == None then blank else get(t[(owner, k)]), items, k, get)
    decreases |items|
  {
    if items != [] {
      var front, item := items[..|items| - 1], items[|items| - 1];
      UpsertsKeepGiven(t, owner, front, merge, k, get, blank);
      var before := if At(t, (owner, k)) == None then blank else get(t[(owner, k)]);
      var row := At(UpsertAll(t, owner, front, merge), (owner, k));
      if row == None {
        NoneForKey(t, owner, front, merge, k);
        assert IsLastGiven(before, blank, before, front, k, get);
        LastGivenOneMore(before, blank, before, front, k, get, item);
      } else {
        LastGivenOneMore(get(row.value), blank, before, front, k, get, item);
      }
      assert items == front + [item];
    }
  }

  /** No row, then nothing was stored and nothing given. */
  lemma {:induction false} NoneForKey<O, K, R>(
    t: Table<O, K, R>, owner: O, items: seq<(K, R)>, merge: (R, R) -> R, k: K)
    ensures At(UpsertAll(t, owner, items, merge), (owner, k)) == None
            <==> At(t, (owner, k)) == None && forall i :: 0 <= i < |items| ==> items[i].0 != k
    decreases |items|
  {
    if items != [] {
      var front, item := items[..|items| - 1], items[|items| - 1];
      NoneForKey(t, owner, front, merge, k);
      assert items == front + [item];
      assert item == items[|items| - 1];
    }
  }

  /** A field whose conflict rule keeps given values ends as the last given one, in the list or stored before. */
  lemma FieldIsLastGiven<O(!new), K(!new), R(!new), V(!new)>(
    t: Table<O, K, R>, owner: O, items: seq<(K, R)>, merge: (R, R) -> R, k: K, get: R -> V, blank: V)
    requires KeepsGiven(merge, get, blank) && exists i :: 0 <= i < |items| && items[i].0 == k
    ensures (owner, k) in Replaced(t, owner, items, merge)
    ensures IsLastGiven(get(Replaced(t, owner, items, merge)[(owner, k)]), blank,
                        if (owner, k) in t then get(t[(owner, k)]) else blank, items, k, get)
  {
    NoneForKey(t, owner, items, merge, k);
    KeysAt(items);
    UpsertsKeepGiven(t, owner, items, merge, k, get, blank);
    var i :| 0 <= i < |items| && items[i].0 == k;
    assert Keys(items)[i] == k;
  }

  lemma {:induction false} UpsertsOverwrite<O, K, R(!new), V(!new)>(
    t: Table<O, K, R>, owner: O, items: seq<(K, R)>, merge: (R, R) -> R, k: K, get: R -> V, last: nat)
    requires Overwrites(merge, get) && IsLastOf(items, k, last)
    ensures (owner, k) in UpsertAll(t, owner, items, merge)
    ensures get(UpsertAll(t, owner, items, merge)[(owner, k)]) == get(items[last].1)
    decreases |items|
  {
    var front, item := items[..|items| - 1], items[|items| - 1];
    if last < |front| {
      assert items[|items| - 1].0 != k;
      assert IsLastOf(front, k, last);
      UpsertsOverwrite(t, owner, front, merge, k, get, last);
    }
  }

  /** A field that the conflict rule overwrites ends as the last item's. */
  lemma FieldIsLast<O, K, R(!new), V(!new)>(
    t: Table<O, K, R>, owner: O, items: seq<(K, R)>, merge: (R, R) -> R, k: K, get: R -> V, last: nat)
    requires Overwrites(merge, get) && IsLastOf(items, k, last)
    ensures (owner, k) in Replaced(t, owner, items, merge)
    ensures get(Replaced(t, owner, items, merge)[(owner, k)]) == get(items[last].1)
  {
    UpsertsOverwrite(t, owner, items, merge, k, get, last);
    KeysAt(items);
    assert Keys(items)[last] == k;
  }

  lemma {:induction false} KeysAt<K, R>(items: seq<(K, R)>)
    ensures forall i :: 0 <= i < |items| ==> Keys(items)[i] == items[i].0
    decreases |items|
  {
    if items != [] {
      KeysAt(items[..|items| - 1]);
    }
  }
}
