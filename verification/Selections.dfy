/**
 Filtering a list: the members that pass, each once, in the order of the list.
 */
module Selections {

  function Filter<T>(xs: seq<T>, keep: T -> bool): (ys: seq<T>) {
    if xs == [] then []
    else
      var front, x := Filter(xs[..|xs| - 1], keep), xs[|xs| - 1];
      if keep(x) then front + [x] else front
  }

  /** Where the members of the filtered list stand in the whole one. */
  function Places<T>(xs: seq<T>, keep: T -> bool): (places: seq<nat>)
    ensures |places| == |Filter(xs, keep)|
  {
    if xs == [] then []
    else
      var front := Places(xs[..|xs| - 1], keep);
      if keep(xs[|xs| - 1]) then front + [|xs| - 1] else front
  }

  /** Member k of ys stands at places[k] of xs; the places ascend, and are exactly those that pass. */
  ghost predicate SelectsAt<T>(xs: seq<T>, keep: T -> bool, ys: seq<T>, places: seq<nat>) {
    && Ascends(places)
    && |places| == |ys| && (forall k :: 0 <= k < |places| ==> places[k] < |xs| && ys[k] == xs[places[k]])
    && (forall i :: 0 <= i < |xs| ==> (keep(xs[i]) <==> i in places))
  }

  ghost predicate Ascends(places: seq<nat>) {
    forall j, k :: 0 <= j < k < |places| ==> places[j] < places[k]
  }

  lemma TakeLast<T>(xs: seq<T>, keep: T -> bool, ys: seq<T>, x: T, places: seq<nat>)
    requires SelectsAt(xs, keep, ys, places) && keep(x)
    ensures SelectsAt(xs + [x], keep, ys + [x], places + [|xs|])
  {
    forall i | 0 <= i < |xs + [x]| ensures keep((xs + [x])[i]) <==> i in places + [|xs|] {
      assert i < |xs| ==> (i in places + [|xs|] <==> i in places);
    }
  }

  lemma RefuseLast<T>(xs: seq<T>, keep: T -> bool, ys: seq<T>, x: T, places: seq<nat>)
    requires SelectsAt(xs, keep, ys, places) && !keep(x)
    ensures SelectsAt(xs + [x], keep, ys, places)
  {
  }

  /** What the filtered list is: every member that passes, once, in the old order, and no other. */
  lemma {:induction false} FilterSelects<T>(xs: seq<T>, keep: T -> bool)
    ensures SelectsAt(xs, keep, Filter(xs, keep), Places(xs, keep))
    decreases |xs|
  {
    if xs != [] {
      var front, x := xs[..|xs| - 1], xs[|xs| - 1];
      FilterSelects(front, keep);
      if keep(x) {
        TakeLast(front, keep, Filter(front, keep), x, Places(front, keep));
      } else {
        RefuseLast(front, keep, Filter(front, keep), x, Places(front, keep));
      }
      assert xs == front + [x];
    }
  }

  lemma {:induction false} FilterFirst<T>(x: T, xs: seq<T>, keep: T -> bool)
    ensures Filter([x] + xs, keep) == (if keep(x) then [x] else []) + Filter(xs, keep)
    decreases |xs|
  {
    if xs == [] {
      assert [x] + xs == [x] && [x][..0] == [];
    } else {
      FilterFirst(x, xs[..|xs| - 1], keep);
      assert ([x] + xs)[..|xs|] == [x] + xs[..|xs| - 1];
    }
  }

  lemma {:induction false} FilterHas<T>(xs: seq<T>, keep: T -> bool)
    ensures forall x :: x in Filter(xs, keep) <==> x in xs && keep(x)
    decreases |xs|
  {
    if xs != [] {
      FilterHas(xs[..|xs| - 1], keep);
      assert xs == xs[..|xs| - 1] + [xs[|xs| - 1]];
    }
  }

  function Passing<T>(xs: seq<T>, keep: T -> bool): set<nat> {
    set i: nat | i < |xs| && keep(xs[i])
  }

  /** Its length is the number of places that pass. */
  lemma {:induction false} FilterCount<T>(xs: seq<T>, keep: T -> bool)
    ensures |Filter(xs, keep)| == |Passing(xs, keep)|
    decreases |xs|
  {
    if xs != [] {
      var front, x := xs[..|xs| - 1], xs[|xs| - 1];
      FilterCount(front, keep);
      assert xs == front + [x];
      assert Passing(xs, keep) == Passing(front, keep) + if keep(x) then {|front|} else {};
    }
  }

  /** Two members that pass keep their order. */
  lemma FilterOrder<T>(xs: seq<T>, keep: T -> bool, i: nat, j: nat) returns (a: nat, b: nat)
    requires i <= j < |xs| && keep(xs[i]) && keep(xs[j])
    ensures var ys := Filter(xs, keep); a <= b < |ys| && ys[a] == xs[i] && ys[b] == xs[j]
  {
    var places := Places(xs, keep);
    FilterSelects(xs, keep);
    a :| 0 <= a < |places| && places[a] == i;
    b :| 0 <= b < |places| && places[b] == j;
    OrderOfPlaces(places, a, b);
  }

  lemma OrderOfPlaces(places: seq<nat>, a: nat, b: nat)
    requires Ascends(places) && a < |places| && b < |places| && places[a] <= places[b]
    ensures a <= b
  {
  }
}
