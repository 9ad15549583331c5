/**
 Regular expressions as data, with what it means that one matches a stretch of a text.
 Boundaries and anchors look at the text around the stretch, so a match is stated by its
 two ends in the whole text.
 */
module Regex {

  datatype Re =
    | Range(lo: char, hi: char)
    | NotRange(lo: char, hi: char)
    | OneOf(chars: set<char>)
    | Sequence(parts: seq<Re>)
    | Either(left: Re, right: Re)
    | Maybe(optional: Re)
    | Times(repeated: Re, low: nat, high: nat)
    | WordBoundary
    | TextStart

  predicate WordAt(t: string, i: int) {
    0 <= i < |t| && ('0' <= t[i] <= '9' || 'A' <= t[i] <= 'Z' || 'a' <= t[i] <= 'z' || t[i] == '_')
  }

  predicate InClass(r: Re, c: char) {
    match r
    case Range(lo, hi) => lo <= c <= hi
    case NotRange(lo, hi) => !(lo <= c <= hi)
    case OneOf(chars) => c in chars
    case _ => false
  }

  /** r matches t[i..j]. */
  ghost predicate MatchesAt(r: Re, t: string, i: int, j: int)
  {
    && 0 <= i <= j <= |t|
    && match r
       case Sequence(parts) =>
         exists cuts: seq<int> ::
           && |cuts| == |parts| + 1 && cuts[0] == i && cuts[|parts|] == j
           && forall k :: 0 <= k < |parts| ==> MatchesAt(parts[k], t, cuts[k], cuts[k + 1])
       case Either(a, b) => MatchesAt(a, t, i, j) || MatchesAt(b, t, i, j)
       case Maybe(a) => i == j || MatchesAt(a, t, i, j)
       case Times(a, low, high) =>
         exists cuts: seq<int> ::
           && low <= |cuts| - 1 <= high && cuts[0] == i && cuts[|cuts| - 1] == j
           && forall k :: 0 <= k < |cuts| - 1 ==> MatchesAt(a, t, cuts[k], cuts[k + 1])
       case WordBoundary => i == j && WordAt(t, i - 1) != WordAt(t, i)
       case TextStart => i == j == 0
       case _ => j == i + 1 && InClass(r, t[i])
  }

  predicate IsClass(r: Re) { r.Range? || r.NotRange? || r.OneOf? }

  /** As many characters, all of the class. */
  predicate AllIn(r: Re, t: string, i: int, j: int) {
    0 <= i <= j <= |t| && forall k :: i <= k < j ==> InClass(r, t[k])
  }

  /** The cuts of a repeated class are one character apart. */
  lemma {:induction false} CutsOfClass(r: Re, t: string, cuts: seq<int>, n: nat)
    requires IsClass(r) && n < |cuts| && 0 <= cuts[0] <= |t|
    requires forall k :: 0 <= k < |cuts| - 1 ==> MatchesAt(r, t, cuts[k], cuts[k + 1])
    ensures cuts[n] == cuts[0] + n && AllIn(r, t, cuts[0], cuts[n])
  {
    if n > 0 {
      CutsOfClass(r, t, cuts, n - 1);
      assert MatchesAt(r, t, cuts[n - 1], cuts[n - 1 + 1]);
    }
  }

  lemma MaybeClass(r: Re, t: string, i: int, j: int)
    requires IsClass(r)
    ensures MatchesAt(Maybe(r), t, i, j) <==> 0 <= j - i <= 1 && AllIn(r, t, i, j)
  {
  }

  /** A repeated class of characters: its length is within the bounds and all are of the class. */
  lemma ClassTimes(r: Re, low: nat, high: nat, t: string, i: int, j: int)
    requires IsClass(r)
    ensures MatchesAt(Times(r, low, high), t, i, j) <==> low <= j - i <= high && AllIn(r, t, i, j)
  {
    if MatchesAt(Times(r, low, high), t, i, j) {
      var cuts: seq<int> :|
        && low <= |cuts| - 1 <= high && cuts[0] == i && cuts[|cuts| - 1] == j
        && forall k :: 0 <= k < |cuts| - 1 ==> MatchesAt(r, t, cuts[k], cuts[k + 1]);
      CutsOfClass(r, t, cuts, |cuts| - 1);
    }
    if low <= j - i <= high && AllIn(r, t, i, j) {
      var cuts := seq(j - i + 1, k => i + k);
      assert cuts[0] == i && cuts[|cuts| - 1] == j;
      assert forall k :: 0 <= k < |cuts| - 1 ==> MatchesAt(r, t, cuts[k], cuts[k + 1]);
    }
  }

  /** Where the parts of a matched sequence begin and end. */
  lemma SequenceCuts(parts: seq<Re>, t: string, i: int, j: int) returns (cuts: seq<int>)
    requires MatchesAt(Sequence(parts), t, i, j)
    ensures |cuts| == |parts| + 1 && cuts[0] == i && cuts[|parts|] == j
    ensures forall k :: 0 <= k < |parts| ==> MatchesAt(parts[k], t, cuts[k], cuts[k + 1])
  {
    cuts :|
      && |cuts| == |parts| + 1 && cuts[0] == i && cuts[|parts|] == j
      && forall k :: 0 <= k < |parts| ==> MatchesAt(parts[k], t, cuts[k], cuts[k + 1]);
  }

  lemma SequenceMatches(parts: seq<Re>, t: string, cuts: seq<int>)
    requires |cuts| == |parts| + 1 && 0 <= cuts[0] <= cuts[|parts|] <= |t|
    requires forall k :: 0 <= k < |parts| ==> MatchesAt(parts[k], t, cuts[k], cuts[k + 1])
    ensures MatchesAt(Sequence(parts), t, cuts[0], cuts[|parts|])
  {
  }
}
