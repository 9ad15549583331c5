/**
 The redactor's regular expressions as the program writes them, and the proof that the
 patterns of the redaction passes are these expressions.
 */
module PiiExpressions {
  import opened PiiPatterns
  import opened PiiRedactor
  import opened Regex

  const DIGIT := Range('0', '9')

  const UPPER := Range('A', 'Z')

  const SPACE := OneOf({' ', '\t', '\n', '\r', 12 as char})

  const PLUS := OneOf({'+'})

  const SPACE_OR_DASH := OneOf({' ', '\t', '\n', '\r', 12 as char, '-'})

  const COUNTRY := Sequence([Maybe(PLUS), OneOf({'9'}), OneOf({'1'}), Maybe(SPACE_OR_DASH)])

  /** The expression of each pattern; Glued is not one of the program's. */
  function Expression(p: Pattern): Re
    requires p != Glued
  {
    match p
    case Pan => Sequence([WordBoundary, Times(UPPER, 5, 5), Times(DIGIT, 4, 4), UPPER, WordBoundary])
    case Phone =>
      Sequence([Either(TextStart, NotRange('0', '9')), Maybe(COUNTRY), Range('6', '9'),
                Times(DIGIT, 9, 9), WordBoundary])
    case Aadhaar =>
      Sequence([WordBoundary, Times(DIGIT, 4, 4), Maybe(SPACE), Times(DIGIT, 4, 4), Maybe(SPACE),
                Times(DIGIT, 4, 4), WordBoundary])
    case Acct => Sequence([WordBoundary, Times(DIGIT, 12, 18), WordBoundary])
  }

  lemma PanMatches(t: string, i: nat, j: int)
    requires MatchesAt(Expression(Pan), t, i, j)
    ensures OccursAt(Pan, t, i, j)
  {
    var parts := Expression(Pan).parts;
    var c := SequenceCuts(parts, t, i, j);
    assert MatchesAt(parts[0], t, c[0], c[1]);
    assert MatchesAt(parts[1], t, c[1], c[2]);
    assert MatchesAt(parts[2], t, c[2], c[3]);
    assert MatchesAt(parts[3], t, c[3], c[4]);
    assert MatchesAt(parts[4], t, c[4], c[5]);
    ClassTimes(UPPER, 5, 5, t, i, c[2]);
    ClassTimes(DIGIT, 4, 4, t, c[2], c[3]);
    LettersAre(t, i, j);
  }

  lemma LettersAre(t: string, i: nat, j: int)
    requires j == i + 10 <= |t|
    ensures PanShape(t[i..j])
       <==> AllIn(UPPER, t, i, i + 5) && AllIn(DIGIT, t, i + 5, i + 9) && AllIn(UPPER, t, i + 9, j)
    ensures t[i..][..10] == t[i..j]
  {
    assert forall k :: 0 <= k < 10 ==> t[i..j][k] == t[i + k];
    assert forall k :: i <= k < j ==> t[k] == t[i..j][k - i];
  }

  lemma PanOccurs(t: string, i: nat, j: int)
    requires OccursAt(Pan, t, i, j)
    ensures MatchesAt(Expression(Pan), t, i, j)
  {
    var parts := Expression(Pan).parts;
    var c := [i as int, i, i + 5, i + 9, i + 10, i + 10];
    LettersAre(t, i, j);
    ClassTimes(UPPER, 5, 5, t, i, i + 5);
    ClassTimes(DIGIT, 4, 4, t, i + 5, i + 9);
    assert MatchesAt(parts[0], t, c[0], c[1]);
    assert MatchesAt(parts[3], t, c[3], c[4]) && MatchesAt(parts[4], t, c[4], c[5]);
    SequenceMatches(parts, t, c);
  }

  lemma DigitsAre(t: string, i: nat, j: int, n: nat)
    requires i + n <= j <= |t|
    ensures Digits(t[i..j], n) <==> AllIn(DIGIT, t, i, i + n)
  {
    assert forall k :: 0 <= k < n ==> t[i..j][k] == t[i + k];
    assert forall k :: i <= k < i + n ==> t[k] == t[i..j][k - i];
  }

  lemma GapIs(t: string, i: nat, j: nat)
    requires i <= j <= |t| && j - i <= 1
    ensures Gap(t[i..j]) <==> AllIn(SPACE, t, i, j)
  {
    if i < j {
      assert t[i..j][0] == t[i];
    }
  }

  lemma AcctMatches(t: string, i: nat, j: int)
    requires MatchesAt(Expression(Acct), t, i, j)
    ensures OccursAt(Acct, t, i, j)
  {
    var parts := Expression(Acct).parts;
    var c := SequenceCuts(parts, t, i, j);
    assert MatchesAt(parts[0], t, c[0], c[1]);
    assert MatchesAt(parts[1], t, c[1], c[2]);
    assert MatchesAt(parts[2], t, c[2], c[3]);
    ClassTimes(DIGIT, 12, 18, t, i, j);
    DigitsAre(t, i, |t|, j - i);
    assert t[i..|t|] == t[i..];
  }

  lemma AcctOccurs(t: string, i: nat, j: int)
    requires OccursAt(Acct, t, i, j)
    ensures MatchesAt(Expression(Acct), t, i, j)
  {
    var parts := Expression(Acct).parts;
    var c := [i as int, i, j, j];
    DigitsAre(t, i, |t|, j - i);
    assert t[i..|t|] == t[i..];
    ClassTimes(DIGIT, 12, 18, t, i, j);
    assert forall k :: 0 <= k < |parts| ==> MatchesAt(parts[k], t, c[k], c[k + 1]);
  }

  lemma SliceOf(t: string, i: nat, j: int, k: nat, l: nat)
    requires i <= j <= |t| && k <= l <= j - i
    ensures t[i..j][k..l] == t[i + k..i + l] && (l == j - i ==> t[i..j][k..] == t[i + k..j])
  {
    assert forall e :: 0 <= e < l - k ==> t[i..j][k..l][e] == t[i + k..i + l][e];
  }

  /** The Aadhaar shape in the text: three groups of four digits with gaps of a and b characters. */
  predicate GroupsAt(t: string, i: nat, j: int, a: nat, b: nat) {
    && a <= 1 && b <= 1 && j == i + 12 + a + b <= |t|
    && AllIn(DIGIT, t, i, i + 4) && AllIn(SPACE, t, i + 4, i + 4 + a)
    && AllIn(DIGIT, t, i + 4 + a, i + 8 + a) && AllIn(SPACE, t, i + 8 + a, i + 8 + a + b)
    && AllIn(DIGIT, t, i + 8 + a + b, j)
  }

  lemma GroupsAre(t: string, i: nat, j: int, a: nat, b: nat)
    requires i <= j <= |t| && a <= 1 && b <= 1 && j == i + 12 + a + b
    ensures GroupsAt(t, i, j, a, b) <==> AadhaarSplit(t[i..j], t[i + 4..i + 4 + a], t[i + 8 + a..i + 8 + a + b])
  {
    var m := t[i..j];
    SliceOf(t, i, j, 4, 4 + a);
    SliceOf(t, i, j, 8 + a, 8 + a + b);
    SliceOf(t, i, j, 4 + a, j - i);
    SliceOf(t, i, j, 8 + a + b, j - i);
    DigitsAre(t, i, j, 4);
    DigitsAre(t, i + 4 + a, j, 4);
    DigitsAre(t, i + 8 + a + b, j, 4);
    GapIs(t, i + 4, i + 4 + a);
    GapIs(t, i + 8 + a, i + 8 + a + b);
  }

  lemma AadhaarMatches(t: string, i: nat, j: int)
    requires MatchesAt(Expression(Aadhaar), t, i, j)
    ensures OccursAt(Aadhaar, t, i, j)
  {
    var parts := Expression(Aadhaar).parts;
    var c := SequenceCuts(parts, t, i, j);
    assert MatchesAt(parts[0], t, c[0], c[1]);
    assert MatchesAt(parts[1], t, c[1], c[2]);
    assert MatchesAt(parts[2], t, c[2], c[3]);
    assert MatchesAt(parts[3], t, c[3], c[4]);
    assert MatchesAt(parts[4], t, c[4], c[5]);
    assert MatchesAt(parts[5], t, c[5], c[6]);
    assert MatchesAt(parts[6], t, c[6], c[7]);
    GroupsCut(t, c);
    GroupsOccur(t, i, j, c[3] - c[2], c[5] - c[4]);
  }

  lemma GroupsCut(t: string, c: seq<int>)
    requires |c| == 8 && c[0] == c[1] && c[6] == c[7] && c[0] >= 0
    requires MatchesAt(Times(DIGIT, 4, 4), t, c[1], c[2]) && MatchesAt(Maybe(SPACE), t, c[2], c[3])
    requires MatchesAt(Times(DIGIT, 4, 4), t, c[3], c[4]) && MatchesAt(Maybe(SPACE), t, c[4], c[5])
    requires MatchesAt(Times(DIGIT, 4, 4), t, c[5], c[6])
    ensures c[2] <= c[3] && c[4] <= c[5] && GroupsAt(t, c[0], c[7], c[3] - c[2], c[5] - c[4])
  {
    ClassTimes(DIGIT, 4, 4, t, c[1], c[2]);
    MaybeClass(SPACE, t, c[2], c[3]);
    ClassTimes(DIGIT, 4, 4, t, c[3], c[4]);
    MaybeClass(SPACE, t, c[4], c[5]);
    ClassTimes(DIGIT, 4, 4, t, c[5], c[6]);
  }

  lemma GroupsOccur(t: string, i: nat, j: int, a: nat, b: nat)
    requires GroupsAt(t, i, j, a, b) && !WordAt(t, i - 1) && !WordAt(t, j)
    ensures OccursAt(Aadhaar, t, i, j)
  {
    GroupsAre(t, i, j, a, b);
    assert t[i..][..j - i] == t[i..j];
  }

  lemma AadhaarOccurs(t: string, i: nat, j: int)
    requires OccursAt(Aadhaar, t, i, j)
    ensures MatchesAt(Expression(Aadhaar), t, i, j)
  {
    var m := t[i..][..j - i];
    assert m == t[i..j];
    var g, h :| AadhaarSplit(m, g, h);
    var a, b := |g|, |h|;
    SliceOf(t, i, j, 4, 4 + a);
    SliceOf(t, i, j, 8 + a, 8 + a + b);
    GroupsAre(t, i, j, a, b);
    GroupsMatch(t, i, j, a, b);
  }

  lemma GroupsParts(t: string, i: nat, j: int, a: nat, b: nat)
    requires GroupsAt(t, i, j, a, b)
    ensures MatchesAt(Times(DIGIT, 4, 4), t, i, i + 4) && MatchesAt(Maybe(SPACE), t, i + 4, i + 4 + a)
    ensures MatchesAt(Times(DIGIT, 4, 4), t, i + 4 + a, i + 8 + a)
    ensures MatchesAt(Maybe(SPACE), t, i + 8 + a, i + 8 + a + b)
    ensures MatchesAt(Times(DIGIT, 4, 4), t, i + 8 + a + b, j)
  {
    ClassTimes(DIGIT, 4, 4, t, i, i + 4);
    MaybeClass(SPACE, t, i + 4, i + 4 + a);
    ClassTimes(DIGIT, 4, 4, t, i + 4 + a, i + 8 + a);
    MaybeClass(SPACE, t, i + 8 + a, i + 8 + a + b);
    ClassTimes(DIGIT, 4, 4, t, i + 8 + a + b, j);
  }

  lemma GroupsMatch(t: string, i: nat, j: int, a: nat, b: nat)
    requires GroupsAt(t, i, j, a, b) && !WordAt(t, i - 1) && !WordAt(t, j)
    ensures MatchesAt(Expression(Aadhaar), t, i, j)
  {
    var parts := Expression(Aadhaar).parts;
    var c := [i as int, i, i + 4, i + 4 + a, i + 8 + a, i + 8 + a + b, j, j];
    GroupsParts(t, i, j, a, b);
    assert MatchesAt(parts[0], t, c[0], c[1]) && MatchesAt(parts[6], t, c[6], c[7]);
    SequenceMatches(parts, t, c);
  }

  /** The country code in the text, with a plus signs and the digits up to k. */
  predicate CodeAt(t: string, i: nat, k: nat, a: nat) {
    && a <= 1 && i + a + 2 <= k <= i + a + 3 && k <= |t|
    && AllIn(PLUS, t, i, i + a) && t[i + a] == '9' && t[i + a + 1] == '1'
    && AllIn(SPACE_OR_DASH, t, i + a + 2, k)
  }

  lemma CodeDigitsAre(t: string, i: nat, k: nat)
    requires i <= k <= |t|
    ensures CountryDigits(t[i..k]) <==> CodeAt(t, i, k, 0)
  {
    if 2 <= k - i <= 3 {
      assert t[i..k][0] == t[i] && t[i..k][1] == t[i + 1];
      assert t[i..k][..2] == [t[i], t[i + 1]];
      assert k - i == 3 ==> t[i..k][2] == t[i + 2];
    }
  }

  lemma CodeIs(t: string, i: nat, k: nat)
    requires i <= k <= |t|
    ensures CountryCode(t[i..k]) <==> CodeAt(t, i, k, 0) || CodeAt(t, i, k, 1)
  {
    CodeDigitsAre(t, i, k);
    if i < k {
      CodeDigitsAre(t, i + 1, k);
      assert t[i..k][1..] == t[i + 1..k] && t[i..k][0] == t[i];
    }
  }

  lemma CodeMatches(t: string, i: nat, k: nat)
    requires i <= k <= |t|
    ensures MatchesAt(COUNTRY, t, i, k) <==> CountryCode(t[i..k])
  {
    var parts := COUNTRY.parts;
    CodeIs(t, i, k);
    if MatchesAt(COUNTRY, t, i, k) {
      var c := SequenceCuts(parts, t, i, k);
      assert MatchesAt(parts[0], t, c[0], c[1]);
      assert MatchesAt(parts[1], t, c[1], c[2]);
      assert MatchesAt(parts[2], t, c[2], c[3]);
      assert MatchesAt(parts[3], t, c[3], c[4]);
      MaybeClass(PLUS, t, c[0], c[1]);
      MaybeClass(SPACE_OR_DASH, t, c[3], c[4]);
      assert CodeAt(t, i, k, c[1] - i);
    }
    if CodeAt(t, i, k, 0) {
      CodeBuilds(t, i, k, 0);
    }
    if CodeAt(t, i, k, 1) {
      CodeBuilds(t, i, k, 1);
    }
  }

  lemma CodeBuilds(t: string, i: nat, k: nat, a: nat)
    requires CodeAt(t, i, k, a)
    ensures MatchesAt(COUNTRY, t, i, k)
  {
    var parts := COUNTRY.parts;
    var c := [i as int, i + a, i + a + 1, i + a + 2, k];
    MaybeClass(PLUS, t, i, i + a);
    MaybeClass(SPACE_OR_DASH, t, i + a + 2, k);
    assert MatchesAt(parts[1], t, c[1], c[2]) && MatchesAt(parts[2], t, c[2], c[3]);
    SequenceMatches(parts, t, c);
  }

  /** The phone number in the text: the country code up to k if there is one, then ten digits. */
  ghost predicate BodyAt(t: string, i: nat, j: int, k: int) {
    && i <= k && j == k + 10 <= |t| && (k == i || MatchesAt(COUNTRY, t, i, k))
    && '6' <= t[k] <= '9' && AllIn(DIGIT, t, k, j)
  }

  lemma BodyAre(t: string, i: nat, j: int, k: int)
    requires i <= k <= j <= |t|
    ensures BodyAt(t, i, j, k) <==> BodySplit(t[i..j], k - i)
  {
    CodeMatches(t, i, k);
    SliceOf(t, i, j, 0, k - i);
    SliceOf(t, i, j, k - i, j - i);
    assert t[i..j][..k - i] == t[i..k];
    if j == k + 10 {
      DigitsAre(t, k, j, 10);
      assert t[k..j][0] == t[k];
    }
  }

  lemma PhoneMatches(t: string, i: nat, j: int)
    requires MatchesAt(Expression(Phone), t, i, j)
    ensures OccursAt(Phone, t, i, j)
  {
    var parts := Expression(Phone).parts;
    var c := SequenceCuts(parts, t, i, j);
    assert MatchesAt(parts[0], t, c[0], c[1]);
    assert MatchesAt(parts[1], t, c[1], c[2]);
    assert MatchesAt(parts[2], t, c[2], c[3]);
    assert MatchesAt(parts[3], t, c[3], c[4]);
    assert MatchesAt(parts[4], t, c[4], c[5]);
    BodyCut(t, c[1], c[2], c[3], j);
    BodyOccurs(t, i, j, c[1], c[2]);
  }

  lemma BodyCut(t: string, b: nat, k: int, l: int, j: int)
    requires MatchesAt(Maybe(COUNTRY), t, b, k) && MatchesAt(Range('6', '9'), t, k, l)
    requires MatchesAt(Times(DIGIT, 9, 9), t, l, j)
    ensures BodyAt(t, b, j, k)
  {
    ClassTimes(DIGIT, 9, 9, t, l, j);
  }

  lemma BodyOccurs(t: string, i: nat, j: int, b: nat, k: int)
    requires BodyAt(t, b, j, k) && !WordAt(t, j)
    requires i == b == 0 || (i + 1 == b && !IsDigit(t[i]))
    ensures OccursAt(Phone, t, i, j)
  {
    BodyAre(t, b, j, k);
    RestSlice(t, i, i, j);
    RestSlice(t, i, b, j);
  }

  lemma RestSlice(t: string, i: nat, b: nat, j: nat)
    requires i <= b <= j <= |t|
    ensures t[i..][b - i..j - i] == t[b..j] && (b == i ==> t[i..][..j - i] == t[b..j])
  {
  }

  lemma PhoneOccurs(t: string, i: nat, j: int)
    requires OccursAt(Phone, t, i, j)
    ensures MatchesAt(Expression(Phone), t, i, j)
  {
    RestSlice(t, i, i, j);
    if i == 0 && BodyShape(t[i..j]) {
      ShapeBuilds(t, i, j, i);
    } else {
      RestSlice(t, i, i + 1, j);
      ShapeBuilds(t, i, j, i + 1);
    }
  }

  lemma ShapeBuilds(t: string, i: nat, j: nat, b: nat)
    requires b <= j <= |t| && BodyShape(t[b..j]) && !WordAt(t, j)
    requires i == b == 0 || (i + 1 == b && !IsDigit(t[i]))
    ensures MatchesAt(Expression(Phone), t, i, j)
  {
    var n :| 0 <= n <= j - b && BodySplit(t[b..j], n);
    BodyAre(t, b, j, b + n);
    PhoneBuilds(t, i, j, b, b + n);
  }

  lemma BodyParts(t: string, b: nat, j: int, k: int)
    requires BodyAt(t, b, j, k) && !WordAt(t, j)
    ensures MatchesAt(Maybe(COUNTRY), t, b, k) && MatchesAt(Range('6', '9'), t, k, k + 1)
    ensures MatchesAt(Times(DIGIT, 9, 9), t, k + 1, j) && MatchesAt(WordBoundary, t, j, j)
  {
    ClassTimes(DIGIT, 9, 9, t, k + 1, j);
  }

  lemma PhoneBuilds(t: string, i: nat, j: int, b: nat, k: int)
    requires BodyAt(t, b, j, k) && !WordAt(t, j)
    requires i == b == 0 || (i + 1 == b && !IsDigit(t[i]))
    ensures MatchesAt(Expression(Phone), t, i, j)
  {
    var parts := Expression(Phone).parts;
    var c := [i as int, b, k, k + 1, j, j];
    BodyParts(t, b, j, k);
    assert MatchesAt(parts[0], t, c[0], c[1]);
    SequenceMatches(parts, t, c);
  }

  /** The stretches that the passes look for are those that the program's expressions match. */
  lemma OccursIsRegex(p: Pattern, t: string, i: int, j: int)
    requires p != Glued
    ensures OccursAt(p, t, i, j) <==> MatchesAt(Expression(p), t, i, j)
  {
    if OccursAt(p, t, i, j) {
      match p {
        case Pan => PanOccurs(t, i, j);
        case Phone => PhoneOccurs(t, i, j);
        case Aadhaar => AadhaarOccurs(t, i, j);
        case Acct => AcctOccurs(t, i, j);
      }
    }
    if MatchesAt(Expression(p), t, i, j) {
      match p {
        case Pan => PanMatches(t, i, j);
        case Phone => PhoneMatches(t, i, j);
        case Aadhaar => AadhaarMatches(t, i, j);
        case Acct => AcctMatches(t, i, j);
      }
    }
  }

  // ---- the passes, as replacement of every match of the expression --------------------

  /** The phone expression with the first choice of its leading group, the start of the text. */
  const PHONE_AT_START := Sequence([TextStart, Maybe(COUNTRY), Range('6', '9'), Times(DIGIT, 9, 9), WordBoundary])

  /** What replaces a match at position i: the tag, behind what the phone's leading group captured. */
  ghost function Replacement(p: Pattern, t: string, i: nat, j: int): string
    requires i < j <= |t|
  {
    match p
    case Pan => "[REDACTED_PAN]"
    case Phone => (if MatchesAt(PHONE_AT_START, t, i, j) then [] else [t[i]]) + "[REDACTED_PHONE]"
    case Aadhaar => "[REDACTED_AADHAAR]"
    case Acct => "[REDACTED_ACCT]"
    case Glued => []
  }

  /** Every match of the expression replaced, from left to right: a match, then on from its end. */
  ghost function ReplaceAll(p: Pattern, t: string, i: nat): string
    requires p != Glued && i <= |t|
    decreases |t| - i
  {
    if exists j :: i < j && MatchesAt(Expression(p), t, i, j) then
      var j :| i < j && MatchesAt(Expression(p), t, i, j);
      Replacement(p, t, i, j) + ReplaceAll(p, t, j)
    else if i < |t| then [t[i]] + ReplaceAll(p, t, i + 1)
    else []
  }

  /** All matches from a position end at the same place. */
  lemma MatchEnds(p: Pattern, t: string, i: nat, j: int)
    requires p != Glued && MatchesAt(Expression(p), t, i, j)
    ensures j == i + MatchLen(p, ContextAt(t, i), t[i..]) && i < j
  {
    OccursIsRegex(p, t, i, j);
    MatchLenComplete(p, ContextAt(t, i), t[i..], j - i);
  }

  lemma MatchStarts(p: Pattern, t: string, i: nat, j: nat)
    requires p != Glued && i < j <= |t| && j == i + MatchLen(p, ContextAt(t, i), t[i..])
    ensures MatchesAt(Expression(p), t, i, j)
  {
    MatchLenSound(p, ContextAt(t, i), t[i..]);
    OccursIsRegex(p, t, i, j);
  }

  /** The scan at a position where the expression matches. */
  lemma ReplaceAllMatch(p: Pattern, t: string, i: nat, j: int)
    requires p != Glued && i < j && MatchesAt(Expression(p), t, i, j)
    ensures ReplaceAll(p, t, i) == Replacement(p, t, i, j) + ReplaceAll(p, t, j)
  {
    forall e | i < e && MatchesAt(Expression(p), t, i, e) ensures e == j {
      MatchEnds(p, t, i, e);
      MatchEnds(p, t, i, j);
    }
  }

  lemma PassMatch(p: Pattern, t: string, i: nat, j: nat, r: string)
    requires i < j <= |t| && j == i + MatchLen(p, ContextAt(t, i), t[i..])
    requires r == Lead(p, ContextAt(t, i), t[i..]) + Placeholder(p)
    ensures Pass(p, ContextAt(t, i), t[i..]) == r + Pass(p, ContextAt(t, j), t[j..])
  {
    RestOfText(t, i, j);
    PassWrites(p, ContextAt(t, i), t[i..], r, ContextAt(t, j), t[j..]);
  }

  lemma RestOfText(t: string, i: nat, j: nat)
    requires i < j <= |t|
    ensures t[i..][j - i..] == t[j..] && After(t[i..][j - i - 1]) == ContextAt(t, j)
  {
  }

  lemma PassWrites(p: Pattern, prev: Context, s: string, r: string, next: Context, rest: string)
    requires var n := MatchLen(p, prev, s); n > 0 && rest == s[n..] && next == After(s[n - 1])
    requires r == Lead(p, prev, s) + Placeholder(p)
    ensures Pass(p, prev, s) == r + Pass(p, next, rest)
  {
  }

  /** Where nothing matches, the pass and the scan copy the character and go on. */
  lemma CopiesOn(p: Pattern, t: string, i: nat)
    requires p != Glued && i <= |t| && MatchLen(p, ContextAt(t, i), t[i..]) == 0
    ensures i < |t| ==> ReplaceAll(p, t, i) == [t[i]] + ReplaceAll(p, t, i + 1)
    ensures i < |t| ==> Pass(p, ContextAt(t, i), t[i..]) == [t[i]] + Pass(p, ContextAt(t, i + 1), t[i + 1..])
    ensures i == |t| ==> Pass(p, ContextAt(t, i), t[i..]) == ReplaceAll(p, t, i)
  {
    forall e | i < e ensures !MatchesAt(Expression(p), t, i, e) {
      NoMatchFrom(p, t, i, e);
    }
    if i < |t| {
      assert t[i..][1..] == t[i + 1..];
    }
  }

  lemma NoMatchFrom(p: Pattern, t: string, i: nat, e: int)
    requires p != Glued && i <= |t| && MatchLen(p, ContextAt(t, i), t[i..]) == 0
    ensures !MatchesAt(Expression(p), t, i, e)
  {
    if MatchesAt(Expression(p), t, i, e) {
      MatchEnds(p, t, i, e);
    }
  }

  lemma MatchStep(p: Pattern, t: string, i: nat, j: nat)
    requires p != Glued && i < j <= |t| && j == i + MatchLen(p, ContextAt(t, i), t[i..])
    ensures ReplaceAll(p, t, i) == Lead(p, ContextAt(t, i), t[i..]) + Placeholder(p) + ReplaceAll(p, t, j)
  {
    MatchStarts(p, t, i, j);
    ReplaceAllMatch(p, t, i, j);
    LeadIsGroup(p, t, i);
  }

  lemma MatchBoth(p: Pattern, t: string, i: nat) returns (r: string, j: nat)
    requires p != Glued && i < |t| && MatchLen(p, ContextAt(t, i), t[i..]) > 0
    ensures i < j <= |t|
    ensures Pass(p, ContextAt(t, i), t[i..]) == r + Pass(p, ContextAt(t, j), t[j..])
    ensures ReplaceAll(p, t, i) == r + ReplaceAll(p, t, j)
  {
    j := i + MatchLen(p, ContextAt(t, i), t[i..]);
    r := Lead(p, ContextAt(t, i), t[i..]) + Placeholder(p);
    PassMatch(p, t, i, j, r);
    MatchStep(p, t, i, j);
  }

  lemma CopyBoth(p: Pattern, t: string, i: nat) returns (r: string, j: nat)
    requires p != Glued && i < |t| && MatchLen(p, ContextAt(t, i), t[i..]) == 0
    ensures i < j <= |t|
    ensures Pass(p, ContextAt(t, i), t[i..]) == r + Pass(p, ContextAt(t, j), t[j..])
    ensures ReplaceAll(p, t, i) == r + ReplaceAll(p, t, j)
  {
    CopiesOn(p, t, i);
    r, j := [t[i]], i + 1;
  }

  /** The pass and the scan write the same text and go on at the same place. */
  lemma SameStep(p: Pattern, t: string, i: nat) returns (r: string, j: nat)
    requires p != Glued && i < |t|
    ensures i < j <= |t|
    ensures Pass(p, ContextAt(t, i), t[i..]) == r + Pass(p, ContextAt(t, j), t[j..])
    ensures ReplaceAll(p, t, i) == r + ReplaceAll(p, t, j)
  {
    if MatchLen(p, ContextAt(t, i), t[i..]) > 0 {
      r, j := MatchBoth(p, t, i);
    } else {
      r, j := CopyBoth(p, t, i);
    }
  }

  lemma {:induction false} PassReplacesAll(p: Pattern, t: string, i: nat)
    requires p != Glued && i <= |t|
    ensures Pass(p, ContextAt(t, i), t[i..]) == ReplaceAll(p, t, i)
    decreases |t| - i
  {
    if i < |t| {
      var r, j := SameStep(p, t, i);
      PassReplacesAll(p, t, j);
    } else {
      CopiesOn(p, t, i);
    }
  }

  lemma StartMatches(t: string, i: int, j: int)
    requires MatchesAt(PHONE_AT_START, t, i, j)
    ensures i == 0 && BodyShape(t[..j]) && !WordAt(t, j)
  {
    var parts := PHONE_AT_START.parts;
    var c := SequenceCuts(parts, t, i, j);
    assert MatchesAt(parts[0], t, c[0], c[1]);
    assert MatchesAt(parts[1], t, c[1], c[2]);
    assert MatchesAt(parts[2], t, c[2], c[3]);
    assert MatchesAt(parts[3], t, c[3], c[4]);
    assert MatchesAt(parts[4], t, c[4], c[5]);
    BodyCut(t, c[1], c[2], c[3], j);
    BodyAre(t, 0, j, c[2]);
    assert t[0..j] == t[..j];
  }

  lemma StartBuilds(t: string, j: nat)
    requires j <= |t| && BodyShape(t[..j]) && !WordAt(t, j)
    ensures MatchesAt(PHONE_AT_START, t, 0, j)
  {
    var k :| 0 <= k <= j && BodySplit(t[..j], k);
    assert t[0..j] == t[..j];
    BodyAre(t, 0, j, k);
    var parts := PHONE_AT_START.parts;
    var c := [0, 0, k, k + 1, j, j];
    BodyParts(t, 0, j, k);
    assert MatchesAt(parts[0], t, c[0], c[1]);
    SequenceMatches(parts, t, c);
  }

  /** A phone number opens the text exactly when the first choice of the leading group matches. */
  lemma BodyIsStart(t: string, j: nat)
    requires 0 < j <= |t|
    ensures MatchesAt(PHONE_AT_START, t, 0, j) <==> BodyLen(t) == j
  {
    if MatchesAt(PHONE_AT_START, t, 0, j) {
      StartMatches(t, 0, j);
      BodyLenComplete(t, j);
    }
    if BodyLen(t) == j {
      BodyLenSound(t);
      StartBuilds(t, j);
    }
  }

  /** What a pass writes back of a match is what the leading group captured. */
  lemma LeadIsGroup(p: Pattern, t: string, i: nat)
    requires p != Glued && i <= |t| && MatchLen(p, ContextAt(t, i), t[i..]) > 0
    ensures Lead(p, ContextAt(t, i), t[i..]) + Placeholder(p)
         == Replacement(p, t, i, i + MatchLen(p, ContextAt(t, i), t[i..]))
  {
    var j := i + MatchLen(p, ContextAt(t, i), t[i..]);
    if p == Phone {
      if MatchesAt(PHONE_AT_START, t, i, j) {
        StartMatches(t, i, j);
      }
      if i == 0 {
        assert t[0..] == t;
        BodyIsStart(t, j);
      }
      assert t[i..][..1] == [t[i]];
    }
  }

  /** Redaction is the replacement of every match of the four expressions, one after the other. */
  lemma RedactReplacesAll(text: string)
    ensures var t1 := ReplaceAll(Pan, text, 0);
            var t2 := ReplaceAll(Phone, t1, 0);
            var t3 := ReplaceAll(Aadhaar, t2, 0);
            Redact(text) == ReplaceAll(Acct, t3, 0)
  {
    var t1 := Pass(Pan, Start, text);
    var t2 := Pass(Phone, Start, t1);
    var t3 := Pass(Aadhaar, Start, t2);
    assert text[0..] == text && t1[0..] == t1 && t2[0..] == t2 && t3[0..] == t3;
    PassReplacesAll(Pan, text, 0);
    PassReplacesAll(Phone, t1, 0);
    PassReplacesAll(Aadhaar, t2, 0);
    PassReplacesAll(Acct, t3, 0);
  }

  /** The phone, Aadhaar and account expressions match nowhere in a redacted text. */
  lemma RedactedMatchesNothing(text: string, p: Pattern, i: int, j: int)
    requires p in {Phone, Aadhaar, Acct}
    ensures !MatchesAt(Expression(p), Redact(text), i, j)
  {
    RedactClean(text);
    OccursIsRegex(p, Redact(text), i, j);
  }
}
