/**
 The redactor: four leftmost, non-overlapping replacement passes, and what can still
 be found in the text they leave behind.
 */
module PiiRedactor {
  import opened PiiPatterns

  function Placeholder(p: Pattern): (s: string)
    ensures |s| > 2 && s[0] == '[' && s[|s| - 1] == ']'
    ensures forall k :: 0 < k < |s| - 1 ==> IsUpper(s[k]) || s[k] == '_'
  {
    match p
    case Pan => "[REDACTED_PAN]"
    case Phone => "[REDACTED_PHONE]"
    case Aadhaar => "[REDACTED_AADHAAR]"
    case Acct => "[REDACTED_ACCT]"
    case Glued => "[_]"
  }

  /** Characters of a match that the replacement writes back: the phone's leading group. */
  function Lead(p: Pattern, prev: Context, s: string): (l: string)
    ensures |l| <= 1 && (l != [] ==> s != [] && l == s[..1])
  {
    if p == Phone && s != [] && !(prev == Start && BodyLen(s) > 0) then s[..1] else []
  }

  /** Replace every match of p, scanning left to right from context prev. */
  function Pass(p: Pattern, prev: Context, s: string): string
    decreases |s|
  {
    var n := MatchLen(p, prev, s);
    if n > 0 then Lead(p, prev, s) + Placeholder(p) + Pass(p, After(s[n - 1]), s[n..])
    else if s == [] then []
    else [s[0]] + Pass(p, After(s[0]), s[1..])
  }

  function Redact(text: string): string {
    var t := Pass(Pan, Start, text);
    var t := Pass(Phone, Start, t);
    var t := Pass(Aadhaar, Start, t);
    Pass(Acct, Start, t)
  }

  /** No match of p starts anywhere in s. */
  predicate Free(p: Pattern, prev: Context, s: string)
    decreases |s|
  {
    MatchLen(p, prev, s) == 0 && (s == [] || Free(p, After(s[0]), s[1..]))
  }

  function ContextAt(t: string, i: nat): Context
    requires i <= |t|
  {
    if i == 0 then Start else After(t[i - 1])
  }

  /** Some substring t[i..j] matches p in its place in the text. */
  ghost predicate Occurs(p: Pattern, t: string) {
    exists i, j :: OccursAt(p, t, i, j)
  }

  ghost predicate OccursAt(p: Pattern, t: string, i: int, j: int) {
    0 <= i <= j <= |t| && Matches(p, ContextAt(t, i), t[i..], j - i)
  }

  lemma FreeAt(p: Pattern, t: string, i: nat)
    requires i <= |t| && Free(p, Start, t)
    ensures MatchLen(p, ContextAt(t, i), t[i..]) == 0
  {
    if i == 0 {
      assert t[0..] == t;
    } else {
      FreeSuffix(p, Start, t, i);
    }
  }

  lemma {:induction false} FreeFrom(p: Pattern, t: string, k: nat)
    requires k <= |t|
    requires forall i :: k <= i <= |t| ==> MatchLen(p, ContextAt(t, i), t[i..]) == 0
    ensures Free(p, ContextAt(t, k), t[k..])
    decreases |t| - k
  {
    if k < |t| {
      FreeFrom(p, t, k + 1);
      assert t[k..][1..] == t[k + 1..];
    }
  }

  lemma OccurrenceIsMatch(p: Pattern, t: string, i: int, j: int)
    requires OccursAt(p, t, i, j)
    ensures MatchLen(p, ContextAt(t, i), t[i..]) > 0
  {
    MatchLenComplete(p, ContextAt(t, i), t[i..], j - i);
  }

  lemma FreeHasNoOccurrence(p: Pattern, t: string)
    requires Free(p, Start, t)
    ensures !Occurs(p, t)
  {
    if Occurs(p, t) {
      var i, j :| OccursAt(p, t, i, j);
      OccurrenceIsMatch(p, t, i, j);
      FreeAt(p, t, i);
      assert false;
    }
  }

  lemma NoMatchAt(p: Pattern, t: string, i: nat)
    requires i <= |t|
    ensures MatchLen(p, ContextAt(t, i), t[i..]) == 0 || Occurs(p, t)
  {
    var n := MatchLen(p, ContextAt(t, i), t[i..]);
    if n > 0 {
      MatchLenSound(p, ContextAt(t, i), t[i..]);
      assert OccursAt(p, t, i, i + n);
    }
  }

  lemma NoOccurrenceIsFree(p: Pattern, t: string)
    requires !Occurs(p, t)
    ensures Free(p, Start, t)
  {
    forall i | 0 <= i <= |t| ensures MatchLen(p, ContextAt(t, i), t[i..]) == 0 {
      NoMatchAt(p, t, i);
    }
    FreeFrom(p, t, 0);
    assert t[0..] == t;
  }

  /** Scanning for a match from the start finds one exactly when some substring matches. */
  lemma FreeIffNoOccurrence(p: Pattern, t: string)
    ensures Free(p, Start, t) <==> !Occurs(p, t)
  {
    if Free(p, Start, t) {
      FreeHasNoOccurrence(p, t);
    }
    if !Occurs(p, t) {
      NoOccurrenceIsFree(p, t);
    }
  }

  // ---- a match is local ----------------------------------------------------------

  /** Text that can be part of the tail of a match. */
  predicate Plain(s: string) {
    forall k :: 0 <= k < |s| ==> s[k] != '['
  }

  /** A match has no bracket after its first character, and every text pattern ends in a digit. */
  lemma MatchChars(p: Pattern, prev: Context, s: string)
    requires MatchLen(p, prev, s) > 0
    ensures var n := MatchLen(p, prev, s);
            && Plain(s[1..n])
            && (p != Phone ==> s[0] != '[')
            && (p != Pan ==> IsDigit(s[n - 1]))
            && (p == Pan ==> IsUpper(s[n - 1]))
            && EndsWord(s[n..])
  {
    match p {
      case Pan => PanLetters(s);
      case Acct => AcctChars(s);
      case Aadhaar => AadhaarChars(s);
      case Phone =>
        if !(prev == Start && BodyLen(s) > 0) {
          PhoneChars(s);
        } else {
          BodyChars(s);
        }
      case Glued =>
        GluedChars(s);
    }
  }

  lemma AcctChars(s: string)
    requires DigitRun(s) > 0
    ensures var n := DigitRun(s);
            Plain(s[..n]) && Plain(s[1..n]) && IsDigit(s[0]) && IsDigit(s[n - 1])
  {
  }

  lemma PhoneChars(s: string)
    requires s != [] && BodyLen(s[1..]) > 0
    ensures var n := 1 + BodyLen(s[1..]);
            Plain(s[1..n]) && IsDigit(s[n - 1]) && EndsWord(s[n..])
  {
    BodyChars(s[1..]);
    var n := 1 + BodyLen(s[1..]);
    assert s[1..][..n - 1] == s[1..n];
    assert s[1..][n - 1..] == s[n..];
    assert s[1..][n - 2] == s[n - 1];
  }

  lemma GluedChars(s: string)
    requires GluedLen(s) > 0
    ensures var n := GluedLen(s);
            Plain(s[..n]) && IsDigit(s[n - 1]) && EndsWord(s[n..])
  {
    var n := GluedLen(s);
    BodyChars(s[10..]);
    assert forall k :: 0 <= k < 10 ==> s[k] == s[..10][k];
    forall k | 10 <= k < n ensures s[k] != '[' {
      assert s[k] == s[10..][k - 10] == s[10..][..n - 10][k - 10];
    }
    assert s[n - 1] == s[10..][n - 11];
    assert s[10..][n - 10..] == s[n..];
  }

  lemma AadhaarChars(s: string)
    requires AadhaarLen(s) > 0
    ensures var n := AadhaarLen(s);
            Plain(s[..n]) && IsDigit(s[0]) && IsDigit(s[n - 1]) && EndsWord(s[n..])
  {
    var a := GapLen(s, 4);
    var b := GapLen(s, 8 + a);
    forall k | 0 <= k < 12 + a + b ensures s[k] != '[' {
      if 4 + a <= k < 8 + a {
        assert s[k] == s[4 + a..][k - 4 - a];
      } else if 8 + a + b <= k {
        assert s[k] == s[8 + a + b..][k - 8 - a - b];
      }
    }
    assert s[11 + a + b] == s[8 + a + b..][3];
  }

  lemma BodyChars(s: string)
    requires BodyLen(s) > 0
    ensures var n := BodyLen(s);
            && Plain(s[..n]) && IsDigit(s[n - 1]) && EndsWord(s[n..])
            && (s[0] == '+' || IsDigit(s[0]))
            && (forall k :: 0 <= k < n ==> !IsUpper(s[k]))
  {
    var c := if CodeLen(s) > 0 && MobileAt(s[CodeLen(s)..]) then CodeLen(s) else 0;
    forall k | c <= k < c + 10 ensures IsDigit(s[k]) {
      assert s[k] == s[c..][..10][k - c];
    }
    assert s[c..][10..] == s[c + 10..];
  }

  /** A match survives in any text that agrees with it and ends a word at the same place. */
  lemma MatchLocal(p: Pattern, prev: Context, s: string, t: string)
    requires MatchLen(p, prev, s) > 0
    requires MatchLen(p, prev, s) <= |t| && s[..MatchLen(p, prev, s)] == t[..MatchLen(p, prev, s)]
    requires EndsWord(t[MatchLen(p, prev, s)..])
    ensures MatchLen(p, prev, t) > 0
  {
    var n := MatchLen(p, prev, s);
    MatchLenSound(p, prev, s);
    forall k | 0 <= k < n ensures s[k] == t[k] {
      assert s[k] == s[..n][k] == t[..n][k];
    }
    if n > 0 {
      assert s[1..n] == s[..n][1..] == t[..n][1..] == t[1..n];
    }
    if n > 10 {
      assert s[..10] == s[..n][..10] == t[..n][..10] == t[..10];
      assert s[10..n] == s[..n][10..] == t[..n][10..] == t[10..n];
    }
    MatchLenComplete(p, prev, t, n);
  }

  /** How the output context may differ from the input context after a replacement. */
  predicate Compatible(prev: Context, prev': Context, s: string) {
    prev == prev' || (prev.After? && prev'.After? && !IsWord(prev'.c) && EndsWord(s))
  }

  lemma CompatibleMatch(q: Pattern, prev: Context, prev': Context, s: string)
    requires Compatible(prev, prev', s)
    ensures MatchLen(q, prev', s) > 0 ==> MatchLen(q, prev, s) > 0
    ensures MatchLen(q, prev, s) > 0 ==> MatchLen(q, prev', s) > 0
  {
    if prev != prev' && q != Phone {
      if s != [] {
        assert PanLen(s) > 0 ==> s[0] == s[..10][0];
        assert GluedLen(s) > 0 ==> s[0] == s[..10][0];
      }
    }
  }

  // ---- the output copies the input up to the next placeholder ---------------------

  /**
   The output's first n characters are a copy of the input. What follows them is the
   rest of the pass, or a placeholder when the last copied character led a phone number.
   */
  predicate CopiedTo(p: Pattern, s: string, out: string, n: nat, tail: string) {
    && n <= |s| && n <= |out| && out[..n] == s[..n]
    && (out[n..] == tail || LedPhone(p, s, out, n))
  }

  /** What the pass makes of the input from position n on. */
  function Tail(p: Pattern, prev: Context, s: string, n: nat): string
    requires n <= |s|
  {
    Pass(p, if n == 0 then prev else After(s[n - 1]), s[n..])
  }

  predicate LedPhone(p: Pattern, s: string, out: string, n: nat) {
    && p == Phone && 0 < n < |s| && n < |out|
    && !IsDigit(s[n - 1]) && BodyLen(s[n..]) > 0 && out[n] == '['
  }

  /** A bracket-free start of the output is a copy of the input. */
  lemma {:induction false} Copied(p: Pattern, prev: Context, s: string, n: nat)
    requires n <= |Pass(p, prev, s)| && Plain(Pass(p, prev, s)[..n])
    ensures n <= |s| && CopiedTo(p, s, Pass(p, prev, s), n, Tail(p, prev, s, n))
    decreases n
  {
    var out := Pass(p, prev, s);
    if n == 0 {
      assert out[0..] == out && s[0..] == s;
    } else if MatchLen(p, prev, s) > 0 {
      CopiedLead(p, prev, s, n);
    } else {
      var rest := Pass(p, After(s[0]), s[1..]);
      assert out == [s[0]] + rest;
      assert rest[..n - 1] == out[..n][1..];
      Copied(p, After(s[0]), s[1..], n - 1);
      CopiedCons(p, prev, s, out, rest, n);
    }
  }

  lemma CopiedCons(p: Pattern, prev: Context, s: string, out: string, rest: string, n: nat)
    requires 0 < n <= |s| && out == [s[0]] + rest
    requires CopiedTo(p, s[1..], rest, n - 1, Tail(p, After(s[0]), s[1..], n - 1))
    ensures CopiedTo(p, s, out, n, Tail(p, prev, s, n))
  {
  }

  lemma CopiedLead(p: Pattern, prev: Context, s: string, n: nat)
    requires MatchLen(p, prev, s) > 0 && 0 < n <= |Pass(p, prev, s)|
    requires Plain(Pass(p, prev, s)[..n])
    ensures n <= |s| && CopiedTo(p, s, Pass(p, prev, s), n, Tail(p, prev, s, n))
  {
    var out := Pass(p, prev, s);
    var lead := Lead(p, prev, s);
    assert forall k :: 0 <= k < n ==> out[k] == out[..n][k];
    assert out[..n][0] != '[';
    assert lead != [] && out[0] == s[0] && out[1] == '[';
    assert n == 1;
  }

  lemma CopiedStepExact(s: string, rest: string, m: nat)
    requires 0 < m <= |s| && m - 1 <= |rest| && rest[..m - 1] == s[1..][..m - 1]
    ensures ([s[0]] + rest)[..m] == s[..m]
    ensures ([s[0]] + rest)[m..] == rest[m - 1..]
    ensures s[1..][m - 1..] == s[m..] && (m > 1 ==> s[1..][m - 2] == s[m - 1])
  {
    assert [s[0]] + s[1..][..m - 1] == s[..m];
  }

  /** A word that ends in the output after a digit ended in the input too. */
  lemma WordEndCopied(p: Pattern, d: char, s: string)
    requires IsWord(d) && EndsWord(Pass(p, After(d), s))
    ensures EndsWord(s)
  {
  }

  /** A bracket-free start of a pass that ends in a word character is a copy, and ends a word where the input does. */
  lemma CopiedWord(p: Pattern, prev: Context, s: string, n: nat)
    requires MatchLen(p, prev, s) == 0 && 1 < n <= |Pass(p, prev, s)|
    requires Plain(Pass(p, prev, s)[1..n]) && IsWord(Pass(p, prev, s)[n - 1])
    requires p == Phone ==> IsDigit(Pass(p, prev, s)[n - 1])
    requires EndsWord(Pass(p, prev, s)[n..])
    ensures n <= |s| && Pass(p, prev, s)[..n] == s[..n] && EndsWord(s[n..])
  {
    assert s != [];
    assert Pass(p, prev, s) == [s[0]] + Pass(p, After(s[0]), s[1..]);
    CopiedRest(p, s, Pass(p, prev, s), Pass(p, After(s[0]), s[1..]), n);
  }

  lemma CopiedRest(p: Pattern, s: string, out: string, rest: string, n: nat)
    requires s != [] && rest == Pass(p, After(s[0]), s[1..]) && out == [s[0]] + rest && 1 < n <= |out|
    requires Plain(out[1..n]) && IsWord(out[n - 1]) && (p == Phone ==> IsDigit(out[n - 1])) && EndsWord(out[n..])
    ensures n <= |s| && out[..n] == s[..n] && EndsWord(s[n..])
  {
    assert rest[..n - 1] == out[1..n];
    Copied(p, After(s[0]), s[1..], n - 1);
    WordAfterCopy(p, s, out, rest, n);
  }

  lemma WordAfterCopy(p: Pattern, s: string, out: string, rest: string, n: nat)
    requires s != [] && out == [s[0]] + rest && 1 < n <= |out|
    requires n <= |s| && CopiedTo(p, s[1..], rest, n - 1, Tail(p, After(s[0]), s[1..], n - 1))
    requires IsWord(out[n - 1]) && (p == Phone ==> IsDigit(out[n - 1])) && EndsWord(out[n..])
    ensures out[..n] == s[..n] && EndsWord(s[n..])
  {
    CopyShift(s, out, rest, n);
    assert rest[n - 1..] == out[n..];
    WordEndCopied(p, s[n - 1], s[n..]);
  }

  lemma CopyShift(s: string, out: string, rest: string, n: nat)
    requires s != [] && out == [s[0]] + rest && 1 < n <= |s| && n <= |out|
    requires rest[..n - 1] == s[1..][..n - 1]
    ensures out[..n] == s[..n] && out[n - 1] == s[n - 1]
    ensures s[1..][n - 2] == s[n - 1] && s[1..][n - 1..] == s[n..]
  {
    assert out[..n] == [s[0]] + rest[..n - 1] == [s[0]] + s[1..][..n - 1] == s[..n];
    assert out[n - 1] == out[..n][n - 1];
  }

  /** A match of q at the start of a pass is a match of q at the start of its input. */
  lemma MatchCopied(p: Pattern, q: Pattern, prev: Context, prev': Context, s: string)
    requires !(p == Phone && q == Pan) && MatchLen(p, prev, s) == 0
    requires MatchLen(q, prev', Pass(p, prev, s)) > 0
    ensures MatchLen(q, prev', s) > 0
  {
    var out := Pass(p, prev, s);
    MatchChars(q, prev', out);
    CopiedWord(p, prev, s, MatchLen(q, prev', out));
    MatchLocal(q, prev', out, s);
  }

  /** Nothing of q starts inside a placeholder or at the lead written back before it. */
  lemma {:induction false} PlaceholderFree(q: Pattern, prev: Context, h: string, rest: string)
    requires h != [] && h[|h| - 1] == ']'
    requires forall k :: 0 <= k < |h| ==> !IsDigit(h[k])
    requires forall k :: 0 < k < |h| ==> h[k] != '+'
    requires |h| > 1 ==> !(h[0] == '+' && h[1] == '9')
    requires Free(q, After(']'), rest)
    requires q == Phone ==> BodyLen(rest) == 0
    ensures Free(q, prev, h + rest)
    decreases |h|
  {
    var t := h + rest;
    assert t[1..] == h[1..] + rest;
    if q == Phone {
      NoBody(t);
      NoBody(t[1..]);
    } else if q == Pan || q == Glued {
      NoPanAt(h, rest);
    }
    assert t[0] == h[0] && !IsDigit(t[0]);
    assert MatchLen(q, prev, t) == 0;
    if |h| > 1 {
      PlaceholderFree(q, After(h[0]), h[1..], rest);
    } else {
      assert h[1..] + rest == rest;
    }
  }

  lemma NoPanAt(h: string, rest: string)
    requires h != [] && h[|h| - 1] == ']'
    requires forall k :: 0 <= k < |h| ==> !IsDigit(h[k])
    ensures var t := h + rest; |t| >= 10 ==> !PanShape(t[..10])
  {
    var t := h + rest;
    if |t| >= 10 {
      if |h| > 5 {
        assert t[..10][5] == h[5];
      } else {
        assert t[..10][|h| - 1] == h[|h| - 1];
      }
    }
  }

  lemma NoBody(t: string)
    ensures BodyLen(t) > 0 ==> IsDigit(t[0]) || (t[0] == '+' && |t| > 1 && t[1] == '9')
  {
    if BodyLen(t) > 0 {
      BodyChars(t);
    }
  }

  lemma {:induction false} FreeSuffix(q: Pattern, prev: Context, s: string, n: nat)
    requires 0 < n <= |s| && Free(q, prev, s)
    ensures Free(q, After(s[n - 1]), s[n..])
    decreases n
  {
    if n > 1 {
      FreeSuffix(q, After(s[0]), s[1..], n - 1);
      assert s[1..][n - 1..] == s[n..] && s[1..][n - 2] == s[n - 1];
    }
  }

  /** A phone body right after a replacement would itself have been found with its plus as lead. */
  lemma NoBodyAfterMatch(p: Pattern, d: char, s: string)
    requires IsWord(d) && EndsWord(s)
    requires Free(Phone, After(']'), Pass(p, After(d), s))
    ensures BodyLen(Pass(p, After(d), s)) == 0
  {
    var out := Pass(p, After(d), s);
    assert MatchLen(Phone, After(']'), out) == 0;
    NoBody(out);
    if BodyLen(out) > 0 {
      PlusBody(out);
      assert false;
    }
  }

  lemma PlusBody(s: string)
    requires BodyLen(s) > 0 && !IsDigit(s[0])
    ensures BodyLen(s[1..]) > 0
  {
    var t := s[1..];
    NoBody(s);
    assert s[0] == s[..10][0];
    var c := CodeLen(s);
    assert s[c..] == t[c - 1..];
    assert CodeLen(t) == c - 1;
  }

  /**
   A pass of p leaves no match of q, if q is p's own pattern or had no match before.
   A match begins and ends at a word boundary, so a replacement leaves every
   neighbouring boundary where it was; only the phone's lead can be a letter, and a
   PAN ending in that letter is what Glued describes.
   */
  lemma {:induction false} PassClean(p: Pattern, q: Pattern, prev: Context, prev': Context, s: string)
    requires p != Glued
    requires p == q || Free(q, prev, s)
    requires p == Phone && q == Pan ==> Free(Glued, prev, s)
    requires Compatible(prev, prev', s)
    ensures Free(q, prev', Pass(p, prev, s))
    decreases |s|
  {
    var n := MatchLen(p, prev, s);
    if n > 0 {
      MatchChars(p, prev, s);
      if p != q {
        FreeSuffix(q, prev, s, n);
      }
      if p == Phone && q == Pan {
        FreeSuffix(Glued, prev, s, n);
      }
      PassClean(p, q, After(s[n - 1]), After(']'), s[n..]);
      ReplacedClean(p, q, prev, prev', s);
    } else {
      NoneAtStart(p, q, prev, prev', s);
      if s != [] {
        PassClean(p, q, After(s[0]), After(s[0]), s[1..]);
        FreeCons(q, prev', s[0], Pass(p, After(s[0]), s[1..]));
      }
    }
  }

  lemma FreeCons(q: Pattern, prev: Context, c: char, rest: string)
    requires MatchLen(q, prev, [c] + rest) == 0 && Free(q, After(c), rest)
    ensures Free(q, prev, [c] + rest)
  {
    assert ([c] + rest)[1..] == rest;
  }

  lemma ReplacedClean(p: Pattern, q: Pattern, prev: Context, prev': Context, s: string)
    requires p != Glued && MatchLen(p, prev, s) > 0
    requires var n := MatchLen(p, prev, s); Free(q, After(']'), Pass(p, After(s[n - 1]), s[n..]))
    ensures Free(q, prev', Pass(p, prev, s))
  {
    var n := MatchLen(p, prev, s);
    MatchChars(p, prev, s);
    var rest := Pass(p, After(s[n - 1]), s[n..]);
    if q == Phone {
      NoBodyAfterMatch(p, s[n - 1], s[n..]);
    }
    LeadPlain(p, prev, s);
    PlaceholderFree(q, prev', Lead(p, prev, s) + Placeholder(p), rest);
    assert Pass(p, prev, s) == Lead(p, prev, s) + Placeholder(p) + rest;
  }

  lemma NoneAtStart(p: Pattern, q: Pattern, prev: Context, prev': Context, s: string)
    requires p == q || MatchLen(q, prev, s) == 0
    requires p == Phone && q == Pan ==> MatchLen(Glued, prev, s) == 0
    requires Compatible(prev, prev', s) && MatchLen(p, prev, s) == 0
    ensures MatchLen(q, prev', Pass(p, prev, s)) == 0
  {
    CompatibleMatch(q, prev, prev', s);
    if MatchLen(q, prev', Pass(p, prev, s)) > 0 {
      if p == Phone && q == Pan {
        PanBeforeLead(prev, prev', s);
      } else {
        MatchCopied(p, q, prev, prev', s);
      }
      assert false;
    }
  }

  /** A PAN at the start of a phone pass was a PAN before, or was glued to a phone number. */
  lemma PanBeforeLead(prev: Context, prev': Context, s: string)
    requires MatchLen(Phone, prev, s) == 0 && Compatible(prev, prev', s)
    requires MatchLen(Pan, prev', Pass(Phone, prev, s)) > 0
    ensures MatchLen(Pan, prev, s) > 0 || MatchLen(Glued, prev, s) > 0
  {
    PanOrGluedBefore(prev, prev', s);
    CompatibleMatch(Pan, prev, prev', s);
    CompatibleMatch(Glued, prev, prev', s);
  }

  lemma PanOrGluedBefore(prev: Context, prev': Context, s: string)
    requires MatchLen(Phone, prev, s) == 0
    requires MatchLen(Pan, prev', Pass(Phone, prev, s)) > 0
    ensures MatchLen(Pan, prev', s) > 0 || MatchLen(Glued, prev', s) > 0
  {
    var out := Pass(Phone, prev, s);
    MatchChars(Pan, prev', out);
    var rest := Pass(Phone, After(s[0]), s[1..]);
    assert out == [s[0]] + rest;
    assert rest[..9] == out[1..10];
    Copied(Phone, After(s[0]), s[1..], 9);
    PanInCopy(prev', s, out, rest);
  }

  lemma PanInCopy(prev': Context, s: string, out: string, rest: string)
    requires s != [] && out == [s[0]] + rest && MatchLen(Pan, prev', out) > 0
    requires 9 <= |s[1..]| && CopiedTo(Phone, s[1..], rest, 9, Tail(Phone, After(s[0]), s[1..], 9))
    ensures MatchLen(Pan, prev', s) > 0 || MatchLen(Glued, prev', s) > 0
  {
    MatchChars(Pan, prev', out);
    assert rest[9..] == out[10..];
    CopyShift(s, out, rest, 10);
    if LedPhone(Phone, s[1..], rest, 9) {
      NoBody(s[10..]);
    } else {
      WordEndCopied(Phone, s[9], s[10..]);
    }
  }

  lemma LeadPlain(p: Pattern, prev: Context, s: string)
    requires MatchLen(p, prev, s) > 0
    ensures forall k :: 0 <= k < |Lead(p, prev, s)| ==> !IsDigit(Lead(p, prev, s)[k])
    ensures var h := Lead(p, prev, s) + Placeholder(p);
            && h[|h| - 1] == ']'
            && (forall k :: 0 <= k < |h| ==> !IsDigit(h[k]))
            && (forall k :: 0 < k < |h| ==> h[k] != '+')
            && h[1] != '9'
  {
    var lead, h := Lead(p, prev, s), Lead(p, prev, s) + Placeholder(p);
    assert forall k :: 0 <= k < |h| ==> h[k] == if k < |lead| then lead[k] else Placeholder(p)[k - |lead|];
  }

  /** No substring of the redacted text is a phone, Aadhaar or account number, for every input. */
  lemma RedactClean(text: string)
    ensures !Occurs(Phone, Redact(text))
    ensures !Occurs(Aadhaar, Redact(text))
    ensures !Occurs(Acct, Redact(text))
  {
    var t1 := Pass(Pan, Start, text);
    var t2 := Pass(Phone, Start, t1);
    var t3 := Pass(Aadhaar, Start, t2);
    PassClean(Phone, Phone, Start, Start, t1);
    PassClean(Aadhaar, Phone, Start, Start, t2);
    PassClean(Aadhaar, Aadhaar, Start, Start, t2);
    PassClean(Acct, Phone, Start, Start, t3);
    PassClean(Acct, Aadhaar, Start, Start, t3);
    PassClean(Acct, Acct, Start, Start, t3);
    FreeIffNoOccurrence(Phone, Redact(text));
    FreeIffNoOccurrence(Aadhaar, Redact(text));
    FreeIffNoOccurrence(Acct, Redact(text));
  }

  // ---- when a PAN survives ----------------------------------------------------------

  /** Without a match in its first m characters, a pass copies them. */
  lemma {:induction false} CopyForward(p: Pattern, prev: Context, s: string, m: nat)
    requires m <= |s|
    requires forall i :: 0 <= i < m ==> MatchLen(p, if i == 0 then prev else After(s[i - 1]), s[i..]) == 0
    ensures var out := Pass(p, prev, s);
            && m <= |out| && out[..m] == s[..m]
            && out[m..] == Pass(p, if m == 0 then prev else After(s[m - 1]), s[m..])
    decreases m
  {
    assert s[0..] == s;
    if m > 0 {
      forall i | 0 <= i < m - 1
        ensures MatchLen(p, if i == 0 then After(s[0]) else After(s[1..][i - 1]), s[1..][i..]) == 0
      {
        assert s[1..][i..] == s[i + 1..];
      }
      assert MatchLen(p, prev, s[0..]) == 0;
      CopyForward(p, After(s[0]), s[1..], m - 1);
      var rest := Pass(p, After(s[0]), s[1..]);
      CopiedStepExact(s, rest, m);
    }
  }

  /** The letters of a PAN are not in any other match: where the two can meet at all. */
  lemma NoMatchInsidePan(p: Pattern, q: Pattern, prev: Context, s: string, i: nat)
    requires (p == Pan && q == Glued) || (p == Phone && q == Glued) || (p in {Aadhaar, Acct} && q == Pan)
    requires MatchLen(q, prev, s) > 0
    requires i < if p == Pan then MatchLen(q, prev, s) else if p == Phone then 9 else 10
    ensures MatchLen(p, if i == 0 then prev else After(s[i - 1]), s[i..]) == 0
  {
    PanLetters(s);
    if p == Phone {
      assert i + 1 <= 9;
      NoBodyOverLetter(s, i);
      NoBodyOverLetter(s, i + 1);
      assert s[i..][1..] == s[i + 1..];
    } else if p == Pan {
      if i == 0 {
        assert s[0..][10..] == s[10..];
      } else if i >= 10 {
        BodyChars(s[10..]);
        assert s[i] == s[10..][i - 10];
        assert |s[i..]| >= 10 ==> s[i..][..10][0] == s[i];
      }
    } else {
      assert s[i..][0] == s[i];
    }
  }

  lemma PanLetters(s: string)
    requires |s| >= 10 && PanShape(s[..10])
    ensures forall k :: 0 <= k < 10 ==> if 5 <= k < 9 then IsDigit(s[k]) else IsUpper(s[k])
  {
    assert forall k :: 0 <= k < 10 ==> s[k] == s[..10][k];
  }

  lemma NoBodyOverLetter(s: string, i: nat)
    requires i <= 9 < |s| && IsUpper(s[9])
    ensures BodyLen(s[i..]) == 0
  {
    assert s[9] == s[i..][9 - i];
    if BodyLen(s[i..]) > 0 {
      BodyChars(s[i..]);
      assert false;
    }
  }

  /** A PAN, glued or not, that starts inside a match of p cannot be a match. */
  lemma NoPanInsideMatch(p: Pattern, q: Pattern, prev: Context, s: string, i: nat)
    requires (p == Pan && q == Glued) || (p == Phone && q == Glued) || (p in {Aadhaar, Acct} && q == Pan)
    requires i < MatchLen(p, prev, s)
    ensures MatchLen(q, if i == 0 then prev else After(s[i - 1]), s[i..]) == 0
  {
    assert |s[i..]| >= 10 ==> s[i..][..10][0] == s[i];
    if p == Pan {
      PanLetters(s);
      assert s[0..] == s;
    } else if i == 0 && p == Phone {
      assert s[0..] == s;
      NoBody(s);
      NoBody(s[1..]);
      assert |s| >= 10 ==> s[..10][1] == s[1] == s[1..][0];
    } else {
      MatchNotUpper(p, prev, s, i);
    }
  }

  lemma MatchNotUpper(p: Pattern, prev: Context, s: string, i: nat)
    requires p in {Phone, Aadhaar, Acct} && i < MatchLen(p, prev, s)
    requires p == Phone ==> i > 0
    ensures !IsUpper(s[i])
  {
    match p {
      case Acct =>
      case Aadhaar => AadhaarNotUpper(s, i);
      case Phone =>
        if prev == Start && BodyLen(s) > 0 {
          BodyChars(s);
        } else {
          BodyChars(s[1..]);
          assert s[i] == s[1..][i - 1];
        }
    }
  }

  lemma AadhaarNotUpper(s: string, i: nat)
    requires i < AadhaarLen(s)
    ensures !IsUpper(s[i])
  {
    var a := GapLen(s, 4);
    var b := GapLen(s, 8 + a);
    if 4 + a <= i < 8 + a {
      assert s[i] == s[4 + a..][i - 4 - a];
    } else if 8 + a + b <= i {
      assert s[i] == s[8 + a + b..][i - 8 - a - b];
    }
  }

  lemma {:induction false} NotFreeBeyond(q: Pattern, prev: Context, s: string, n: nat)
    requires 0 < n <= |s| && !Free(q, prev, s)
    requires forall i :: 0 <= i < n ==> MatchLen(q, if i == 0 then prev else After(s[i - 1]), s[i..]) == 0
    ensures !Free(q, After(s[n - 1]), s[n..])
    decreases n
  {
    assert s[0..] == s;
    assert MatchLen(q, prev, s[0..]) == 0;
    if n > 1 {
      forall i | 0 <= i < n - 1
        ensures MatchLen(q, if i == 0 then After(s[0]) else After(s[1..][i - 1]), s[1..][i..]) == 0
      {
        assert s[1..][i..] == s[i + 1..];
      }
      NotFreeBeyond(q, After(s[0]), s[1..], n - 1);
      assert s[1..][n - 1..] == s[n..] && s[1..][n - 2] == s[n - 1];
    }
  }

  /** What a match of q becomes in the output of p. */
  function Left(p: Pattern, q: Pattern): Pattern {
    if p == Phone && q == Glued then Pan else q
  }

  lemma WordEndKept(p: Pattern, d: char, s: string)
    requires EndsWord(s)
    ensures EndsWord(Pass(p, After(d), s))
  {
  }

  /** A PAN that p does not replace is still a PAN at the start of the output. */
  lemma PanKept(p: Pattern, q: Pattern, prev: Context, prev': Context, s: string)
    requires (p == Pan && q == Glued) || (p == Phone && q == Glued) || (p in {Aadhaar, Acct} && q == Pan)
    requires MatchLen(p, prev, s) == 0 && MatchLen(q, prev, s) > 0 && Compatible(prev, prev', s)
    ensures MatchLen(Left(p, q), prev', Pass(p, prev, s)) > 0
  {
    CompatibleMatch(q, prev, prev', s);
    if p == Phone {
      GluedLeaks(prev, prev', s);
    } else {
      var m := MatchLen(q, prev, s);
      MatchChars(q, prev, s);
      PanCopied(p, q, prev, s, m);
      WordEndKept(p, s[m - 1], s[m..]);
      MatchLocal(q, prev', s, Pass(p, prev, s));
    }
  }

  lemma PanCopied(p: Pattern, q: Pattern, prev: Context, s: string, m: nat)
    requires (p == Pan && q == Glued) || (p == Phone && q == Glued) || (p in {Aadhaar, Acct} && q == Pan)
    requires MatchLen(q, prev, s) > 0 && 0 < m <= MatchLen(q, prev, s) && (p == Phone ==> m == 9)
    ensures var out := Pass(p, prev, s);
            m <= |out| && out[..m] == s[..m] && out[m..] == Pass(p, After(s[m - 1]), s[m..])
  {
    forall i | 0 <= i < m ensures MatchLen(p, if i == 0 then prev else After(s[i - 1]), s[i..]) == 0 {
      NoMatchInsidePan(p, q, prev, s, i);
    }
    CopyForward(p, prev, s, m);
  }

  lemma GluedLeaks(prev: Context, prev': Context, s: string)
    requires MatchLen(Glued, prev, s) > 0 && MatchLen(Glued, prev', s) > 0
    ensures MatchLen(Pan, prev', Pass(Phone, prev, s)) > 0
  {
    PanCopied(Phone, Glued, prev, s, 9);
    PanLetters(s);
    LetterLeads(prev, s);
    var out := Pass(Phone, prev, s);
    var at := Pass(Phone, After(s[8]), s[9..]);
    assert out == s[..9] + at;
    PanBeforeBracket(prev', s, at);
  }

  lemma PanBeforeBracket(prev: Context, s: string, at: string)
    requires |s| >= 10 && PanShape(s[..10]) && !WordBefore(prev)
    requires |at| > 1 && at[0] == s[9] && at[1] == '['
    ensures MatchLen(Pan, prev, s[..9] + at) > 0
  {
    var out := s[..9] + at;
    assert out[..10] == s[..10] && out[10..][0] == '[';
  }

  /** The last letter of a glued PAN is the lead of the phone number after it. */
  lemma LetterLeads(prev: Context, s: string)
    requires |s| > 10 && IsUpper(s[9]) && BodyLen(s[10..]) > 0
    ensures var at := Pass(Phone, After(s[8]), s[9..]); |at| > 1 && at[0] == s[9] && at[1] == '['
  {
    assert s[9..][1..] == s[10..] && s[9..][0] == s[9];
    assert MatchLen(Phone, After(s[8]), s[9..]) > 0;
  }

  /** A pass that cannot replace q keeps some occurrence of it. */
  lemma {:induction false} PassKeeps(p: Pattern, q: Pattern, prev: Context, prev': Context, s: string)
    requires (p == Pan && q == Glued) || (p == Phone && q == Glued) || (p in {Aadhaar, Acct} && q == Pan)
    requires !Free(q, prev, s) && Compatible(prev, prev', s)
    ensures !Free(Left(p, q), prev', Pass(p, prev, s))
    decreases |s|
  {
    var n := MatchLen(p, prev, s);
    var out := Pass(p, prev, s);
    if n > 0 {
      MatchChars(p, prev, s);
      forall i | 0 <= i < n ensures MatchLen(q, if i == 0 then prev else After(s[i - 1]), s[i..]) == 0 {
        NoPanInsideMatch(p, q, prev, s, i);
      }
      NotFreeBeyond(q, prev, s, n);
      PassKeeps(p, q, After(s[n - 1]), After(']'), s[n..]);
      var h := Lead(p, prev, s) + Placeholder(p);
      var rest := Pass(p, After(s[n - 1]), s[n..]);
      assert out == h + rest && out[|h|..] == rest && out[|h| - 1] == ']';
      if Free(Left(p, q), prev', out) {
        FreeSuffix(Left(p, q), prev', out, |h|);
        assert false;
      }
    } else if MatchLen(q, prev, s) > 0 {
      PanKept(p, q, prev, prev', s);
    } else {
      PassKeeps(p, q, After(s[0]), After(s[0]), s[1..]);
      assert out[1..] == Pass(p, After(s[0]), s[1..]);
    }
  }

  /**
   A PAN is left in the redacted text if and only if the input has a PAN directly
   followed by a phone number: the digit after it hides its word boundary from the
   first pass, and the second pass then uncovers it.
   */
  lemma PanSurvivesExactlyWhenGlued(text: string)
    ensures Occurs(Pan, Redact(text)) <==> Occurs(Glued, text)
  {
    var t1 := Pass(Pan, Start, text);
    var t2 := Pass(Phone, Start, t1);
    var t3 := Pass(Aadhaar, Start, t2);
    FreeIffNoOccurrence(Glued, text);
    FreeIffNoOccurrence(Pan, Redact(text));
    if Free(Glued, Start, text) {
      PassClean(Pan, Glued, Start, Start, text);
      PassClean(Pan, Pan, Start, Start, text);
      PassClean(Phone, Pan, Start, Start, t1);
      PassClean(Aadhaar, Pan, Start, Start, t2);
      PassClean(Acct, Pan, Start, Start, t3);
    } else {
      PassKeeps(Pan, Glued, Start, Start, text);
      PassKeeps(Phone, Glued, Start, Start, t1);
      PassKeeps(Aadhaar, Pan, Start, Start, t2);
      PassKeeps(Acct, Pan, Start, Start, t3);
    }
  }

  /** Such an input. */
  lemma GluedPanExample()
    ensures Occurs(Pan, Redact("ABCDE1234F9876543210"))
  {
    var t := "ABCDE1234F9876543210";
    assert BodySplit(t[10..20], 0);
    assert t[0..] == t;
    assert Matches(Glued, Start, t, 20);
    assert OccursAt(Glued, t, 0, 20);
    PanSurvivesExactlyWhenGlued(t);
  }

  lemma {:induction false} FreeIsUnchanged(p: Pattern, prev: Context, s: string)
    requires Free(p, prev, s)
    ensures Pass(p, prev, s) == s
    decreases |s|
  {
    if s != [] {
      FreeIsUnchanged(p, After(s[0]), s[1..]);
    }
  }

  /** Text without any of the four patterns is left as it is. */
  lemma CleanTextUnchanged(text: string)
    requires forall p :: p != Glued ==> !Occurs(p, text)
    ensures Redact(text) == text
  {
    forall p | p in {Pan, Phone, Aadhaar, Acct} ensures Free(p, Start, text) {
      FreeIffNoOccurrence(p, text);
    }
    FreeIsUnchanged(Pan, Start, text);
    FreeIsUnchanged(Phone, Start, text);
    FreeIsUnchanged(Aadhaar, Start, text);
    FreeIsUnchanged(Acct, Start, text);
  }

  /** A glued PAN contains a phone number led by the PAN's last letter. */
  lemma GluedHasPhone(text: string)
    requires Occurs(Glued, text)
    ensures Occurs(Phone, text)
  {
    var i, j :| OccursAt(Glued, text, i, j);
    var s := text[i..];
    PanLetters(s);
    assert text[i + 9..] == s[9..] && s[9..][0] == s[9];
    var t := text[i + 9..];
    assert t[1..j - i - 9] == s[10..j - i] && t[j - i - 9..] == s[j - i..];
    assert OccursAt(Phone, text, i + 9, j);
  }

  /** Redacting twice changes nothing more, if and only if no PAN was glued to a phone number. */
  lemma RedactTwice(text: string)
    ensures Redact(Redact(text)) == Redact(text) <==> !Occurs(Glued, text)
  {
    var r := Redact(text);
    RedactClean(text);
    PanSurvivesExactlyWhenGlued(text);
    if !Occurs(Pan, r) {
      CleanTextUnchanged(r);
    } else {
      if Occurs(Glued, r) {
        GluedHasPhone(r);
      }
      PanSurvivesExactlyWhenGlued(r);
    }
  }

  // ---- a text that is one identifier -------------------------------------------------

  lemma {:induction false} DigitsHaveNoPan(prev: Context, s: string)
    requires Digits(s, |s|)
    ensures Free(Pan, prev, s)
    decreases |s|
  {
    if |s| >= 10 {
      assert IsDigit(s[..10][0]);
    }
    if s != [] {
      DigitsHaveNoPan(After(s[0]), s[1..]);
    }
  }

  /** Within a run of digits nothing starts: no word boundary, and no character to lead a phone number. */
  lemma {:induction false} DigitsHaveNoLater(p: Pattern, c: char, s: string)
    requires p in {Phone, Aadhaar, Acct} && IsDigit(c) && Digits(s, |s|)
    ensures Free(p, After(c), s)
    decreases |s|
  {
    if s != [] {
      DigitsHaveNoLater(p, s[0], s[1..]);
    }
  }

  lemma DigitsMatchWhole(p: Pattern, s: string)
    requires s != [] && Digits(s, |s|) && MatchLen(p, Start, s) > 0 && p in {Phone, Aadhaar, Acct}
    ensures MatchLen(p, Start, s) == |s| && Pass(p, Start, s) == Placeholder(p)
  {
    var n := MatchLen(p, Start, s);
    MatchChars(p, Start, s);
    RunEnds(s, n);
    assert s[n..] == [];
    assert IsDigit(s[0]);
  }

  lemma TagIsUnchanged(p: Pattern, q: Pattern)
    ensures Pass(q, Start, Placeholder(p)) == Placeholder(p)
  {
    var h := Placeholder(p);
    assert h + [] == h;
    PlaceholderFree(q, Start, h, []);
    FreeIsUnchanged(q, Start, h);
  }

  lemma PanIsTagged(t: string)
    requires PanShape(t)
    ensures Pass(Pan, Start, t) == Placeholder(Pan)
  {
    assert t[..10] == t && t[10..] == [];
    assert MatchLen(Pan, Start, t) == 10;
  }

  lemma PhoneIsTagged(t: string)
    requires Digits(t, |t|) && BodyShape(t)
    ensures Pass(Phone, Start, Pass(Pan, Start, t)) == Placeholder(Phone)
  {
    DigitsHaveNoPan(Start, t);
    FreeIsUnchanged(Pan, Start, t);
    assert t[..|t|] == t && t[|t|..] == [];
    BodyLenComplete(t, |t|);
    DigitsMatchWhole(Phone, t);
  }

  lemma RunIsNoPhone(t: string)
    requires Digits(t, |t|) && 12 <= |t| <= 18 && (|t| == 12 ==> !BodyShape(t))
    ensures Pass(Phone, Start, Pass(Pan, Start, t)) == t
  {
    DigitsHaveNoPan(Start, t);
    FreeIsUnchanged(Pan, Start, t);
    NoPhoneInRun(t);
    DigitsHaveNoLater(Phone, t[0], t[1..]);
    FreeIsUnchanged(Phone, Start, t);
  }

  lemma AadhaarIsTagged(t: string)
    requires Digits(t, |t|) && |t| == 12
    ensures Pass(Aadhaar, Start, t) == Placeholder(Aadhaar)
  {
    assert DigitRun(t) == |t| && t[|t|..] == [];
    TwelveDigitsAreAadhaar(Start, t);
    DigitsMatchWhole(Aadhaar, t);
  }

  lemma AccountIsTagged(t: string)
    requires Digits(t, |t|) && 13 <= |t| <= 18
    ensures Pass(Acct, Start, Pass(Aadhaar, Start, t)) == Placeholder(Acct)
  {
    assert IsDigit(t[4]) && IsDigit(t[8]);
    RunGoesOn(t, 12);
    DigitsHaveNoLater(Aadhaar, t[0], t[1..]);
    FreeIsUnchanged(Aadhaar, Start, t);
    assert DigitRun(t) == |t| && t[|t|..] == [];
    DigitsMatchWhole(Acct, t);
  }

  /**
   A text that is one identifier and nothing else becomes the tag of that identifier: twelve
   digits are an Aadhaar number unless they are a phone number with its country code, and
   longer runs are account numbers.
   */
  lemma SingleIdentifierIsTagged(t: string)
    ensures PanShape(t) ==> Redact(t) == "[REDACTED_PAN]"
    ensures Digits(t, |t|) && BodyShape(t) ==> Redact(t) == "[REDACTED_PHONE]"
    ensures Digits(t, |t|) && |t| == 12 && !BodyShape(t) ==> Redact(t) == "[REDACTED_AADHAAR]"
    ensures Digits(t, |t|) && 13 <= |t| <= 18 ==> Redact(t) == "[REDACTED_ACCT]"
  {
    forall p, q | p != Glued ensures Pass(q, Start, Placeholder(p)) == Placeholder(p) {
      TagIsUnchanged(p, q);
    }
    if PanShape(t) {
      PanIsTagged(t);
    } else if Digits(t, |t|) {
      if BodyShape(t) {
        PhoneIsTagged(t);
      } else if |t| == 12 {
        RunIsNoPhone(t);
        AadhaarIsTagged(t);
      }
      if 13 <= |t| <= 18 {
        RunIsNoPhone(t);
        AccountIsTagged(t);
      }
    }
  }

  lemma RunGoesOn(t: string, n: nat)
    requires Digits(t, |t|) && n < |t|
    ensures !EndsWord(t[n..])
  {
    assert t[n..][0] == t[n];
  }

  lemma RunEnds(t: string, n: nat)
    requires Digits(t, |t|) && n <= |t| && EndsWord(t[n..])
    ensures n == |t|
  {
    if n < |t| {
      RunGoesOn(t, n);
      assert false;
    }
  }

  /** A phone number that begins a run of digits is the whole run, with its country code at most. */
  lemma BodyOfRun(t: string)
    requires Digits(t, |t|) && BodyLen(t) > 0
    ensures BodyShape(t) && |t| <= 12
  {
    BodyLenSound(t);
    RunEnds(t, BodyLen(t));
    assert t[..|t|] == t;
    assert IsDigit(t[0]) && IsDigit(t[2]);
  }

  lemma NoPhoneInRun(t: string)
    requires Digits(t, |t|) && 12 <= |t| && (|t| == 12 ==> !BodyShape(t))
    ensures MatchLen(Phone, Start, t) == 0
  {
    if BodyLen(t) > 0 {
      BodyOfRun(t);
      assert false;
    }
  }

  lemma TwelveDigitsAreAadhaar(prev: Context, s: string)
    requires MatchLen(Acct, prev, s) == 12
    ensures MatchLen(Aadhaar, prev, s) == 12
  {
    assert IsDigit(s[4]) && IsDigit(s[8]);
  }

  /** After the Aadhaar pass, only runs of 13 to 18 digits are left to the account sweep. */
  lemma AccountsAreLonger(prev: Context, s: string)
    requires Free(Aadhaar, prev, s) && MatchLen(Acct, prev, s) > 0
    ensures 13 <= MatchLen(Acct, prev, s) <= 18
  {
    if MatchLen(Acct, prev, s) == 12 {
      TwelveDigitsAreAadhaar(prev, s);
      assert false;
    }
  }
}
