/**
 The redactor's four regular expressions, over text as a sequence of characters.
 A pattern is matched at a suffix of the text together with what precedes it, since
 word boundaries and the start-of-text anchor look at the previous character only.
 */
module PiiPatterns {

  datatype Context = Start | After(c: char)

  /** Glued is not one of the redactor's own: a PAN directly followed by a phone number. */
  datatype Pattern = Pan | Phone | Aadhaar | Acct | Glued

  predicate IsDigit(c: char) { '0' <= c <= '9' }

  predicate IsUpper(c: char) { 'A' <= c <= 'Z' }

  predicate IsWord(c: char) { IsDigit(c) || IsUpper(c) || 'a' <= c <= 'z' || c == '_' }

  /** The class \s: tab, line feed, form feed, carriage return, space. */
  predicate IsSpace(c: char) { c as int in {9, 10, 12, 13, 32} }

  predicate WordBefore(prev: Context) { prev.After? && IsWord(prev.c) }

  /** A word boundary right after a word character. */
  predicate EndsWord(rest: string) { rest == [] || !IsWord(rest[0]) }

  predicate Digits(s: string, n: nat) {
    n <= |s| && forall k :: 0 <= k < n ==> IsDigit(s[k])
  }

  // ---- the expressions, declaratively -------------------------------------------

  /** [A-Z]{5}[0-9]{4}[A-Z] */
  predicate PanShape(m: string) {
    && |m| == 10
    && (forall k :: 0 <= k < 5 ==> IsUpper(m[k]))
    && (forall k :: 5 <= k < 9 ==> IsDigit(m[k]))
    && IsUpper(m[9])
  }

  /** \d{4}\s?\d{4}\s?\d{4} */
  ghost predicate AadhaarShape(m: string) {
    exists a, b :: AadhaarSplit(m, a, b)
  }

  ghost predicate AadhaarSplit(m: string, a: string, b: string) {
    && Gap(a) && Gap(b) && |m| == 12 + |a| + |b|
    && Digits(m, 4)
    && m[4..4 + |a|] == a
    && Digits(m[4 + |a|..], 4)
    && m[8 + |a|..8 + |a| + |b|] == b
    && Digits(m[8 + |a| + |b|..], 4)
  }

  predicate Gap(g: string) { g == [] || (|g| == 1 && IsSpace(g[0])) }

  /** [6-9]\d{9} */
  predicate MobileShape(m: string) {
    |m| == 10 && '6' <= m[0] <= '9' && Digits(m, 10)
  }

  /** \+?91[\s\-]? */
  predicate CountryCode(m: string) {
    || CountryDigits(m)
    || (|m| > 0 && m[0] == '+' && CountryDigits(m[1..]))
  }

  predicate CountryDigits(m: string) {
    && 2 <= |m| <= 3 && m[..2] == "91"
    && (|m| == 3 ==> IsSpace(m[2]) || m[2] == '-')
  }

  /** The phone expression without its leading group: optional country code, then ten digits. */
  ghost predicate BodyShape(m: string) {
    exists n :: 0 <= n <= |m| && BodySplit(m, n)
  }

  predicate BodySplit(m: string, n: nat)
    requires n <= |m|
  {
    (n == 0 || CountryCode(m[..n])) && MobileShape(m[n..])
  }

  /** The first n characters of s match the pattern, with its boundaries and anchors. */
  ghost predicate Matches(p: Pattern, prev: Context, s: string, n: nat) {
    && n <= |s|
    && match p
       case Pan => !WordBefore(prev) && PanShape(s[..n]) && EndsWord(s[n..])
       case Aadhaar => !WordBefore(prev) && AadhaarShape(s[..n]) && EndsWord(s[n..])
       case Acct => !WordBefore(prev) && 12 <= n <= 18 && Digits(s, n) && EndsWord(s[n..])
       case Phone =>
         && EndsWord(s[n..])
         && ((prev == Start && BodyShape(s[..n]))
             || (n > 0 && !IsDigit(s[0]) && BodyShape(s[1..n])))
       case Glued =>
         && !WordBefore(prev) && n > 10 && PanShape(s[..10])
         && IsDigit(s[10]) && BodyShape(s[10..n]) && EndsWord(s[n..])
  }

  // ---- the expressions, as a left-to-right matcher ------------------------------

  function DigitRun(s: string): (n: nat)
    ensures n <= |s| && Digits(s, n) && (n < |s| ==> !IsDigit(s[n]))
  {
    if s == [] || !IsDigit(s[0]) then 0 else 1 + DigitRun(s[1..])
  }

  /** Length of an optional space at position k. */
  function GapLen(s: string, k: nat): (g: nat)
    ensures g <= 1
  {
    if k < |s| && IsSpace(s[k]) then 1 else 0
  }

  function CodeLen(s: string): (n: nat)
    ensures n <= |s| && n <= 4
  {
    var a := if |s| > 0 && s[0] == '+' then 1 else 0;
    if |s| < a + 2 || s[a] != '9' || s[a + 1] != '1' then 0
    else if a + 2 < |s| && (IsSpace(s[a + 2]) || s[a + 2] == '-') then a + 3
    else a + 2
  }

  predicate MobileAt(s: string) {
    |s| >= 10 && MobileShape(s[..10]) && EndsWord(s[10..])
  }

  /** Length of the phone body at the start of s, zero when there is none. */
  function BodyLen(s: string): (n: nat)
    ensures n == 0 || 10 <= n <= |s|
  {
    if CodeLen(s) > 0 && MobileAt(s[CodeLen(s)..]) then CodeLen(s) + 10
    else if MobileAt(s) then 10
    else 0
  }

  function PanLen(s: string): (n: nat)
    ensures n == 0 || n == 10 <= |s|
  {
    if |s| >= 10 && PanShape(s[..10]) && EndsWord(s[10..]) then 10 else 0
  }

  function AadhaarLen(s: string): (n: nat)
    ensures n == 0 || 12 <= n <= |s|
  {
    var a := GapLen(s, 4);
    var b := GapLen(s, 8 + a);
    var n := 12 + a + b;
    if && n <= |s| && Digits(s, 4) && Digits(s[4 + a..], 4) && Digits(s[8 + a + b..], 4)
       && EndsWord(s[n..])
    then n else 0
  }

  function GluedLen(s: string): (n: nat)
    ensures n == 0 || 20 <= n <= |s|
  {
    if |s| > 10 && PanShape(s[..10]) && IsDigit(s[10]) && BodyLen(s[10..]) > 0
    then 10 + BodyLen(s[10..]) else 0
  }

  /** Length of the match at the start of s, zero when there is none. */
  function MatchLen(p: Pattern, prev: Context, s: string): (n: nat)
    ensures n == 0 || 10 <= n <= |s|
  {
    match p
    case Pan => if WordBefore(prev) then 0 else PanLen(s)
    case Aadhaar => if WordBefore(prev) then 0 else AadhaarLen(s)
    case Glued => if WordBefore(prev) then 0 else GluedLen(s)
    case Acct =>
      var n := DigitRun(s);
      if !WordBefore(prev) && 12 <= n <= 18 && EndsWord(s[n..]) then n else 0
    case Phone =>
      if prev == Start && BodyLen(s) > 0 then BodyLen(s)
      else if s != [] && !IsDigit(s[0]) && BodyLen(s[1..]) > 0 then 1 + BodyLen(s[1..])
      else 0
  }

  // ---- the matcher decides the expressions ----------------------------------------

  lemma BodyLenSound(s: string)
    requires BodyLen(s) > 0
    ensures BodyShape(s[..BodyLen(s)]) && EndsWord(s[BodyLen(s)..])
  {
    var c := if CodeLen(s) > 0 && MobileAt(s[CodeLen(s)..]) then CodeLen(s) else 0;
    var m := s[..BodyLen(s)];
    assert s[c..][..10] == m[c..] && s[c..][10..] == s[BodyLen(s)..];
    if c > 0 {
      assert m[..c] == s[..c];
      CodeLenSound(s);
    }
    assert BodySplit(m, c);
  }

  lemma CodeLenSound(s: string)
    requires CodeLen(s) > 0
    ensures CountryCode(s[..CodeLen(s)])
  {
    var m := s[..CodeLen(s)];
    if s[0] == '+' {
      assert m[1..][..2] == [s[1], s[2]] == "91";
      assert |m| == 4 ==> m[1..][2] == s[3];
    } else {
      assert m[..2] == [s[0], s[1]] == "91";
    }
  }

  lemma BodyLenComplete(s: string, n: nat)
    requires n <= |s| && BodyShape(s[..n]) && EndsWord(s[n..])
    ensures BodyLen(s) == n
  {
    var m := s[..n];
    var c :| 0 <= c <= |m| && BodySplit(m, c);
    assert s[c..][..10] == m[c..] && s[c..][10..] == s[n..];
    assert MobileAt(s[c..]);
    if c > 0 {
      assert m[..c] == s[..c];
      assert IsDigit(s[c]);
      CodeLenIs(s, c);
    } else {
      assert s[0..] == s;
      NoCodeBefore(s);
    }
  }

  /** Ten digits that end a word are not a country code followed by ten digits. */
  lemma NoCodeBefore(s: string)
    requires MobileAt(s)
    ensures CodeLen(s) == 0 || !MobileAt(s[CodeLen(s)..])
  {
    assert IsDigit(s[0]) && IsDigit(s[2]);
    if |s| >= 12 {
      assert s[2..][..10][8] == s[10] == s[10..][0];
    }
  }

  lemma CodeLenIs(s: string, c: nat)
    requires 0 < c < |s| && CountryCode(s[..c]) && IsDigit(s[c])
    ensures CodeLen(s) == c
  {
    var m := s[..c];
    if CountryDigits(m) {
      assert m[0] == m[..2][0] && m[1] == m[..2][1];
      assert s[0] == '9' && s[1] == '1';
    } else {
      var t := m[1..];
      assert t[0] == t[..2][0] && t[1] == t[..2][1];
      assert s[1] == '9' && s[2] == '1';
    }
  }

  lemma AadhaarLenSound(s: string)
    requires AadhaarLen(s) > 0
    ensures AadhaarShape(s[..AadhaarLen(s)])
  {
    var a, b := GapLen(s, 4), GapLen(s, 8 + GapLen(s, 4));
    var n := AadhaarLen(s);
    var m := s[..n];
    SliceDigits(s, n, 4 + a);
    SliceDigits(s, n, 8 + a + b);
    assert AadhaarSplit(m, m[4..4 + a], m[8 + a..8 + a + b]);
  }

  lemma LaterBodySound(s: string, i: nat)
    requires i <= |s| && BodyLen(s[i..]) > 0
    ensures var n := i + BodyLen(s[i..]); n <= |s| && BodyShape(s[i..n]) && EndsWord(s[n..])
  {
    BodyLenSound(s[i..]);
    var n := i + BodyLen(s[i..]);
    assert s[i..][..n - i] == s[i..n] && s[i..][n - i..] == s[n..];
  }

  lemma MatchLenSound(p: Pattern, prev: Context, s: string)
    requires MatchLen(p, prev, s) > 0
    ensures Matches(p, prev, s, MatchLen(p, prev, s))
  {
    match p {
      case Pan =>
      case Acct =>
      case Aadhaar => AadhaarLenSound(s);
      case Phone =>
        if prev == Start && BodyLen(s) > 0 {
          BodyLenSound(s);
        } else {
          LaterBodySound(s, 1);
        }
      case Glued => LaterBodySound(s, 10);
    }
  }

  lemma MatchLenComplete(p: Pattern, prev: Context, s: string, n: nat)
    requires Matches(p, prev, s, n)
    ensures MatchLen(p, prev, s) == n && n > 0
  {
    match p {
      case Pan =>
      case Acct =>
        assert n < |s| ==> !IsDigit(s[n]);
        assert DigitRun(s) == n;
      case Aadhaar =>
        var m := s[..n];
        var a, b :| AadhaarSplit(m, a, b);
        AadhaarLenIs(s, n, a, b);
      case Phone =>
        if prev == Start && BodyShape(s[..n]) {
          BodyLenComplete(s, n);
        } else {
          assert s[1..][..n - 1] == s[1..n] && s[1..][n - 1..] == s[n..];
          BodyLenComplete(s[1..], n - 1);
          if prev == Start && BodyLen(s) > 0 {
            PlusBody(s);
          }
        }
      case Glued =>
        assert s[10..][..n - 10] == s[10..n] && s[10..][n - 10..] == s[n..];
        BodyLenComplete(s[10..], n - 10);
    }
  }

  /** With or without its plus sign a phone number ends at the same place. */
  lemma PlusBody(s: string)
    requires BodyLen(s) > 0 && !IsDigit(s[0]) && BodyLen(s[1..]) > 0
    ensures BodyLen(s) == 1 + BodyLen(s[1..])
  {
    assert !MobileAt(s) && s[0] == '+';
    assert CodeLen(s[1..]) == CodeLen(s) - 1;
    assert s[1..][CodeLen(s) - 1..] == s[CodeLen(s)..];
  }

  lemma AadhaarLenIs(s: string, n: nat, a: string, b: string)
    requires n <= |s| && AadhaarSplit(s[..n], a, b) && EndsWord(s[n..])
    ensures AadhaarLen(s) == n
  {
    var m := s[..n];
    var i, j := 4 + |a|, 8 + |a| + |b|;
    SliceDigits(s, n, 0);
    SliceDigits(s, n, i);
    SliceDigits(s, n, j);
    assert s[0..] == s && m[0..] == m;
    assert IsDigit(s[i..][0]) && IsDigit(s[j..][0]);
    assert |a| == 1 ==> s[4] == m[4..5][0] == a[0];
    assert |b| == 1 ==> s[8 + |a|] == m[8 + |a|..9 + |a|][0] == b[0];
    assert GapLen(s, 4) == |a| && GapLen(s, 8 + |a|) == |b|;
  }

  lemma SliceDigits(s: string, n: nat, i: nat)
    requires i + 4 <= n <= |s|
    ensures Digits(s[..n][i..], 4) <==> Digits(s[i..], 4)
  {
    assert forall k :: 0 <= k < 4 ==> s[..n][i..][k] == s[i..][k];
  }
}
