/**
 The topic key of a chat memory: lower-case words joined by single underscores, cut at
 120 characters. Two statements supersede each other exactly when their keys are equal.
 */
module MemoryKeys {

  /** The two character tables of the standard library that the key depends on. */
  datatype Unicode = Unicode(lower: char -> char, space: char -> bool)

  const MAX_KEY := 120

  predicate IsWord(c: char) {
    'a' <= c <= 'z' || '0' <= c <= '9'
  }

  predicate IsBar(c: char) {
    c == '_'
  }

  predicate IsKeyChar(c: char) {
    IsWord(c) || IsBar(c)
  }

  /** Key characters are already lower case and no space; no space lower-cases to a letter. */
  ghost predicate Sane(u: Unicode) {
    && (forall c: char :: IsKeyChar(c) ==> u.lower(c) == c && !u.space(c))
    && (forall c: char :: u.space(c) ==> !IsWord(u.lower(c)))
  }

  // ---- the code's functions ---------------------------------------------------------

  function TrimLeft(s: string, p: char -> bool): string {
    if s != [] && p(s[0]) then TrimLeft(s[1..], p) else s
  }

  function TrimRight(s: string, p: char -> bool): string {
    if s != [] && p(s[|s| - 1]) then TrimRight(s[..|s| - 1], p) else s
  }

  function Trim(s: string, p: char -> bool): string {
    TrimRight(TrimLeft(s, p), p)
  }

  function Lower(s: string, f: char -> char): (r: string)
    ensures |r| == |s|
  {
    if s == [] then [] else [f(s[0])] + Lower(s[1..], f)
  }

  /** Every maximal run of other characters becomes one underscore, written at the end of the run. */
  function Squash(s: string): string {
    if s == [] then []
    else if IsWord(s[0]) then [s[0]] + Squash(s[1..])
    else if |s| > 1 && !IsWord(s[1]) then Squash(s[1..])
    else ['_'] + Squash(s[1..])
  }

  function Cut(key: string): string {
    if |key| > MAX_KEY then Trim(key[..MAX_KEY], IsBar) else key
  }

  function NormalizeKey(s: string, u: Unicode): string {
    Cut(Trim(Squash(Lower(Trim(s, u.space), u.lower)), IsBar))
  }

  // ---- what a key is ------------------------------------------------------------------

  ghost predicate KeyChars(s: string) {
    forall i :: 0 <= i < |s| ==> IsKeyChar(s[i])
  }

  ghost predicate NoDoubleBar(s: string) {
    forall i, j :: 0 <= i < j < |s| && j == i + 1 ==> !(IsBar(s[i]) && IsBar(s[j]))
  }

  ghost predicate NoOuterBar(s: string) {
    s != [] ==> !IsBar(s[0]) && !IsBar(s[|s| - 1])
  }

  ghost predicate IsKey(s: string) {
    KeyChars(s) && NoDoubleBar(s) && NoOuterBar(s) && |s| <= MAX_KEY
  }

  /** The maximal runs of word characters. */
  function Words(s: string): (ws: seq<string>)
    ensures s != [] && IsWord(s[0]) ==> ws != []
  {
    if s == [] then []
    else
      var rest := Words(s[1..]);
      if !IsWord(s[0]) then rest
      else if |s| > 1 && IsWord(s[1]) then [[s[0]] + rest[0]] + rest[1..]
      else [[s[0]]] + rest
  }

  function Join(ws: seq<string>): string {
    if ws == [] then []
    else if |ws| == 1 then ws[0]
    else ws[0] + ['_'] + Join(ws[1..])
  }

  /** The whole key of a text, before the cut. */
  function WholeKey(s: string, u: Unicode): string {
    Join(Words(Lower(s, u.lower)))
  }

  // ---- trimming --------------------------------------------------------------------------

  lemma {:induction false} TrimLeftShape(s: string, p: char -> bool)
    ensures var t := TrimLeft(s, p); |t| <= |s| && t == s[|s| - |t|..] && (t != [] ==> !p(t[0]))
    decreases |s|
  {
    if s != [] && p(s[0]) {
      TrimLeftShape(s[1..], p);
    }
  }

  lemma {:induction false} TrimRightShape(s: string, p: char -> bool)
    ensures var t := TrimRight(s, p); |t| <= |s| && t == s[..|t|] && (t != [] ==> !p(t[|t| - 1]))
    decreases |s|
  {
    if s != [] && p(s[|s| - 1]) {
      TrimRightShape(s[..|s| - 1], p);
    }
  }

  /** Nothing good is lost in a part of a string. */
  lemma PartIsGood(s: string, a: nat, b: nat)
    requires KeyChars(s) && NoDoubleBar(s) && a <= b <= |s|
    ensures KeyChars(s[a..b]) && NoDoubleBar(s[a..b])
  {
    var t := s[a..b];
    forall i, j | 0 <= i < j < |t| && j == i + 1 ensures !(IsBar(t[i]) && IsBar(t[j])) {
      assert t[i] == s[a + i] && t[j] == s[a + j];
    }
  }

  /** Trimming underscores keeps what is good about a string, and its ends become good too. */
  lemma TrimBars(s: string)
    requires KeyChars(s) && NoDoubleBar(s)
    ensures var t := Trim(s, IsBar); KeyChars(t) && NoDoubleBar(t) && NoOuterBar(t) && |t| <= |s|
  {
    TrimLeftShape(s, IsBar);
    var l := TrimLeft(s, IsBar);
    PartIsGood(s, |s| - |l|, |s|);
    TrimRightShape(l, IsBar);
    PartIsGood(l, 0, |TrimRight(l, IsBar)|);
  }

  // ---- words -----------------------------------------------------------------------------------

  lemma {:induction false} WordsDropLast(s: string, c: char)
    requires !IsWord(c)
    ensures Words(s + [c]) == Words(s)
    decreases |s|
  {
    if s == [] {
      assert (s + [c])[1..] == [];
    } else {
      assert (s + [c])[1..] == s[1..] + [c];
      WordsDropLast(s[1..], c);
    }
  }

  lemma {:induction false} WordsTrimLeft(s: string, p: char -> bool)
    requires forall c :: p(c) ==> !IsWord(c)
    ensures Words(TrimLeft(s, p)) == Words(s)
    decreases |s|
  {
    if s != [] && p(s[0]) {
      WordsTrimLeft(s[1..], p);
    }
  }

  lemma {:induction false} WordsTrimRight(s: string, p: char -> bool)
    requires forall c :: p(c) ==> !IsWord(c)
    ensures Words(TrimRight(s, p)) == Words(s)
    decreases |s|
  {
    if s != [] && p(s[|s| - 1]) {
      var front, c := s[..|s| - 1], s[|s| - 1];
      WordsTrimRight(front, p);
      WordsDropLast(front, c);
      assert s == front + [c];
    }
  }

  lemma WordsTrim(s: string, p: char -> bool)
    requires forall c :: p(c) ==> !IsWord(c)
    ensures Words(Trim(s, p)) == Words(s)
  {
    WordsTrimLeft(s, p);
    WordsTrimRight(TrimLeft(s, p), p);
  }

  lemma {:induction false} LowerAt(s: string, f: char -> char)
    ensures forall i :: 0 <= i < |s| ==> Lower(s, f)[i] == f(s[i])
    decreases |s|
  {
    if s != [] {
      LowerAt(s[1..], f);
    }
  }

  /** Trimming spaces before lower-casing loses no word. */
  lemma {:induction false} WordsLowerTrimLeft(s: string, u: Unicode)
    requires Sane(u)
    ensures Words(Lower(TrimLeft(s, u.space), u.lower)) == Words(Lower(s, u.lower))
    decreases |s|
  {
    if s != [] && u.space(s[0]) {
      WordsLowerTrimLeft(s[1..], u);
      assert Lower(s, u.lower)[1..] == Lower(s[1..], u.lower);
    }
  }

  lemma {:induction false} LowerSplit(s: string, t: string, f: char -> char)
    ensures Lower(s + t, f) == Lower(s, f) + Lower(t, f)
    decreases |s|
  {
    if s == [] {
      assert s + t == t;
    } else {
      assert (s + t)[1..] == s[1..] + t;
      LowerSplit(s[1..], t, f);
    }
  }

  lemma {:induction false} WordsLowerTrimRight(s: string, u: Unicode)
    requires Sane(u)
    ensures Words(Lower(TrimRight(s, u.space), u.lower)) == Words(Lower(s, u.lower))
    decreases |s|
  {
    if s != [] && u.space(s[|s| - 1]) {
      var front, c := s[..|s| - 1], s[|s| - 1];
      WordsLowerTrimRight(front, u);
      assert s == front + [c];
      LowerSplit(front, [c], u.lower);
      assert Lower([c], u.lower) == [u.lower(c)];
      WordsDropLast(Lower(front, u.lower), u.lower(c));
    }
  }

  // ---- squashing -----------------------------------------------------------------------------------

  lemma {:induction false} SquashIsClean(s: string)
    ensures KeyChars(Squash(s)) && NoDoubleBar(Squash(s))
    ensures s != [] ==> Squash(s) != [] && (IsBar(Squash(s)[0]) <==> !IsWord(s[0]))
    decreases |s|
  {
    if s != [] {
      SquashIsClean(s[1..]);
    }
  }

  lemma {:induction false} SquashKeepsWords(s: string)
    ensures Words(Squash(s)) == Words(s)
    decreases |s|
  {
    if s != [] {
      var rest := Squash(s[1..]);
      SquashKeepsWords(s[1..]);
      SquashIsClean(s[1..]);
      if IsWord(s[0]) {
        assert ([s[0]] + rest)[1..] == rest;
      } else if |s| == 1 || IsWord(s[1]) {
        assert (['_'] + rest)[1..] == rest;
      }
    }
  }

  lemma {:induction false} SquashNothing(s: string)
    requires KeyChars(s) && NoDoubleBar(s)
    ensures Squash(s) == s
    decreases |s|
  {
    if s != [] {
      assert IsKeyChar(s[0]);
      PartIsGood(s, 1, |s|);
      SquashNothing(s[1..]);
      assert s == [s[0]] + s[1..];
      if |s| > 1 {
        assert IsKeyChar(s[1]) && !(IsBar(s[0]) && IsBar(s[1]));
      }
    }
  }

  // ---- joining -----------------------------------------------------------------------------------------

  lemma JoinCons(c: char, ws: seq<string>)
    requires ws != []
    ensures Join([[c] + ws[0]] + ws[1..]) == [c] + Join(ws)
  {
    var more := [[c] + ws[0]] + ws[1..];
    assert more[1..] == ws[1..];
    if |ws| == 1 {
      assert more == [[c] + ws[0]];
    } else {
      assert [c] + (ws[0] + ['_'] + Join(ws[1..])) == ([c] + ws[0]) + ['_'] + Join(ws[1..]);
    }
  }

  ghost predicate Clean(s: string) {
    KeyChars(s) && NoDoubleBar(s) && NoOuterBar(s)
  }

  lemma CleanRest(s: string, n: nat)
    requires Clean(s) && n < |s| && !IsBar(s[n])
    ensures Clean(s[n..])
  {
    PartIsGood(s, n, |s|);
  }

  /** A clean string is its words joined by underscores. */
  lemma {:induction false} CleanIsJoined(s: string)
    requires Clean(s)
    ensures Join(Words(s)) == s
    decreases |s|
  {
    if |s| > 1 {
      assert IsKeyChar(s[0]) && IsKeyChar(s[1]);
      var c := s[0];
      if IsWord(s[1]) {
        CleanRest(s, 1);
        CleanIsJoined(s[1..]);
        JoinCons(c, Words(s[1..]));
        assert s == [c] + s[1..];
      } else {
        assert |s| > 2 && !IsBar(s[2]) by {
          assert IsBar(s[1]);
          if |s| > 2 {
            assert !(IsBar(s[1]) && IsBar(s[2]));
          }
        }
        assert IsKeyChar(s[2]);
        CleanRest(s, 2);
        CleanIsJoined(s[2..]);
        assert s[1..][1..] == s[2..];
        assert Words(s[1..]) == Words(s[2..]);
        var ws := [[c]] + Words(s[2..]);
        assert Words(s) == ws && ws[1..] == Words(s[2..]);
        assert s == [c] + ['_'] + s[2..];
      }
    } else if |s| == 1 {
      assert IsKeyChar(s[0]);
      assert Words(s[1..]) == [];
    }
  }

  lemma {:induction false} WordsEmpty(s: string)
    ensures Words(s) == [] <==> forall i :: 0 <= i < |s| ==> !IsWord(s[i])
    decreases |s|
  {
    if s != [] {
      WordsEmpty(s[1..]);
      forall i | 1 <= i < |s| ensures s[i] == s[1..][i - 1] {
      }
    }
  }

  // ---- the key -----------------------------------------------------------------------------------------

  /** Before the cut the key is clean, and it is the text's words joined by underscores. */
  lemma SquashedIsWholeKey(s: string, u: Unicode)
    requires Sane(u)
    ensures var k := Trim(Squash(Lower(Trim(s, u.space), u.lower)), IsBar);
            Clean(k) && k == WholeKey(s, u) && Words(k) == Words(Lower(s, u.lower))
  {
    var lowered := Lower(Trim(s, u.space), u.lower);
    WordsLowerTrimLeft(s, u);
    WordsLowerTrimRight(TrimLeft(s, u.space), u);
    SquashIsClean(lowered);
    SquashKeepsWords(lowered);
    TrimBars(Squash(lowered));
    WordsTrim(Squash(lowered), IsBar);
    CleanIsJoined(Trim(Squash(lowered), IsBar));
  }

  lemma CutIsClean(k: string)
    requires Clean(k)
    ensures IsKey(Cut(k))
  {
    if |k| > MAX_KEY {
      TrimBars(k[..MAX_KEY]);
    }
  }

  /** The key is the cut of the joined words, and always in normal form. */
  lemma KeyIsNormal(s: string, u: Unicode)
    requires Sane(u)
    ensures NormalizeKey(s, u) == Cut(WholeKey(s, u)) && IsKey(NormalizeKey(s, u))
  {
    SquashedIsWholeKey(s, u);
    CutIsClean(WholeKey(s, u));
  }

  /** Letters a-z, digits and single underscores between them, 120 characters at most. */
  ghost predicate IsNormalForm(k: string) {
    && |k| <= 120
    && (forall i :: 0 <= i < |k| ==> 'a' <= k[i] <= 'z' || '0' <= k[i] <= '9' || k[i] == '_')
    && (forall i, j :: 0 <= i < j < |k| && j == i + 1 ==> k[i] != '_' || k[j] != '_')
    && (k != [] ==> k[0] != '_' && k[|k| - 1] != '_')
  }

  /** Written out: the words joined, and of more than 120 characters the first 120 without underscores at their end. */
  lemma KeyWrittenOut(s: string, u: Unicode)
    requires Sane(u)
    ensures var k, whole := NormalizeKey(s, u), WholeKey(s, u);
            && IsNormalForm(k)
            && (|whole| <= 120 ==> k == whole)
            && (|whole| > 120 ==> k == whole[..|k|] && forall i :: |k| <= i < 120 ==> whole[i] == '_')
  {
    var whole := WholeKey(s, u);
    KeyIsNormal(s, u);
    NormalFormIsKey(NormalizeKey(s, u));
    SquashedIsWholeKey(s, u);
    if |whole| > MAX_KEY {
      assert !IsBar(whole[0]);
      assert TrimLeft(whole[..MAX_KEY], IsBar) == whole[..MAX_KEY];
      TrimRightRest(whole[..MAX_KEY], IsBar);
    }
  }

  lemma {:induction false} TrimRightRest(s: string, p: char -> bool)
    ensures var t := TrimRight(s, p); |t| <= |s| && t == s[..|t|] && forall i :: |t| <= i < |s| ==> p(s[i])
    decreases |s|
  {
    if s != [] && p(s[|s| - 1]) {
      TrimRightRest(s[..|s| - 1], p);
    }
  }

  lemma {:induction false} TrimLeftRest(s: string, p: char -> bool)
    ensures var t := TrimLeft(s, p);
            |t| <= |s| && t == s[|s| - |t|..] && forall i :: 0 <= i < |s| - |t| ==> p(s[i])
    decreases |s|
  {
    if s != [] && p(s[0]) {
      TrimLeftRest(s[1..], p);
      var t := TrimLeft(s[1..], p);
      forall i | 0 <= i < |s| - |t| ensures p(s[i]) {
        assert i > 0 ==> s[i] == s[1..][i - 1];
      }
    }
  }

  /** Trimming takes away characters at both ends, only such, and all of them. */
  ghost predicate IsTrimmed(s: string, p: char -> bool, t: string, a: nat) {
    && a + |t| <= |s| && t == s[a..a + |t|]
    && (forall i :: 0 <= i < a || a + |t| <= i < |s| ==> p(s[i]))
    && (t != [] ==> !p(t[0]) && !p(t[|t| - 1]))
  }

  lemma TrimIs(s: string, p: char -> bool) returns (a: nat)
    ensures IsTrimmed(s, p, Trim(s, p), a)
  {
    var l := TrimLeft(s, p);
    TrimLeftRest(s, p);
    a := |s| - |l|;
    TrimLeftShape(s, p);
    TrimRightRest(l, p);
    TrimRightShape(l, p);
    forall i | |s| - |l| + |TrimRight(l, p)| <= i < |s| ensures p(s[i]) {
      assert s[i] == l[i - (|s| - |l|)];
    }
  }

  /** The strings that normalization leaves alone are exactly the normal forms. */
  lemma FixedExactlyWhenNormal(s: string, u: Unicode)
    requires Sane(u)
    ensures NormalizeKey(s, u) == s <==> IsNormalForm(s)
  {
    NormalFormIsKey(s);
    KeyIsNormal(s, u);
    if IsKey(s) {
      if s != [] {
        assert IsKeyChar(s[0]) && IsKeyChar(s[|s| - 1]);
      }
      LowerAt(s, u.lower);
      forall i | 0 <= i < |s| ensures Lower(s, u.lower)[i] == s[i] {
        assert IsKeyChar(s[i]);
      }
      assert Lower(s, u.lower) == s;
      SquashNothing(s);
    }
  }

  lemma NormalFormIsKey(s: string)
    ensures IsNormalForm(s) <==> IsKey(s)
  {
    if IsNormalForm(s) {
      forall i | 0 <= i < |s| ensures IsKeyChar(s[i]) {
      }
    }
    if IsKey(s) {
      forall i | 0 <= i < |s| ensures 'a' <= s[i] <= 'z' || '0' <= s[i] <= '9' || s[i] == '_' {
        assert IsKeyChar(s[i]);
      }
    }
  }

  lemma KeyIsIdempotent(s: string, u: Unicode)
    requires Sane(u)
    ensures NormalizeKey(NormalizeKey(s, u), u) == NormalizeKey(s, u)
  {
    KeyIsNormal(s, u);
    NormalFormIsKey(NormalizeKey(s, u));
    FixedExactlyWhenNormal(NormalizeKey(s, u), u);
  }

  /**
   Texts with the same words have the same key; and while neither key is cut, texts with
   the same key have the same words.
   */
  lemma SameKeyExactly(s: string, t: string, u: Unicode)
    requires Sane(u)
    ensures Words(Lower(s, u.lower)) == Words(Lower(t, u.lower)) ==> NormalizeKey(s, u) == NormalizeKey(t, u)
    ensures |WholeKey(s, u)| <= 120 && |WholeKey(t, u)| <= 120
            ==> (NormalizeKey(s, u) == NormalizeKey(t, u)
                 <==> Words(Lower(s, u.lower)) == Words(Lower(t, u.lower)))
  {
    KeyIsNormal(s, u);
    KeyIsNormal(t, u);
    SquashedIsWholeKey(s, u);
    SquashedIsWholeKey(t, u);
  }

  /** Only texts without any letter a-z or digit have the empty key, and all of them have it. */
  lemma EmptyKeyExactly(s: string, u: Unicode)
    requires Sane(u)
    ensures NormalizeKey(s, u) == []
            <==> forall i :: 0 <= i < |s| ==> !('a' <= u.lower(s[i]) <= 'z' || '0' <= u.lower(s[i]) <= '9')
  {
    KeyIsNormal(s, u);
    SquashedIsWholeKey(s, u);
    var k := WholeKey(s, u);
    LowerAt(s, u.lower);
    WordsEmpty(Lower(s, u.lower));
    if |k| > MAX_KEY {
      assert IsKeyChar(k[0]) && !IsBar(k[0]);
      TrimKeepsGoodStart(k[..MAX_KEY]);
    }
    if k != [] {
      assert IsKeyChar(k[0]) && !IsBar(k[0]);
    }
  }

  lemma {:induction false} TrimKeepsGoodStart(s: string)
    requires s != [] && !IsBar(s[0])
    ensures Trim(s, IsBar) != []
    decreases |s|
  {
    if |s| > 1 && IsBar(s[|s| - 1]) {
      TrimKeepsGoodStart(s[..|s| - 1]);
    }
  }
}
