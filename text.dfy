/**
 * The string operations the log analyser relies on, restricted to ASCII:
 * the character classes of Python's `re` (`\s`, `\S`, `\d`, `\w`), `str.lower()`,
 * `str.strip()`, `str.split()`, `str.replace` on one character, `in` on strings,
 * `int()` and `str()` on decimal numbers, and the scanner for a search of the
 * shape `MARKER(CLS+)`.
 */
module Text {
  import opened Wrappers

  /** Python's whitespace on ASCII: space, \t \n \v \f \r and the separators 0x1c-0x1f. */
  predicate IsSpace(c: char) {
    c == ' ' || 9 <= c as int <= 13 || 28 <= c as int <= 31
  }

  predicate IsNonSpace(c: char) { !IsSpace(c) }

  predicate IsDigit(c: char) { '0' <= c <= '9' }

  predicate IsUpper(c: char) { 'A' <= c <= 'Z' }

  /** The class `\w`: letters, digits and underscore. */
  predicate IsWordChar(c: char) { 'a' <= c <= 'z' || IsUpper(c) || IsDigit(c) || c == '_' }

  predicate All(s: string, cls: char -> bool) {
    forall i :: 0 <= i < |s| ==> cls(s[i])
  }

  predicate IsPrefix(p: string, s: string) {
    |p| <= |s| && s[..|p|] == p
  }

  // ---------------------------------------------------------------- lower case

  function LowerChar(c: char): char {
    if IsUpper(c) then (c as int + 32) as char else c
  }

  /** `str.lower()` on ASCII. */
  function Lower(s: string): (r: string)
    ensures |r| == |s|
    ensures forall i :: 0 <= i < |s| ==> r[i] == LowerChar(s[i])
    ensures forall i :: 0 <= i < |r| ==> !IsUpper(r[i])
  {
    if s == [] then [] else [LowerChar(s[0])] + Lower(s[1..])
  }

  /** Every piece of a string without upper-case letters has none either. */
  lemma PieceOfLowerHasNoUpper(s: string, t: string, k: nat)
    requires forall i :: 0 <= i < |s| ==> !IsUpper(s[i])
    requires k + |t| <= |s| && s[k..k + |t|] == t
    ensures forall i :: 0 <= i < |t| ==> !IsUpper(t[i])
  {
    forall i | 0 <= i < |t| ensures !IsUpper(t[i]) {
      assert t[i] == s[k + i];
    }
  }

  // ---------------------------------------------------------------- runs

  /** The end of the maximal run of `cls` characters that starts at `i`. */
  function Run(s: string, i: nat, cls: char -> bool): (e: nat)
    requires i <= |s|
    ensures i <= e <= |s|
    ensures forall k :: i <= k < e ==> cls(s[k])
    ensures e == |s| || !cls(s[e])
    decreases |s| - i
  {
    if i < |s| && cls(s[i]) then Run(s, i + 1, cls) else i
  }

  /** A run is determined by where it stops. */
  lemma RunEndsAt(s: string, i: nat, n: nat, cls: char -> bool)
    requires i + n <= |s|
    requires forall k :: i <= k < i + n ==> cls(s[k])
    requires i + n == |s| || !cls(s[i + n])
    ensures Run(s, i, cls) == i + n
  {
  }

  // ---------------------------------------------------------------- substrings

  predicate OccursAt(s: string, sub: string, k: nat) {
    k + |sub| <= |s| && s[k..k + |sub|] == sub
  }

  /** Python's `sub in s`. */
  predicate Contains(s: string, sub: string) {
    exists k :: 0 <= k <= |s| - |sub| && OccursAt(s, sub, k)
  }

  // ---------------------------------------------------------------- `MARKER(CLS+)` search

  /** `marker` occurs at `k` and is followed by at least one character of `cls`. */
  predicate MarkerAt(s: string, marker: string, cls: char -> bool, k: nat) {
    k + |marker| < |s| && s[k..k + |marker|] == marker && cls(s[k + |marker|])
  }

  /** The first position at or after `i` where a search for `marker(cls+)` can match. */
  function MarkerFrom(s: string, marker: string, cls: char -> bool, i: nat): (r: Option<nat>)
    ensures r.Some? ==> i <= r.value && MarkerAt(s, marker, cls, r.value)
    ensures forall k :: i <= k && (r.None? || k < r.value) ==> !MarkerAt(s, marker, cls, k)
    decreases |s| - i
  {
    if i >= |s| then None
    else if MarkerAt(s, marker, cls, i) then Some(i)
    else MarkerFrom(s, marker, cls, i + 1)
  }

  /** `k` is the leftmost position holding `marker` followed by a `cls` character. */
  predicate LeftmostMarker(s: string, marker: string, cls: char -> bool, k: nat) {
    MarkerAt(s, marker, cls, k) && forall j :: 0 <= j < k ==> !MarkerAt(s, marker, cls, j)
  }

  /** `v` sits at `a` in `s`, consists of `cls` characters and cannot be extended. */
  predicate MaximalRunAt(s: string, a: nat, v: string, cls: char -> bool) {
    a + |v| <= |s| && s[a..a + |v|] == v && All(v, cls) && (a + |v| == |s| || !cls(s[a + |v|]))
  }

  /**
   * Group 1 of `re.search(marker + "(cls+)", s)`: the maximal run of `cls` characters
   * after the leftmost marker that has at least one; None when no marker has one.
   */
  function MarkerRun(s: string, marker: string, cls: char -> bool): (r: Option<string>)
    ensures r.None? <==> forall k :: !MarkerAt(s, marker, cls, k)
    ensures r.Some? ==> exists k: nat :: LeftmostMarker(s, marker, cls, k) && MaximalRunAt(s, k + |marker|, r.value, cls)
    ensures r.Some? ==> |r.value| > 0 && All(r.value, cls) && Contains(s, marker + r.value)
  {
    match MarkerFrom(s, marker, cls, 0)
    case None => None
    case Some(k) =>
      var a := k + |marker|;
      var e := Run(s, a, cls);
      var v := s[a..e];
      assert LeftmostMarker(s, marker, cls, k) && MaximalRunAt(s, a, v, cls);
      assert s[k..k + |marker + v|] == marker + v by {
        assert s[k..e] == s[k..a] + s[a..e];
      }
      assert OccursAt(s, marker + v, k);
      Some(v)
  }

  // ---------------------------------------------------------------- decimal numbers

  function DigitValue(c: char): nat
    requires IsDigit(c)
  {
    c as int - '0' as int
  }

  function DigitChar(d: nat): char
    requires d < 10
  {
    ('0' as int + d) as char
  }

  /** Python's `int(s)` on a non-empty string of ASCII digits. */
  function ParseDigits(s: string): nat
    requires |s| > 0 && All(s, IsDigit)
    decreases |s|
  {
    if |s| == 1 then DigitValue(s[0])
    else 10 * ParseDigits(s[..|s| - 1]) + DigitValue(s[|s| - 1])
  }

  /** A digit string without leading zeros, the form `str(n)` produces. */
  predicate Canonical(s: string) {
    |s| > 0 && All(s, IsDigit) && (s[0] != '0' || |s| == 1)
  }

  /** Python's `str(n)` for a natural number. */
  function NatToString(n: nat): (r: string)
    ensures Canonical(r)
    decreases n
  {
    if n < 10 then [DigitChar(n)]
    else
      var r := NatToString(n / 10) + [DigitChar(n % 10)];
      assert r[0] == NatToString(n / 10)[0];
      r
  }

  /** `int(str(n)) == n`. */
  lemma {:induction false} ParseNatToString(n: nat)
    ensures ParseDigits(NatToString(n)) == n
    decreases n
  {
    if n >= 10 {
      var s := NatToString(n);
      assert s[..|s| - 1] == NatToString(n / 10);
      ParseNatToString(n / 10);
    }
  }

  lemma {:induction false} ParseLeadingNonZero(s: string)
    requires |s| > 0 && All(s, IsDigit) && s[0] != '0'
    ensures ParseDigits(s) > 0
    decreases |s|
  {
    if |s| > 1 {
      ParseLeadingNonZero(s[..|s| - 1]);
    }
  }

  /** `str(int(s)) == s` for a digit string without leading zeros. */
  lemma {:induction false} NatToStringParse(s: string)
    requires Canonical(s)
    ensures NatToString(ParseDigits(s)) == s
    decreases |s|
  {
    if |s| > 1 {
      var init := s[..|s| - 1];
      ParseLeadingNonZero(init);
      NatToStringParse(init);
      var n := ParseDigits(s);
      assert n / 10 == ParseDigits(init) && n % 10 == DigitValue(s[|s| - 1]);
      assert s == init + [s[|s| - 1]];
    }
  }

  /** Leading zeros collapse: `int("0" + s) == int(s)`. */
  lemma {:induction false} ParseLeadingZero(s: string)
    requires |s| > 0 && All(s, IsDigit)
    ensures ParseDigits("0" + s) == ParseDigits(s)
    decreases |s|
  {
    var z := "0" + s;
    if |s| == 1 {
      assert z[..|z| - 1] == "0";
    } else {
      assert z[..|z| - 1] == "0" + s[..|s| - 1];
      ParseLeadingZero(s[..|s| - 1]);
    }
  }

  // ---------------------------------------------------------------- strip and split

  /** `s` with its leading whitespace dropped. */
  function StripStart(s: string): (r: string)
    ensures |r| <= |s| && r == s[|s| - |r|..]
    ensures All(s[..|s| - |r|], IsSpace)
    ensures r == [] || IsNonSpace(r[0])
    decreases |s|
  {
    if s != [] && IsSpace(s[0]) then StripStart(s[1..]) else s
  }

  /** `s` with its trailing whitespace dropped. */
  function StripEnd(s: string): (r: string)
    ensures |r| <= |s| && r == s[..|r|]
    ensures All(s[|r|..], IsSpace)
    ensures r == [] || IsNonSpace(r[|r| - 1])
    decreases |s|
  {
    if s != [] && IsSpace(s[|s| - 1]) then
      var r := StripEnd(s[..|s| - 1]);
      assert s[|r|..] == s[..|s| - 1][|r|..] + [s[|s| - 1]];
      r
    else s
  }

  /** `r` is the piece of `s` starting at `i` and everything around it is whitespace. */
  predicate StrippedAt(s: string, i: nat, r: string) {
    i + |r| <= |s| && s[i..i + |r|] == r && All(s[..i], IsSpace) && All(s[i + |r|..], IsSpace)
  }

  /** Dropping the leading, then the trailing whitespace leaves a piece with only whitespace around it. */
  lemma {:induction false} StripEnds(s: string, t: string, r: string)
    requires t == StripStart(s) && r == StripEnd(t)
    ensures StrippedAt(s, |s| - |t|, r)
  {
    var i := |s| - |t|;
    assert All(s[..i], IsSpace);
    SliceInSlice(s, i, t, r);
  }

  /** A prefix `r` of the suffix `t` of `s` at `i`, followed only by whitespace in `t`. */
  lemma {:induction false} SliceInSlice(s: string, i: nat, t: string, r: string)
    requires i <= |s| && t == s[i..] && |r| <= |t| && r == t[..|r|] && All(t[|r|..], IsSpace)
    ensures i + |r| <= |s| && s[i..i + |r|] == r && All(s[i + |r|..], IsSpace)
  {
    assert s[i + |r|..] == t[|r|..];
  }

  /** Python's `str.strip()`: the line without surrounding whitespace. */
  function Strip(s: string): (r: string)
    ensures r == [] || (IsNonSpace(r[0]) && IsNonSpace(r[|r| - 1]))
    ensures exists i :: StrippedAt(s, i, r)
  {
    var t := StripStart(s);
    var r := StripEnd(t);
    StripEnds(s, t, r);
    r
  }

  /** Python's `str.split()` with no separator: the maximal non-whitespace runs, in order. */
  function Split(s: string): (r: seq<string>)
    ensures forall k :: 0 <= k < |r| ==> |r[k]| > 0 && All(r[k], IsNonSpace)
    ensures r == [] <==> All(s, IsSpace)
    decreases |s|
  {
    if s == [] then []
    else if IsSpace(s[0]) then
      assert forall i :: 0 <= i < |s| - 1 ==> s[1..][i] == s[i + 1];
      Split(s[1..])
    else
      var e := Run(s, 0, IsNonSpace);
      [s[..e]] + Split(s[e..])
  }

  /** `words` laid between `gaps`: gaps[0] + words[0] + gaps[1] + ... + gaps[n]. */
  function Weave(gaps: seq<string>, words: seq<string>): string
    requires |gaps| == |words| + 1
    decreases |words|
  {
    if words == [] then gaps[0] else gaps[0] + words[0] + Weave(gaps[1..], words[1..])
  }

  /** Widening the first gap widens the woven string at its front. */
  lemma WeaveFront(x: string, gaps: seq<string>, words: seq<string>)
    requires |gaps| == |words| + 1
    ensures Weave([x + gaps[0]] + gaps[1..], words) == x + Weave(gaps, words)
  {
    var g := [x + gaps[0]] + gaps[1..];
    assert g[1..] == gaps[1..];
  }

  /**
   * `s` is `words`, in order, with whitespace `gaps` around them, and the gaps
   * between two words are not empty.
   */
  predicate WovenBy(s: string, words: seq<string>, gaps: seq<string>) {
    && |gaps| == |words| + 1
    && (forall k :: 0 <= k < |gaps| ==> All(gaps[k], IsSpace))
    && (forall k :: 0 < k < |words| ==> |gaps[k]| > 0)
    && s == Weave(gaps, words)
  }

  lemma WovenAfterSpace(c: char, x: string, words: seq<string>, g: seq<string>)
    requires IsSpace(c) && WovenBy(x, words, g)
    ensures WovenBy([c] + x, words, [[c] + g[0]] + g[1..])
  {
    WeaveFront([c], g, words);
    assert All([c] + g[0], IsSpace) by {
      assert All(g[0], IsSpace);
    }
  }

  lemma WovenAfterWord(w: string, rest: string, words: seq<string>, g: seq<string>)
    requires |w| > 0 && All(w, IsNonSpace)
    requires rest == [] || IsSpace(rest[0])
    requires forall k :: 0 <= k < |words| ==> |words[k]| > 0 && All(words[k], IsNonSpace)
    requires WovenBy(rest, words, g)
    ensures WovenBy(w + rest, [w] + words, [[]] + g)
  {
    var gaps := [[]] + g;
    var ws := [w] + words;
    assert gaps[1..] == g && ws[1..] == words;
  }

  /**
   * The pieces of `split()` are all that is not whitespace: the string is its
   * pieces, in order, with whitespace gaps around them, and the gaps between
   * two pieces are not empty. With the pieces non-empty and whitespace-free,
   * this leaves only one possible result.
   */
  lemma {:induction false} SplitGaps(s: string) returns (gaps: seq<string>)
    ensures WovenBy(s, Split(s), gaps)
    decreases |s|
  {
    if s == [] {
      gaps := [[]];
    } else if IsSpace(s[0]) {
      var g := SplitGaps(s[1..]);
      WovenAfterSpace(s[0], s[1..], Split(s[1..]), g);
      assert [s[0]] + s[1..] == s;
      gaps := [[s[0]] + g[0]] + g[1..];
    } else {
      var e := Run(s, 0, IsNonSpace);
      var g := SplitGaps(s[e..]);
      WovenAfterWord(s[..e], s[e..], Split(s[e..]), g);
      assert s[..e] + s[e..] == s;
      gaps := [[]] + g;
    }
  }

  lemma SplitCons(t: string, rest: string)
    requires |t| > 0 && All(t, IsNonSpace)
    requires rest == [] || IsSpace(rest[0])
    ensures Split(t + rest) == [t] + Split(rest)
  {
    var s := t + rest;
    RunEndsAt(s, 0, |t|, IsNonSpace);
    assert s[..|t|] == t && s[|t|..] == rest;
  }

  lemma SplitSpace(x: string)
    ensures Split(" " + x) == Split(x)
  {
    assert (" " + x)[1..] == x;
  }

  lemma SplitOne(c: string)
    requires |c| > 0 && All(c, IsNonSpace)
    ensures Split(c) == [c]
  {
    SplitCons(c, []);
    assert c + [] == c;
  }

  lemma SplitTwo(b: string, c: string)
    requires |b| > 0 && All(b, IsNonSpace)
    requires |c| > 0 && All(c, IsNonSpace)
    ensures Split(b + (" " + c)) == [b, c]
  {
    SplitOne(c);
    SplitSpace(c);
    SplitCons(b, " " + c);
  }

  /** Splitting three words joined by single spaces gives the three words back. */
  lemma SplitThree(a: string, b: string, c: string)
    requires |a| > 0 && All(a, IsNonSpace)
    requires |b| > 0 && All(b, IsNonSpace)
    requires |c| > 0 && All(c, IsNonSpace)
    ensures Split(a + (" " + (b + (" " + c)))) == [a, b, c]
  {
    var bc := b + (" " + c);
    SplitTwo(b, c);
    SplitSpace(bc);
    SplitCons(a, " " + bc);
  }

  // ---------------------------------------------------------------- replace

  /** `s.replace(from, to)` for single characters. */
  function ReplaceChar(s: string, from: char, to: char): (r: string)
    ensures |r| == |s|
    ensures forall i :: 0 <= i < |s| ==> r[i] == if s[i] == from then to else s[i]
  {
    if s == [] then [] else [if s[0] == from then to else s[0]] + ReplaceChar(s[1..], from, to)
  }
}
