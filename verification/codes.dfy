/**
 * Code extraction: `parseCodes` and `CODE_RE` of smash_shift_helper.user.js.
 *
 * The pattern `\b(?:[A-Z0-9]{4,5}-){4}[A-Z0-9]{4,5}\b` with flags `ig` is
 * modelled as the backtracking matcher a JavaScript engine runs: each
 * `{4,5}` group first tries five characters and falls back to four, and
 * `\b` is a change between a `\w` and a non-`\w` character. `String.match`
 * with the `g` flag scans left to right and resumes after each match; the
 * matches are then de-duplicated through a `Set`, keeping first-seen order.
 *
 * `IsCode` is the grammar of a normalised code, stated independently of
 * the matcher; the lemmas below connect the two.
 */
module Codes {
  import opened Basics
  import opened Text

  const GroupCount: nat := 5

  /** A character of a normalised code group. */
  predicate IsCodeChar(c: char) { IsUpper(c) || IsDigit(c) }

  /** One group of a code: four or five upper-case letters or digits. */
  predicate IsGroup(g: string) {
    4 <= |g| <= 5 && forall i | 0 <= i < |g| :: IsCodeChar(g[i])
  }

  /** `c` is exactly `k` groups joined by single dashes. */
  predicate DashGroups(c: string, k: nat)
    decreases k
  {
    if k <= 1 then k == 1 && IsGroup(c)
    else
      || (|c| > 4 && c[4] == '-' && IsGroup(c[..4]) && DashGroups(c[5..], k - 1))
      || (|c| > 5 && c[5] == '-' && IsGroup(c[..5]) && DashGroups(c[6..], k - 1))
  }

  /** A normalised code: five dash-joined groups of four or five upper-case letters or digits. */
  predicate IsCode(c: string) { DashGroups(c, GroupCount) }

  // ---------------------------------------------------------------------------
  // The regular-expression matcher
  // ---------------------------------------------------------------------------

  /** The class `[A-Z0-9]` under the `i` flag, which also admits lower-case letters. */
  predicate InClass(c: char) { IsUpper(c) || IsLower(c) || IsDigit(c) }

  /** `n` characters of the class start at `i`. */
  predicate ClassRun(s: string, i: nat, n: nat) {
    i + n <= |s| && forall k | i <= k < i + n :: InClass(s[k])
  }

  /** `\b` at position `i` of `s`. */
  predicate Boundary(s: string, i: nat)
    requires i <= |s|
  {
    (0 < i && IsWordChar(s[i - 1])) != (i < |s| && IsWordChar(s[i]))
  }

  /**
   * Matches the last `k` groups of the pattern (each but the last followed
   * by `-`, the last by `\b`) from position `i`: the greedy five-character
   * alternative first, then the four-character one. Returns the end of the match.
   */
  function MatchGroups(s: string, i: nat, k: nat): (r: Option<nat>)
    requires 1 <= k && i <= |s|
    ensures r.Some? ==> i + 4 <= r.value <= |s|
    decreases k, 1
  {
    var longer := GroupThen(s, i, k, 5);
    if longer.Some? then longer else GroupThen(s, i, k, 4)
  }

  /** One group of exactly `n` characters at `i`, then the rest of the pattern. */
  function GroupThen(s: string, i: nat, k: nat, n: nat): (r: Option<nat>)
    requires 1 <= k && i <= |s| && 4 <= n
    ensures r.Some? ==> i + n <= r.value <= |s|
    decreases k, 0
  {
    if !ClassRun(s, i, n) then None
    else if k == 1 then (if Boundary(s, i + n) then Some(i + n) else None)
    else if i + n < |s| && s[i + n] == '-' then MatchGroups(s, i + n + 1, k - 1)
    else None
  }

  /** The whole pattern tried at position `i`: `\b`, then five groups. */
  function MatchAt(s: string, i: nat): (r: Option<nat>)
    requires i <= |s|
    ensures r.Some? ==> i < r.value <= |s|
  {
    if Boundary(s, i) then MatchGroups(s, i, GroupCount) else None
  }

  /** `String.prototype.match` with the `g` flag from position `i`: every match, left to right. */
  function Scan(s: string, i: nat): seq<string>
    requires i <= |s|
    decreases |s| - i
  {
    if i == |s| then []
    else
      match MatchAt(s, i)
      case Some(e) => [s[i..e]] + Scan(s, e)
      case None => Scan(s, i + 1)
  }

  /** The array `text.toUpperCase().match(CODE_RE) || []`. */
  function Matches(text: string): seq<string> {
    Scan(ToUpper(text), 0)
  }

  // ---------------------------------------------------------------------------
  // De-duplication through a Set
  // ---------------------------------------------------------------------------

  predicate NoDuplicates<T(==)>(xs: seq<T>) {
    forall i, j | 0 <= i < j < |xs| :: xs[i] != xs[j]
  }

  /** Position of the first occurrence of `x` in `xs`. */
  function FirstIndex<T(==)>(xs: seq<T>, x: T): (r: nat)
    requires x in xs
    ensures r < |xs| && xs[r] == x && x !in xs[..r]
  {
    if xs[0] == x then 0
    else
      var r := 1 + FirstIndex(xs[1..], x);
      assert xs[..r] == [xs[0]] + xs[1..][..r - 1];
      r
  }

  lemma FirstIndexUnique<T>(xs: seq<T>, x: T, k: nat)
    requires k < |xs| && xs[k] == x && x !in xs[..k]
    ensures FirstIndex(xs, x) == k
  {
  }

  /**
   * `[...new Set(xs)]`: each value once, in the order of its first
   * occurrence. Written as the Set's insertions one after another.
   */
  function Dedupe<T(==)>(xs: seq<T>): (r: seq<T>)
    ensures NoDuplicates(r)
    ensures forall x | x in r :: x in xs
    ensures forall x | x in xs :: x in r
    ensures forall i, j | 0 <= i < j < |r| :: FirstIndex(xs, r[i]) < FirstIndex(xs, r[j])
    decreases |xs|
  {
    if |xs| == 0 then []
    else
      var ys := xs[..|xs| - 1];
      var x := xs[|xs| - 1];
      var d := Dedupe(ys);
      assert xs == ys + [x];
      FirstIndexSnoc(ys, x);
      if x in d then d else d + [x]
  }

  /** Appending an element does not move any first occurrence, and a new element is first seen at the end. */
  lemma FirstIndexSnoc<T>(ys: seq<T>, x: T)
    ensures forall y | y in ys :: FirstIndex(ys + [x], y) == FirstIndex(ys, y)
    ensures x !in ys ==> FirstIndex(ys + [x], x) == |ys|
  {
    var xs := ys + [x];
    forall y | y in ys
      ensures FirstIndex(xs, y) == FirstIndex(ys, y)
    {
      var k := FirstIndex(ys, y);
      assert xs[..k] == ys[..k];
      FirstIndexUnique(xs, y, k);
    }
    if x !in ys {
      assert xs[..|ys|] == ys;
      FirstIndexUnique(xs, x, |ys|);
    }
  }

  /** `parseCodes`: the distinct matches of the upper-cased text, in first-seen order. */
  function ParseCodes(text: string): (r: seq<string>)
    ensures forall c | c in r :: IsCode(c)
    ensures NoDuplicates(r)
    ensures forall c :: c in r <==> c in Matches(text)
    ensures forall i, j | 0 <= i < j < |r| :: FirstIndex(Matches(text), r[i]) < FirstIndex(Matches(text), r[j])
    ensures r == [] <==> forall p | 0 <= p < |text| :: MatchAt(ToUpper(text), p).None?
  {
    ToUpperHasNoLower(text);
    ScanSound(ToUpper(text), 0);
    ScanEmpty(ToUpper(text), 0);
    Dedupe(Matches(text))
  }

  // ---------------------------------------------------------------------------
  // Matcher against grammar
  // ---------------------------------------------------------------------------

  lemma ClassRunIsGroup(s: string, i: nat, n: nat)
    requires ClassRun(s, i, n) && 4 <= n <= 5 && NoLower(s)
    ensures IsGroup(s[i..i + n])
  {
    var g := s[i..i + n];
    forall j | 0 <= j < |g|
      ensures IsCodeChar(g[j])
    {
      assert g[j] == s[i + j];
    }
  }

  /** Whatever the matcher accepts on upper-cased text is `k` dash-joined groups. */
  lemma {:induction false} MatchGroupsSound(s: string, i: nat, k: nat)
    requires 1 <= k && i <= |s| && NoLower(s)
    requires MatchGroups(s, i, k).Some?
    ensures DashGroups(s[i..MatchGroups(s, i, k).value], k)
    decreases k
  {
    var e := MatchGroups(s, i, k).value;
    var n := if GroupThen(s, i, k, 5).Some? then 5 else 4;
    assert GroupThen(s, i, k, n) == Some(e);
    ClassRunIsGroup(s, i, n);
    var c := s[i..e];
    if k > 1 {
      MatchGroupsSound(s, i + n + 1, k - 1);
      assert c[..n] == s[i..i + n];
      assert c[n] == '-';
      assert c[n + 1..] == s[i + n + 1..e];
    }
  }

  /** Code characters at `i` form a run of the pattern's character class. */
  lemma CodeCharsRun(s: string, i: nat, g: string)
    requires StartsAt(s, i, g)
    requires forall j | 0 <= j < |g| :: IsCodeChar(g[j])
    ensures ClassRun(s, i, |g|)
  {
    forall q | i <= q < i + |g|
      ensures InClass(s[q])
    {
      assert s[q] == s[i..i + |g|][q - i];
    }
  }

  /** The parts of a slice `s[i..e]` split at its position `n`. */
  lemma SliceParts(s: string, i: nat, e: nat, n: nat)
    requires i + n < e <= |s|
    ensures s[i..e][..n] == s[i..i + n]
    ensures s[i..e][n] == s[i + n]
    ensures s[i..e][n + 1..] == s[i + n + 1..e]
  {
  }

  /** The last group is matched with its length when a non-word character or the end follows it. */
  lemma LastGroupComplete(s: string, i: nat, e: nat)
    requires i <= e <= |s|
    requires IsGroup(s[i..e])
    requires e == |s| || !IsWordChar(s[e])
    ensures MatchGroups(s, i, 1) == Some(e)
  {
    var c := s[i..e];
    CodeCharsRun(s, i, c);
    assert s[e - 1] == c[|c| - 1];
    if |c| == 5 {
      assert GroupThen(s, i, 1, 5) == Some(e);
    } else {
      assert e < |s| ==> s[e] == s[i + 4];
      assert !ClassRun(s, i, 5);
      assert GroupThen(s, i, 1, 4) == Some(e);
    }
  }

  /** The matcher finds every run of `k` dash-joined groups that ends before a non-word character. */
  lemma {:induction false} MatchGroupsComplete(s: string, i: nat, e: nat, k: nat)
    requires 1 <= k && i <= e <= |s|
    requires DashGroups(s[i..e], k)
    requires e == |s| || !IsWordChar(s[e])
    ensures MatchGroups(s, i, k) == Some(e)
    decreases k
  {
    var c := s[i..e];
    if k == 1 {
      LastGroupComplete(s, i, e);
    } else {
      var short := |c| > 4 && c[4] == '-' && IsGroup(c[..4]) && DashGroups(c[5..], k - 1);
      var n := if short then 4 else 5;
      assert |c| > n && c[n] == '-' && IsGroup(c[..n]) && DashGroups(c[n + 1..], k - 1);
      SliceParts(s, i, e, n);
      CodeCharsRun(s, i, c[..n]);
      MatchGroupsComplete(s, i + n + 1, e, k - 1);
      assert GroupThen(s, i, k, n) == Some(e);
      if short {
        assert !ClassRun(s, i, 5);
      }
    }
  }

  /** A code standing between non-word characters (or the ends of the text) is matched at its start. */
  lemma MatchAtCode(s: string, i: nat, c: string)
    requires IsCode(c) && StartsAt(s, i, c)
    requires i == 0 || !IsWordChar(s[i - 1])
    requires i + |c| == |s| || !IsWordChar(s[i + |c|])
    ensures MatchAt(s, i) == Some(i + |c|)
  {
    MatchGroupsComplete(s, i, i + |c|, GroupCount);
    assert c[0] == s[i];
    assert IsGroup(c[..4]) || IsGroup(c[..5]);
    assert c[..4][0] == c[0] && c[..5][0] == c[0];
  }

  /** Every string the scan returns from upper-cased text is a code. */
  lemma {:induction false} ScanSound(s: string, i: nat)
    requires i <= |s| && NoLower(s)
    ensures forall c | c in Scan(s, i) :: IsCode(c)
    decreases |s| - i
  {
    if i < |s| {
      match MatchAt(s, i)
      case Some(e) =>
        MatchGroupsSound(s, i, GroupCount);
        ScanSound(s, e);
      case None =>
        ScanSound(s, i + 1);
    }
  }

  /** The scan finds nothing exactly when the pattern matches at no position. */
  lemma {:induction false} ScanEmpty(s: string, i: nat)
    requires i <= |s|
    ensures Scan(s, i) == [] <==> forall p | i <= p < |s| :: MatchAt(s, p).None?
    decreases |s| - i
  {
    if i < |s| {
      ScanEmpty(s, i + 1);
    }
  }

  /** Positions where the pattern cannot match are skipped without a trace. */
  lemma {:induction false} ScanSkip(s: string, i: nat, j: nat)
    requires i <= j <= |s|
    requires forall p | i <= p < j :: MatchAt(s, p).None?
    ensures Scan(s, i) == Scan(s, j)
    decreases j - i
  {
    if i < j {
      ScanSkip(s, i + 1, j);
    }
  }

  /** Shape of a code: length between 24 and 29 and no lower-case letter. */
  lemma {:induction false} DashGroupsShape(c: string, k: nat)
    requires DashGroups(c, k)
    ensures 5 * k - 1 <= |c| <= 6 * k - 1
    ensures NoLower(c)
    decreases k
  {
    if k > 1 {
      var n := if |c| > 4 && c[4] == '-' && IsGroup(c[..4]) && DashGroups(c[5..], k - 1) then 4 else 5;
      DashGroupsShape(c[n + 1..], k - 1);
      assert c == c[..n] + [c[n]] + c[n + 1..];
      assert forall j | 0 <= j < n :: c[j] == c[..n][j];
    }
  }

  lemma CodeShape(c: string)
    requires IsCode(c)
    ensures 24 <= |c| <= 29
    ensures ToUpper(c) == c
  {
    DashGroupsShape(c, GroupCount);
    ToUpperOfNoLower(c);
  }

  // ---------------------------------------------------------------------------
  // Extraction properties
  // ---------------------------------------------------------------------------

  lemma DedupeOneOrTwice<T>(x: T)
    ensures Dedupe([x]) == [x]
    ensures Dedupe([x, x]) == [x]
  {
    assert [x][..0] == [];
    assert [x, x][..1] == [x];
  }

  /** Text that upper-cases to a code yields exactly that code: extraction is case-insensitive. */
  lemma ParseWholeCode(text: string)
    requires IsCode(ToUpper(text))
    ensures ParseCodes(text) == [ToUpper(text)]
  {
    var s := ToUpper(text);
    MatchAtCode(s, 0, s);
    assert s[0..|s|] == s;
    assert Scan(s, 0) == [s] + Scan(s, |s|);
    assert Matches(text) == [s];
    DedupeOneOrTwice(s);
  }

  /** A code, a separator and the code again: the text is already upper-case. */
  lemma RepeatedCodeText(c: string)
    requires IsCode(c)
    ensures ToUpper(c + " " + c) == c + " " + c
  {
    DashGroupsShape(c, GroupCount);
    var t := c + " " + c;
    forall q | 0 <= q < |t|
      ensures !IsLower(t[q])
    {
      if q < |c| {
        assert t[q] == c[q];
      } else if q > |c| {
        assert t[q] == c[q - |c| - 1];
      }
    }
    ToUpperOfNoLower(t);
  }

  /** A code at the start of the text, followed by a space, is matched. */
  lemma CodeBeforeSpace(c: string, rest: string)
    requires IsCode(c)
    ensures MatchAt(c + " " + rest, 0) == Some(|c|)
  {
    var s := c + " " + rest;
    assert s[..|c|] == c;
    assert s[|c|] == ' ';
    MatchAtCode(s, 0, c);
  }

  /** A code at the end of the text, after a space, is matched. */
  lemma CodeAfterSpace(front: string, c: string)
    requires IsCode(c)
    ensures MatchAt(front + " " + c, |front| + 1) == Some(|front + " " + c|)
  {
    var s := front + " " + c;
    assert s[|front| + 1..] == c;
    assert s[|front|] == ' ';
    MatchAtCode(s, |front| + 1, c);
  }

  /** No match starts at a space. */
  lemma NoMatchAtSpace(s: string, i: nat)
    requires i < |s| && s[i] == ' '
    ensures MatchAt(s, i).None?
  {
    assert !InClass(s[i]);
    NoMatchWithoutRun(s, i);
  }

  /** Where the pattern matches in a code, a space and the code again. */
  lemma RepeatedCodeMatchAt(c: string)
    requires IsCode(c)
    ensures var s := c + " " + c;
            && MatchAt(s, 0) == Some(|c|)
            && MatchAt(s, |c|).None?
            && MatchAt(s, |c| + 1) == Some(|s|)
  {
    CodeBeforeSpace(c, c);
    CodeAfterSpace(c, c);
    NoMatchAtSpace(c + " " + c, |c|);
  }

  /** The scan of a code, a space and the code again finds the code twice. */
  lemma RepeatedCodeScan(c: string)
    requires IsCode(c)
    ensures Scan(c + " " + c, 0) == [c, c]
  {
    var s := c + " " + c;
    var n := |c|;
    RepeatedCodeMatchAt(c);
    assert s[0..n] == c && s[n + 1..|s|] == c;
    assert Scan(s, n + 1) == [c] + Scan(s, |s|);
    assert Scan(s, n) == Scan(s, n + 1);
  }

  /** The same code pasted twice, separated by a space, is queued once. */
  lemma ParseRepeatedCode(c: string)
    requires IsCode(c)
    ensures ParseCodes(c + " " + c) == [c]
  {
    RepeatedCodeText(c);
    RepeatedCodeScan(c);
    assert Matches(c + " " + c) == [c, c];
    DedupeOneOrTwice(c);
  }

  /** A four-character group and a dash in front of `k` dash-joined groups make `k + 1` of them. */
  lemma PrependGroup(g: string, rest: string, k: nat)
    requires |g| == 4 && IsGroup(g) && k >= 1 && DashGroups(rest, k)
    ensures DashGroups(g + "-" + rest, k + 1)
  {
    var c := g + "-" + rest;
    assert c[..4] == g && c[4] == '-' && c[5..] == rest;
  }

  lemma SampleGroups()
    ensures IsGroup("ABCD") && IsGroup("1234") && IsGroup("EFGH") && IsGroup("5678") && IsGroup("IJKL")
  {
  }

  lemma SampleCodeParts()
    ensures "ABCD" + "-" + ("1234" + "-" + ("EFGH" + "-" + ("5678" + "-" + "IJKL"))) == "ABCD-1234-EFGH-5678-IJKL"
  {
  }

  lemma SampleCodeIsCode()
    ensures IsCode("ABCD-1234-EFGH-5678-IJKL")
  {
    SampleGroups();
    PrependGroup("5678", "IJKL", 1);
    PrependGroup("EFGH", "5678" + "-" + "IJKL", 2);
    PrependGroup("1234", "EFGH" + "-" + ("5678" + "-" + "IJKL"), 3);
    PrependGroup("ABCD", "1234" + "-" + ("EFGH" + "-" + ("5678" + "-" + "IJKL")), 4);
    SampleCodeParts();
  }

  lemma SampleTextUpper()
    ensures ToUpper("foo " + "ABCD-1234-EFGH-5678-IJKL" + " bar") == "FOO " + "ABCD-1234-EFGH-5678-IJKL" + " BAR"
  {
    var c := "ABCD-1234-EFGH-5678-IJKL";
    var u := ToUpper("foo ");
    assert u[0] == 'F' && u[1] == 'O' && u[2] == 'O' && u[3] == ' ';
    assert u == "FOO ";
    var v := ToUpper(" bar");
    assert v[0] == ' ' && v[1] == 'B' && v[2] == 'A' && v[3] == 'R';
    assert v == " BAR";
    assert NoLower(c);
    ToUpperOfNoLower(c);
    ToUpperConcat("foo ", c);
    ToUpperConcat("foo " + c, " bar");
  }

  /** No match can start where four class characters do not follow. */
  lemma NoMatchWithoutRun(s: string, i: nat)
    requires i <= |s| && !ClassRun(s, i, 4)
    ensures MatchAt(s, i).None?
  {
    assert !ClassRun(s, i, 5);
  }

  /** No match can start between two word characters. */
  lemma NoMatchInsideWord(s: string, i: nat)
    requires 0 < i < |s| && IsWordChar(s[i - 1]) && IsWordChar(s[i])
    ensures MatchAt(s, i).None?
  {
  }

  const SampleCode: string := "ABCD-1234-EFGH-5678-IJKL"
  const SampleUpper: string := "FOO " + SampleCode + " BAR"

  lemma SampleUpperChars()
    ensures |SampleUpper| == 32 && SampleUpper[4..28] == SampleCode
    ensures SampleUpper[0] == 'F' && SampleUpper[1] == 'O' && SampleUpper[2] == 'O' && SampleUpper[3] == ' '
    ensures SampleUpper[28] == ' ' && SampleUpper[29] == 'B' && SampleUpper[30] == 'A' && SampleUpper[31] == 'R'
  {
  }

  lemma SampleScanEnds()
    ensures Scan(SampleUpper, 0) == Scan(SampleUpper, 4)
    ensures Scan(SampleUpper, 28) == []
  {
    var s := SampleUpper;
    SampleUpperChars();
    NoMatchWithoutRun(s, 0);
    NoMatchInsideWord(s, 1);
    NoMatchInsideWord(s, 2);
    NoMatchWithoutRun(s, 3);
    ScanSkip(s, 0, 4);
    NoMatchWithoutRun(s, 28);
    NoMatchWithoutRun(s, 29);
    NoMatchInsideWord(s, 30);
    NoMatchInsideWord(s, 31);
    ScanSkip(s, 28, 32);
  }

  lemma SampleScan()
    ensures Scan(SampleUpper, 0) == [SampleCode]
  {
    var s := SampleUpper;
    SampleUpperChars();
    SampleCodeIsCode();
    assert StartsAt(s, 4, SampleCode);
    MatchAtCode(s, 4, SampleCode);
    SampleScanEnds();
    assert Scan(s, 4) == [s[4..28]] + Scan(s, 28);
  }

  lemma SampleTextParts()
    ensures "foo ABCD-1234-EFGH-5678-IJKL bar" == "foo " + SampleCode + " bar"
  {
  }

  /** A code inside ordinary words, as in `foo <code> bar`, is the only thing extracted. */
  lemma ParseCodeAmongWords()
    ensures ParseCodes("foo ABCD-1234-EFGH-5678-IJKL bar") == ["ABCD-1234-EFGH-5678-IJKL"]
  {
    SampleTextParts();
    SampleTextUpper();
    SampleScan();
    DedupeOneOrTwice(SampleCode);
  }
}
