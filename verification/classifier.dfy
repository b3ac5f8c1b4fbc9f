/**
 * Status classification: `STATUS_PATTERNS` and `classifyStatus` of
 * smash_shift_helper.user.js. The status texts are joined with " \n " and
 * matched against ordered pattern groups; the first group with a matching
 * pattern decides the kind. Every pattern carries the `i` flag; since all of
 * them are ASCII, matching the ASCII-lower-cased text against lower-case
 * literals is exactly the engine's case-insensitive comparison.
 */
module Classifier {
  import opened Text

  datatype Kind = Success | Unavailable | Invalid | Platform | Throttled | Unknown

  /** The `{ type, text }` record `classifyStatus` returns. */
  datatype Status = Status(kind: Kind, text: string)

  const JoinSeparator: string := " \n "

  /**
   * One pattern of `STATUS_PATTERNS`. Plain literals are substring tests;
   * the two patterns with regular-expression operators have their own
   * matchers. `/not (?:a )?valid/` is the pair of literals "not valid" and
   * "not a valid".
   */
  datatype Pattern = Literal(word: string) | AlreadyRedeemed | RateLimit

  const SuccessPatterns: seq<Pattern> :=
    [Literal("redeemed"), Literal("claimed"), Literal("added to"), Literal("success"), Literal("enjoy")]
  const UnavailablePatterns: seq<Pattern> :=
    [AlreadyRedeemed, Literal("already used"), Literal("previously redeemed"), Literal("expired"),
     Literal("no longer valid"), Literal("out of date")]
  const InvalidPatterns: seq<Pattern> :=
    [Literal("invalid"), Literal("not valid"), Literal("not a valid"), Literal("not recognized"),
     Literal("does not exist")]
  const ThrottledPatterns: seq<Pattern> :=
    [Literal("too many"), RateLimit, Literal("try again later"), Literal("slow down")]
  const PlatformPatterns: seq<Pattern> :=
    [Literal("not available on your platform"), Literal("wrong platform")]
  const GenericOkPatterns: seq<Pattern> := [Literal("code accepted")]

  /** First position at or after `i` that is not `\s`. */
  function SkipSpace(t: string, i: nat): (r: nat)
    requires i <= |t|
    ensures i <= r <= |t|
    ensures forall q | i <= q < r :: IsSpace(t[q])
    ensures r == |t| || !IsSpace(t[r])
    decreases |t| - i
  {
    if i < |t| && IsSpace(t[i]) then SkipSpace(t, i + 1) else i
  }

  /**
   * `/already\s+(?:been\s+)?redeemed/` at position `i`. Each `\s+` must take
   * the whole run of white space, because neither "b" nor "r" is white space,
   * so the greedy match needs no backtracking.
   */
  predicate AlreadyRedeemedAt(t: string, i: nat)
    requires i <= |t|
  {
    && StartsAt(t, i, "already")
    && var j := SkipSpace(t, i + 7);
    && j > i + 7
    && (|| StartsAt(t, j, "redeemed")
        || (&& StartsAt(t, j, "been")
            && var m := SkipSpace(t, j + 4);
            && m > j + 4
            && StartsAt(t, m, "redeemed")))
  }

  /**
   * `/rate.?limit/` at position `i`. Without the `u` flag `.` matches one
   * UTF-16 code unit other than a line terminator, so it can take only half
   * of a character outside the Basic Multilingual Plane, and "limit" cannot
   * follow that half: such a character never matches `.` here.
   */
  predicate RateLimitAt(t: string, i: nat)
    requires i <= |t|
  {
    && StartsAt(t, i, "rate")
    && (|| StartsAt(t, i + 4, "limit")
        || (&& i + 4 < |t| && !IsLineTerminator(t[i + 4]) && !IsAstral(t[i + 4])
            && StartsAt(t, i + 5, "limit")))
  }

  /** One character of the Basic Multilingual Plane between "rate" and "limit" is matched by `.`. */
  lemma RateLimitAcceptsOneCodeUnit(c: char)
    requires !IsLineTerminator(c) && !IsAstral(c)
    ensures PatternMatches(RateLimit, "rate" + [c] + "limit")
  {
    var t := "rate" + [c] + "limit";
    assert t[..4] == "rate" && t[5..10] == "limit";
    assert RateLimitAt(t, 0);
  }

  /** A character outside the Basic Multilingual Plane between "rate" and "limit" is two code units, too many for `.?`. */
  lemma RateLimitRejectsAstral(c: char)
    requires IsAstral(c)
    ensures !PatternMatches(RateLimit, "rate" + [c] + "limit")
  {
    var t := "rate" + [c] + "limit";
    forall i | 0 <= i <= |t|
      ensures !RateLimitAt(t, i)
    {
      if StartsAt(t, i, "rate") {
        assert t[i] == t[i..i + 4][0] == 'r';
        assert i == 0;
        assert t[4] == c;
        assert !StartsAt(t, 4, "limit") by { assert t[4..9][0] == c; }
      }
    }
  }

  /** `re.test(text)` for one pattern, on the lower-cased text `t`. */
  predicate PatternMatches(p: Pattern, t: string) {
    match p
    case Literal(w) => Contains(t, w)
    case AlreadyRedeemed => exists i | 0 <= i <= |t| :: AlreadyRedeemedAt(t, i)
    case RateLimit => exists i | 0 <= i <= |t| :: RateLimitAt(t, i)
  }

  /** `patterns.some(re => re.test(combinedText))`. */
  predicate AnyMatches(ps: seq<Pattern>, t: string) {
    exists i | 0 <= i < |ps| :: PatternMatches(ps[i], t)
  }

  /** The patterns of kind `k` match the lower-cased text `t`; success includes `genericOk`. */
  predicate Fires(k: Kind, t: string) {
    match k
    case Unavailable => AnyMatches(UnavailablePatterns, t)
    case Invalid => AnyMatches(InvalidPatterns, t)
    case Platform => AnyMatches(PlatformPatterns, t)
    case Throttled => AnyMatches(ThrottledPatterns, t)
    case Success => AnyMatches(SuccessPatterns, t) || AnyMatches(GenericOkPatterns, t)
    case Unknown => false
  }

  /**
   * Position of each kind in the tie-break order: the earlier a kind, the
   * more conservative its reading of an ambiguous message.
   */
  function Rank(k: Kind): nat {
    match k
    case Unavailable => 0
    case Invalid => 1
    case Platform => 2
    case Throttled => 3
    case Success => 4
    case Unknown => 5
  }

  /**
   * `classifyStatus`: the text is always the " \n "-joined input; the kind is
   * the earliest kind in the tie-break order whose patterns match, and
   * `Unknown` exactly when none match.
   */
  function Classify(texts: seq<string>): (r: Status)
    ensures r.text == Join(texts, JoinSeparator)
    ensures r.kind != Unknown ==> Fires(r.kind, ToLower(r.text))
    ensures forall k: Kind | Rank(k) < Rank(r.kind) :: !Fires(k, ToLower(r.text))
  {
    var combined := Join(texts, JoinSeparator);
    var t := ToLower(combined);
    if AnyMatches(UnavailablePatterns, t) then Status(Unavailable, combined)
    else if AnyMatches(InvalidPatterns, t) then Status(Invalid, combined)
    else if AnyMatches(PlatformPatterns, t) then Status(Platform, combined)
    else if AnyMatches(ThrottledPatterns, t) then Status(Throttled, combined)
    else if AnyMatches(SuccessPatterns, t) || AnyMatches(GenericOkPatterns, t) then Status(Success, combined)
    else Status(Unknown, combined)
  }

  /** Two kinds that both satisfy the first-match rule for the same text are the same kind. */
  lemma FirstMatchIsUnique(t: string, k1: Kind, k2: Kind)
    requires k1 != Unknown ==> Fires(k1, t)
    requires forall k: Kind | Rank(k) < Rank(k1) :: !Fires(k, t)
    requires k2 != Unknown ==> Fires(k2, t)
    requires forall k: Kind | Rank(k) < Rank(k2) :: !Fires(k, t)
    ensures k1 == k2
  {
    if Rank(k1) < Rank(k2) {
      assert !Fires(k1, t);
    }
  }

  /** A message that says the code was already redeemed is `unavailable`, whatever success word it also contains. */
  lemma AlreadyRedeemedBeatsSuccess(texts: seq<string>)
    requires PatternMatches(AlreadyRedeemed, ToLower(Join(texts, JoinSeparator)))
    ensures Classify(texts).kind == Unavailable
  {
    var t := ToLower(Join(texts, JoinSeparator));
    assert PatternMatches(UnavailablePatterns[0], t);
    assert Fires(Unavailable, t);
  }

  /** Success words only decide the kind when no failure pattern matches. */
  lemma SuccessOnlyWithoutFailure(texts: seq<string>)
    requires Classify(texts).kind == Success
    ensures forall k: Kind | k != Success && k != Unknown :: !Fires(k, ToLower(Join(texts, JoinSeparator)))
  {
  }

  const RedeemedMessage: string := "This code has " + "already been redeemed"
  const RedeemedLower: string := "this code has " + "already been redeemed"

  lemma RedeemedHeadLower()
    ensures ToLower("This code has ") == "this code has "
  {
    var t := ToLower("This code has ");
    assert t[0] == 't';
    assert forall i | 1 <= i < |t| :: t[i] == "This code has "[i];
  }

  lemma RedeemedTailLower()
    ensures ToLower("already been redeemed") == "already been redeemed"
  {
    assert NoUpper("already been redeemed");
    ToLowerOfNoUpper("already been redeemed");
  }

  lemma RedeemedMessageLower()
    ensures ToLower(RedeemedMessage) == RedeemedLower
  {
    ToLowerConcat("This code has ", "already been redeemed");
    RedeemedHeadLower();
    RedeemedTailLower();
  }

  /** The words of "already been redeemed" and the single spaces between them. */
  lemma AlreadyBeenRedeemedParts(t: string, i: nat)
    requires StartsAt(t, i, "already been redeemed")
    ensures StartsAt(t, i, "already") && t[i + 7] == ' '
    ensures StartsAt(t, i + 8, "been") && t[i + 12] == ' '
    ensures StartsAt(t, i + 13, "redeemed")
  {
    var w := "already been redeemed";
    assert t[i..i + 21] == w;
    assert t[i..i + 7] == w[..7];
    assert t[i + 8..i + 12] == w[8..12];
    assert t[i + 13..i + 21] == w[13..];
  }

  /** "already been redeemed" at position `i` matches `/already\s+(?:been\s+)?redeemed/` there. */
  lemma AlreadyBeenRedeemedAt(t: string, i: nat)
    requires StartsAt(t, i, "already been redeemed")
    ensures AlreadyRedeemedAt(t, i)
  {
    AlreadyBeenRedeemedParts(t, i);
    assert t[i + 8] == 'b' by { assert t[i + 8] == t[i + 8..i + 12][0]; }
    assert SkipSpace(t, i + 8) == i + 8;
    assert SkipSpace(t, i + 7) == i + 8;
    assert t[i + 13] == 'r' by { assert t[i + 13] == t[i + 13..i + 21][0]; }
    assert SkipSpace(t, i + 13) == i + 13;
    assert SkipSpace(t, i + 12) == i + 13;
  }

  /** "already been redeemed" anywhere in a text matches `/already\s+(?:been\s+)?redeemed/` and `/redeemed/`. */
  lemma AlreadyBeenRedeemedMatches(p: string, q: string)
    ensures PatternMatches(AlreadyRedeemed, p + "already been redeemed" + q)
    ensures PatternMatches(Literal("redeemed"), p + "already been redeemed" + q)
  {
    var t := p + "already been redeemed" + q;
    var i := |p|;
    assert StartsAt(t, i, "already been redeemed") by {
      assert t[i..i + 21] == "already been redeemed";
    }
    AlreadyBeenRedeemedAt(t, i);
    AlreadyBeenRedeemedParts(t, i);
  }

  lemma RedeemedLowerMatches()
    ensures PatternMatches(AlreadyRedeemed, RedeemedLower)
    ensures PatternMatches(Literal("redeemed"), RedeemedLower)
  {
    AlreadyBeenRedeemedMatches("this code has ", "");
    assert RedeemedLower + "" == RedeemedLower;
  }

  /** "This code has already been redeemed" matches both an unavailable and a success pattern and is `unavailable`. */
  lemma RedeemedMessageIsUnavailable()
    ensures Fires(Success, ToLower(RedeemedMessage))
    ensures Classify([RedeemedMessage]).kind == Unavailable
  {
    RedeemedMessageLower();
    RedeemedLowerMatches();
    assert SuccessPatterns[0] == Literal("redeemed");
    assert Join([RedeemedMessage], JoinSeparator) == RedeemedMessage;
    AlreadyRedeemedBeatsSuccess([RedeemedMessage]);
  }
}
