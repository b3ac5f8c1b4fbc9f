/**
 * `waitForStatus` of smash_shift_helper.user.js. The page is polled every
 * 250 ms until the timeout; a poll is accepted when its `|`-joined text is
 * non-empty, differs from the previous poll's, and either classifies to a
 * known kind or is longer than 20 UTF-16 code units (JavaScript's `length`).
 * Time is replaced by a count:
 * the sequence `polls` holds what successive polls would observe, and only
 * the polls that start before the timeout are read.
 */
module Polling {
  import opened Basics
  import opened Text
  import opened Classifier

  const StatusScanIntervalMs: nat := 250
  /** Texts at most this many UTF-16 code units long are only accepted when they classify to a known kind. */
  const MeaningfulLength: nat := 20

  /**
   * The number of polls a loop `while (elapsed < timeout) { poll; sleep(interval) }`
   * can make: polls start at elapsed times 0, interval, 2 * interval, ...
   * and the last one starts before the timeout.
   */
  function PollBound(timeoutMs: nat, intervalMs: nat): (n: nat)
    requires intervalMs > 0
    ensures n * intervalMs >= timeoutMs
    ensures n == 0 || (n - 1) * intervalMs < timeoutMs
  {
    (timeoutMs + intervalMs - 1) / intervalMs
  }

  /** `texts.join('|')`, the text compared between polls. */
  function PollText(texts: seq<string>): string {
    Join(texts, "|")
  }

  /** The text seen by the poll before poll `k`, or "" for the first poll. */
  function PreviousText(polls: seq<seq<string>>, k: nat): string
    requires k <= |polls|
  {
    if k == 0 then "" else PollText(polls[k - 1])
  }

  /** Poll `k` ends the wait. */
  predicate Accepted(polls: seq<seq<string>>, k: nat)
    requires k < |polls|
  {
    var current := PollText(polls[k]);
    && current != ""
    && current != PreviousText(polls, k)
    && (Classify(polls[k]).kind != Unknown || Utf16Length(current) > MeaningfulLength)
  }

  /** Poll `k` is the first poll from `i` on, and before `n`, that ends the wait. */
  predicate FirstAccepted(polls: seq<seq<string>>, i: nat, n: nat, k: nat)
    requires n <= |polls|
  {
    && i <= k < n
    && Accepted(polls, k)
    && forall j | i <= j < k :: !Accepted(polls, j)
  }

  /** No poll from `i` on, and before `n`, ends the wait. */
  predicate NoneAccepted(polls: seq<seq<string>>, i: nat, n: nat)
    requires n <= |polls|
  {
    forall j | i <= j < n :: !Accepted(polls, j)
  }

  /**
   * `r` is what a wait over polls `i` to `n` may return: the classification
   * of the first accepted poll, or `{unknown, ''}` when none is accepted.
   */
  predicate WaitOutcome(polls: seq<seq<string>>, i: nat, n: nat, r: Status)
    requires n <= |polls|
  {
    || (exists k: nat | k < n :: FirstAccepted(polls, i, n, k) && r == Classify(polls[k]))
    || (NoneAccepted(polls, i, n) && r == Status(Unknown, ""))
  }

  /** A poll that is not accepted does not change the outcome of the wait that follows it. */
  lemma SkipPoll(polls: seq<seq<string>>, i: nat, n: nat, r: Status)
    requires i < n <= |polls| && !Accepted(polls, i)
    requires WaitOutcome(polls, i + 1, n, r)
    ensures WaitOutcome(polls, i, n, r)
  {
    if k: nat :| k < n && FirstAccepted(polls, i + 1, n, k) && r == Classify(polls[k]) {
      FirstAcceptedFrom(polls, i, n, k);
    } else {
      NoneAcceptedFrom(polls, i, n);
    }
  }

  lemma FirstAcceptedFrom(polls: seq<seq<string>>, i: nat, n: nat, k: nat)
    requires i < n <= |polls| && !Accepted(polls, i)
    requires FirstAccepted(polls, i + 1, n, k)
    ensures FirstAccepted(polls, i, n, k)
  {
  }

  lemma NoneAcceptedFrom(polls: seq<seq<string>>, i: nat, n: nat)
    requires i < n <= |polls| && !Accepted(polls, i)
    requires NoneAccepted(polls, i + 1, n)
    ensures NoneAccepted(polls, i, n)
  {
  }

  /** The wait from poll `i` on, with `last` the text of the poll before. */
  function WaitFrom(polls: seq<seq<string>>, n: nat, i: nat, last: string): (r: Status)
    requires i <= n <= |polls|
    requires last == PreviousText(polls, i)
    ensures WaitOutcome(polls, i, n, r)
    decreases n - i
  {
    if i == n then Status(Unknown, "")
    else
      var current := PollText(polls[i]);
      if current != "" && current != last then
        var result := Classify(polls[i]);
        if result.kind != Unknown || Utf16Length(current) > MeaningfulLength then
          assert FirstAccepted(polls, i, n, i);
          result
        else
          var rest := WaitFrom(polls, n, i + 1, current);
          SkipPoll(polls, i, n, rest);
          rest
      else
        var rest := WaitFrom(polls, n, i + 1, current);
        SkipPoll(polls, i, n, rest);
        rest
  }

  /**
   * `waitForStatus(timeoutMs)`: the classification of the first accepted poll
   * among those started before the timeout, or `{unknown, ''}` when none is.
   */
  function WaitForStatus(timeoutMs: nat, polls: seq<seq<string>>): (r: Status)
    ensures var n := Min(|polls|, PollBound(timeoutMs, StatusScanIntervalMs));
            || (exists k: nat :: FirstAccepted(polls, 0, n, k) && r == Classify(polls[k]))
            || (NoneAccepted(polls, 0, n) && r == Status(Unknown, ""))
  {
    WaitFrom(polls, Min(|polls|, PollBound(timeoutMs, StatusScanIntervalMs)), 0, "")
  }

  /** A wait that ends with a kind other than `Unknown` returned the classification of an accepted poll. */
  lemma KnownStatusComesFromAPoll(timeoutMs: nat, polls: seq<seq<string>>)
    requires WaitForStatus(timeoutMs, polls).kind != Unknown
    ensures exists k | 0 <= k < |polls| :: Accepted(polls, k) && WaitForStatus(timeoutMs, polls) == Classify(polls[k])
  {
  }

  /** The same text seen twice in a row never ends the wait on the second poll: stale text is ignored. */
  lemma RepeatedTextNotAccepted(polls: seq<seq<string>>, k: nat)
    requires 0 < k < |polls| && PollText(polls[k]) == PollText(polls[k - 1])
    ensures !Accepted(polls, k)
  {
  }

  /**
   * Length is counted in UTF-16 code units: a single new text of eleven
   * characters from outside the Basic Multilingual Plane (emoji, say) is
   * long enough to end the wait even though it classifies to `Unknown`.
   */
  lemma AstralTextIsLongEnough(s: string)
    requires |s| == 11 && forall i | 0 <= i < |s| :: IsAstral(s[i])
    ensures Accepted([[s]], 0)
  {
    Utf16LengthAllAstral(s);
    assert PollText([s]) == s;
  }

  lemma {:induction false} WaitFromIgnoresLatePolls(polls: seq<seq<string>>, n: nat, m: nat, i: nat, last: string)
    requires i <= n <= m <= |polls|
    requires last == PreviousText(polls, i)
    ensures last == PreviousText(polls[..m], i)
    ensures WaitFrom(polls, n, i, last) == WaitFrom(polls[..m], n, i, last)
    decreases n - i
  {
    if i < n {
      assert polls[..m][i] == polls[i];
      WaitFromIgnoresLatePolls(polls, n, m, i + 1, PollText(polls[i]));
    }
  }

  /** Polls that would start after the timeout are never read: the wait sees only the first `PollBound` polls. */
  lemma WaitIgnoresLatePolls(timeoutMs: nat, polls: seq<seq<string>>)
    ensures var n := Min(|polls|, PollBound(timeoutMs, StatusScanIntervalMs));
            WaitForStatus(timeoutMs, polls) == WaitForStatus(timeoutMs, polls[..n])
  {
    var n := Min(|polls|, PollBound(timeoutMs, StatusScanIntervalMs));
    WaitFromIgnoresLatePolls(polls, n, n, 0, "");
  }
}
