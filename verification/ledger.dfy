/**
 * The attempted-code ledger: `markAttempted` and `filterUnattempted` of
 * smash_shift_helper.user.js. The ledger is the `Set` of upper-cased codes
 * already attempted; saving it to browser storage is reported as a flag.
 */
module Ledger {
  import opened Text

  /** The ledger after `markAttempted`, and whether it was saved. */
  datatype Marked = Marked(ledger: set<string>, saved: bool)

  /** `markAttempted(codeUpper, attemptedSet)`: adds the code, saving only when the set grew. */
  function MarkAttempted(code: string, ledger: set<string>): (r: Marked)
    ensures code in r.ledger
    ensures ledger <= r.ledger && r.ledger - ledger <= {code}
    ensures r.saved <==> |r.ledger| > |ledger|
  {
    if code !in ledger then Marked(ledger + {code}, true) else Marked(ledger, false)
  }

  /** Marking the same code again changes nothing and saves nothing. */
  lemma MarkAttemptedIdempotent(code: string, ledger: set<string>)
    ensures var once := MarkAttempted(code, ledger).ledger;
            MarkAttempted(code, once) == Marked(once, false)
  {
  }

  /** `a` is `b` with some elements removed, the rest kept in order. */
  predicate IsSubsequence(a: seq<string>, b: seq<string>)
    decreases |b|
  {
    if |a| == 0 then true
    else if |b| == 0 then false
    else if a[0] == b[0] then IsSubsequence(a[1..], b[1..])
    else IsSubsequence(a, b[1..])
  }

  lemma {:induction false} SubsequenceOfTail(a: seq<string>, x: string, b: seq<string>)
    requires IsSubsequence(a, b)
    ensures IsSubsequence(a, [x] + b)
    decreases |b|, 1
  {
    assert ([x] + b)[1..] == b;
    if |a| > 0 && a[0] == x {
      SubsequenceDropFirst(a, b);
    }
  }

  lemma {:induction false} SubsequenceDropFirst(a: seq<string>, b: seq<string>)
    requires |a| > 0 && IsSubsequence(a, b)
    ensures IsSubsequence(a[1..], b)
    decreases |b|, 0
  {
    assert [b[0]] + b[1..] == b;
    if a[0] != b[0] {
      SubsequenceDropFirst(a, b[1..]);
    }
    SubsequenceOfTail(a[1..], b[0], b[1..]);
  }

  /** The codes whose upper-case form is not in the ledger, in their order: `codes.filter(...)`. */
  function Unattempted(codes: seq<string>, ledger: set<string>): (r: seq<string>)
    ensures IsSubsequence(r, codes)
    decreases |codes|
  {
    if |codes| == 0 then []
    else
      var rest := Unattempted(codes[1..], ledger);
      if ToUpper(codes[0]) in ledger then
        SubsequenceOfTail(rest, codes[0], codes[1..]);
        rest
      else
        assert ([codes[0]] + rest)[1..] == rest;
        [codes[0]] + rest
  }

  /** The filter keeps every occurrence of an unattempted code and none of an attempted one. */
  lemma {:induction false} UnattemptedCounts(codes: seq<string>, ledger: set<string>)
    ensures forall c :: multiset(Unattempted(codes, ledger))[c] == if ToUpper(c) in ledger then 0 else multiset(codes)[c]
    decreases |codes|
  {
    if |codes| > 0 {
      UnattemptedCounts(codes[1..], ledger);
      assert codes == [codes[0]] + codes[1..];
      assert multiset(codes) == multiset([codes[0]]) + multiset(codes[1..]);
    }
  }

  /** The number of codes the ledger already holds. */
  function CountAttempted(codes: seq<string>, ledger: set<string>): nat
    decreases |codes|
  {
    if |codes| == 0 then 0
    else (if ToUpper(codes[0]) in ledger then 1 else 0) + CountAttempted(codes[1..], ledger)
  }

  /** Every code is either kept or counted as already attempted. */
  lemma {:induction false} KeptPlusSkipped(codes: seq<string>, ledger: set<string>)
    ensures |Unattempted(codes, ledger)| + CountAttempted(codes, ledger) == |codes|
    decreases |codes|
  {
    if |codes| > 0 {
      KeptPlusSkipped(codes[1..], ledger);
    }
  }

  /** Filtering a concatenation filters each part. */
  lemma {:induction false} UnattemptedConcat(a: seq<string>, b: seq<string>, ledger: set<string>)
    ensures Unattempted(a + b, ledger) == Unattempted(a, ledger) + Unattempted(b, ledger)
    decreases |a|
  {
    if |a| > 0 {
      assert (a + b)[0] == a[0];
      assert (a + b)[1..] == a[1..] + b;
      UnattemptedConcat(a[1..], b, ledger);
    } else {
      assert a + b == b;
    }
  }

  /** For upper-case codes, such as those `parseCodes` returns, the filter is a set difference. */
  lemma UnattemptedIsSetDifference(codes: seq<string>, ledger: set<string>)
    requires forall c | c in codes :: NoLower(c)
    ensures forall c | c in Unattempted(codes, ledger) :: c in codes && c !in ledger
    ensures forall c | c in codes && c !in ledger :: c in Unattempted(codes, ledger)
  {
    var kept := Unattempted(codes, ledger);
    UnattemptedCounts(codes, ledger);
    forall c | c in codes
      ensures c in kept <==> c !in ledger
    {
      ToUpperOfNoLower(c);
      assert multiset(codes)[c] > 0;
    }
    forall c | c in kept
      ensures c in codes
    {
      assert multiset(kept)[c] > 0;
    }
  }

  /** With an empty ledger, as after a history reset, every code is kept. */
  lemma {:induction false} EmptyLedgerKeepsAll(codes: seq<string>)
    ensures Unattempted(codes, {}) == codes
    decreases |codes|
  {
    if |codes| > 0 {
      EmptyLedgerKeepsAll(codes[1..]);
      assert [codes[0]] + codes[1..] == codes;
    }
  }

  /** The queue `filterUnattempted` returns, the number of codes it skipped, and whether it warned. */
  datatype Filtered = Filtered(kept: seq<string>, skipped: nat, warned: bool)

  /**
   * `filterUnattempted(codes)`: the order-preserving subsequence of codes not
   * yet attempted; the warning reports how many were skipped and is given
   * only when that number is positive.
   */
  function FilterUnattempted(codes: seq<string>, ledger: set<string>): (r: Filtered)
    ensures IsSubsequence(r.kept, codes)
    ensures forall c :: multiset(r.kept)[c] == if ToUpper(c) in ledger then 0 else multiset(codes)[c]
    ensures r.skipped == |codes| - |r.kept| == CountAttempted(codes, ledger)
    ensures r.warned <==> r.skipped > 0
  {
    var kept := Unattempted(codes, ledger);
    KeptPlusSkipped(codes, ledger);
    UnattemptedCounts(codes, ledger);
    Filtered(kept, |codes| - |kept|, |codes| - |kept| > 0)
  }
}
