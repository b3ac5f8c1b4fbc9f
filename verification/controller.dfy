/**
 * The run controller of smash_shift_helper.user.js: the run state, queue
 * preparation, the Stop and Resume handlers and the `startRedeeming` loop.
 * Browser storage is the `Storage` value the operations read and write;
 * what happens while each code is in flight is an event of the `events`
 * oracle: the outcome of `redeemOne` for that code (modelled by
 * `Step.RedeemOne`) and whether Stop was pressed meanwhile, or a page
 * reload that ends the script while the code is in flight.
 */
module Controller {
  import opened Basics
  import opened Text
  import opened Codes
  import opened Classifier
  import opened Step
  import opened Ledger

  const MaxConsecutiveErrors: nat := 5

  /** One entry of `state.results`: `{ code, status, details }`. */
  datatype ResultRow = ResultRow(code: string, status: Kind, details: string)

  /** The in-memory `state` object of `attach`. */
  datatype RunState = RunState(
    queue: seq<string>,
    running: bool,
    errors: nat,
    success: nat,
    currentIndex: nat,
    results: seq<ResultRow>,
    attempted: set<string>)

  /**
   * The run record kept in browser storage, as `loadState` reads it back:
   * any field may be missing. The results are stored too but never read, so
   * they are not kept here.
   */
  datatype SavedRun = SavedRun(
    queue: Option<seq<string>>,
    currentIndex: Option<nat>,
    errors: Option<nat>,
    success: Option<nat>,
    running: bool,
    platform: Option<string>)

  /** Browser storage: the saved run, if any, and the saved ledger. */
  datatype Storage = Storage(run: Option<SavedRun>, ledger: set<string>)

  /** The state `attach` creates when the page loads; only the ledger is read from storage. */
  function InitialState(ledger: set<string>): RunState {
    RunState([], false, 0, 0, 0, [], ledger)
  }

  /** The record saved before each code is attempted, with the index already past that code. */
  function InFlightSnapshot(st: RunState, platform: string): SavedRun {
    SavedRun(Some(st.queue), Some(st.currentIndex + 1), Some(st.errors), Some(st.success), st.running, Some(platform))
  }

  /** The record the Stop handler saves: the current state with `running` false and no platform. */
  function StopSnapshot(st: RunState): SavedRun {
    SavedRun(Some(st.queue), Some(st.currentIndex), Some(st.errors), Some(st.success), false, None)
  }

  /**
   * The record left in storage when the page reloads while a code is in
   * flight: the in-flight record, or, when Stop was pressed after it was
   * saved, the Stop record, which keeps the index of the code in flight.
   */
  function ReloadRecord(st: RunState, platform: string, stopPressed: bool): SavedRun {
    if stopPressed then StopSnapshot(st) else InFlightSnapshot(st, platform)
  }

  // ---------------------------------------------------------------------------
  // Handlers
  // ---------------------------------------------------------------------------

  lemma {:induction false} UnattemptedKeepsNoDuplicates(codes: seq<string>, ledger: set<string>)
    requires NoDuplicates(codes)
    ensures NoDuplicates(Unattempted(codes, ledger))
    decreases |codes|
  {
    if |codes| > 0 {
      var rest := codes[1..];
      assert NoDuplicates(rest) by {
        forall i, j | 0 <= i < j < |rest|
          ensures rest[i] != rest[j]
        {
          assert rest[i] == codes[i + 1] && rest[j] == codes[j + 1];
        }
      }
      UnattemptedKeepsNoDuplicates(rest, ledger);
      var kept := Unattempted(rest, ledger);
      UnattemptedCounts(rest, ledger);
      assert codes[0] !in rest by {
        forall k | 0 <= k < |rest|
          ensures rest[k] != codes[0]
        {
          assert rest[k] == codes[k + 1];
        }
      }
      assert multiset(kept)[codes[0]] == 0;
    }
  }

  /**
   * `prepareQueue`: the queue becomes the extracted codes not yet attempted,
   * without duplicates and in first-seen order, and the index returns to 0.
   */
  function PrepareQueue(st: RunState, text: string): (r: RunState)
    ensures r == st.(queue := r.queue, currentIndex := 0)
    ensures IsSubsequence(r.queue, ParseCodes(text)) && NoDuplicates(r.queue)
    ensures forall c | c in r.queue :: IsCode(c) && c !in st.attempted
    ensures forall c | c in ParseCodes(text) && c !in st.attempted :: c in r.queue
  {
    var codes := ParseCodes(text);
    var queue := FilterUnattempted(codes, st.attempted).kept;
    forall c | c in codes
      ensures NoLower(c)
    {
      CodeShape(c);
      ToUpperHasNoLower(c);
    }
    UnattemptedIsSetDifference(codes, st.attempted);
    UnattemptedKeepsNoDuplicates(codes, st.attempted);
    st.(queue := queue, currentIndex := 0)
  }

  /** A code already in the ledger is skipped with a warning, and the run does not start. */
  lemma AttemptedCodeIsSkipped(text: string, ledger: set<string>)
    requires IsCode(ToUpper(text)) && ToUpper(text) in ledger
    ensures FilterUnattempted(ParseCodes(text), ledger) == Filtered([], 1, true)
  {
    ParseWholeCode(text);
    var c := ToUpper(text);
    CodeShape(c);
    assert [c][1..] == [];
  }

  /** The Stop handler: only a running run is stopped, and the stop is saved. */
  function Stop(st: RunState, storage: Storage): (r: (RunState, Storage))
    ensures !r.0.running
    ensures st.running ==> r.1.run == Some(StopSnapshot(st)) && r.0 == st.(running := false)
    ensures !st.running ==> r == (st, storage)
    ensures r.1.ledger == storage.ledger
  {
    if st.running then (st.(running := false), storage.(run := Some(StopSnapshot(st))))
    else (st, storage)
  }

  /** What the Resume handler did: nothing, or a resumed state and platform. */
  datatype Resumption = NoSavedRun | Resumed(state: RunState, platform: string)

  /** The saved run holds a non-empty queue. */
  predicate HasSavedQueue(saved: Option<SavedRun>) {
    saved.Some? && saved.value.queue.Some? && |saved.value.queue.value| > 0
  }

  /**
   * The Resume handler, before it calls `startRedeeming(true)`. The whole
   * saved queue is filtered against the ledger and the saved index is then
   * clamped to the filtered queue's length; counters default to 0 and the
   * platform to the one currently selected.
   */
  function Resume(st: RunState, saved: Option<SavedRun>, selected: string): (r: Resumption)
    ensures r.NoSavedRun? <==> !HasSavedQueue(saved)
    ensures r.Resumed? ==>
              var s := saved.value;
              && IsSubsequence(r.state.queue, s.queue.value)
              && (forall c | c in r.state.queue :: ToUpper(c) !in st.attempted)
              && (forall c | c in s.queue.value && ToUpper(c) !in st.attempted :: c in r.state.queue)
              && (forall c :: multiset(r.state.queue)[c] == if ToUpper(c) in st.attempted then 0 else multiset(s.queue.value)[c])
              && r.state.currentIndex <= |r.state.queue|
              && r.state.currentIndex == Min(s.currentIndex.GetOr(0), |r.state.queue|)
              && r.state.errors == s.errors.GetOr(0) && r.state.success == s.success.GetOr(0)
              && r.state.results == st.results && r.state.running == st.running
              && r.state.attempted == st.attempted
              && r.platform == (if s.platform.Some? && s.platform.value != "" then s.platform.value else selected)
  {
    if !HasSavedQueue(saved) then NoSavedRun
    else
      var s := saved.value;
      var queue := Unattempted(s.queue.value, st.attempted);
      UnattemptedCounts(s.queue.value, st.attempted);
      forall c | c in queue
        ensures ToUpper(c) !in st.attempted
      {
        assert multiset(queue)[c] > 0;
      }
      forall c | c in s.queue.value && ToUpper(c) !in st.attempted
        ensures c in queue
      {
        assert multiset(s.queue.value)[c] > 0;
      }
      var platform := if s.platform.Some? && s.platform.value != "" then s.platform.value else selected;
      Resumed(
        st.(queue := queue,
            currentIndex := Min(s.currentIndex.GetOr(0), |queue|),
            errors := s.errors.GetOr(0),
            success := s.success.GetOr(0)),
        platform)
  }

  // ---------------------------------------------------------------------------
  // Accounting of a run
  // ---------------------------------------------------------------------------

  /**
   * What happens while one code is in flight: its step ends, or the page
   * reloads first. Either way Stop may have been pressed meanwhile.
   */
  datatype StepEvent = Step(result: StepResult, stopPressed: bool) | Reload(stopPressed: bool)

  /** One attempted code and how its step ended. */
  datatype Tried = Tried(code: string, result: StepResult)

  /** Why the loop of `startRedeeming` ended. */
  datatype RunEnd = Exhausted | Stopped | Breaker | Crashed

  /** The kinds the loop counts as problems. */
  predicate IsErrorKind(k: Kind) {
    k == Unavailable || k == Invalid || k == Platform || k == Throttled
  }

  function Last(trace: seq<Tried>): Tried
    requires |trace| > 0
  {
    trace[|trace| - 1]
  }

  function Init(trace: seq<Tried>): seq<Tried>
    requires |trace| > 0
  {
    trace[..|trace| - 1]
  }

  /** The result row a step adds: one when it returned, none when it threw. */
  function RowOf(t: Tried): seq<ResultRow> {
    if t.result.Returned? then [ResultRow(t.code, t.result.status.kind, t.result.status.text)] else []
  }

  /** Whether a step counts as a success. */
  function SuccessOf(t: Tried): nat {
    if t.result.Returned? && t.result.status.kind == Success then 1 else 0
  }

  /** Whether a step counts as an error: a problem kind, or a throw. */
  function ErrorOf(t: Tried): nat {
    if t.result.Threw? || IsErrorKind(t.result.status.kind) then 1 else 0
  }

  /** Whether a step returned `unknown`. */
  function UnknownOf(t: Tried): nat {
    if t.result.Returned? && t.result.status.kind == Unknown then 1 else 0
  }

  /** The code a step marks as attempted: its upper-cased form, when it returned. */
  function AttemptOf(t: Tried): set<string> {
    if t.result.Returned? then {ToUpper(t.code)} else {}
  }

  /** The result rows of a run: one per step that returned. */
  function RowsOf(trace: seq<Tried>): seq<ResultRow>
    decreases |trace|
  {
    if |trace| == 0 then [] else RowsOf(Init(trace)) + RowOf(Last(trace))
  }

  /** Steps that returned `success`. */
  function SuccessesOf(trace: seq<Tried>): nat
    decreases |trace|
  {
    if |trace| == 0 then 0 else SuccessesOf(Init(trace)) + SuccessOf(Last(trace))
  }

  /** Steps that returned a problem kind, and steps that threw. */
  function ErrorsOf(trace: seq<Tried>): nat
    decreases |trace|
  {
    if |trace| == 0 then 0 else ErrorsOf(Init(trace)) + ErrorOf(Last(trace))
  }

  /** Steps that returned `unknown`. */
  function UnknownsOf(trace: seq<Tried>): nat
    decreases |trace|
  {
    if |trace| == 0 then 0 else UnknownsOf(Init(trace)) + UnknownOf(Last(trace))
  }

  /** Upper-cased codes whose step returned: the codes the run marks as attempted. */
  function AttemptedOf(trace: seq<Tried>): set<string>
    decreases |trace|
  {
    if |trace| == 0 then {} else AttemptedOf(Init(trace)) + AttemptOf(Last(trace))
  }

  /** The number of steps at the end of the trace that threw: the consecutive-error counter. */
  function TrailingThrows(trace: seq<Tried>): nat
    decreases |trace|
  {
    if |trace| == 0 || Last(trace).result.Returned? then 0
    else 1 + TrailingThrows(Init(trace))
  }

  /** Every attempt is counted exactly once: as a success, a problem or an unknown status. */
  lemma {:induction false} EveryAttemptCountedOnce(trace: seq<Tried>)
    ensures SuccessesOf(trace) + ErrorsOf(trace) + UnknownsOf(trace) == |trace|
    ensures |RowsOf(trace)| <= |trace|
    ensures TrailingThrows(trace) <= |trace|
    decreases |trace|
  {
    if |trace| > 0 {
      EveryAttemptCountedOnce(Init(trace));
    }
  }

  /** A run of `k` steps that all threw has at least `k` trailing throws. */
  lemma {:induction false} ThrowsAccumulate(trace: seq<Tried>, k: nat)
    requires k <= |trace|
    requires forall j | |trace| - k <= j < |trace| :: trace[j].result.Threw?
    ensures TrailingThrows(trace) >= k
    decreases k
  {
    if k > 0 {
      var init := Init(trace);
      assert forall j | |init| - (k - 1) <= j < |init| :: init[j] == trace[j];
      ThrowsAccumulate(init, k - 1);
    }
  }

  /** The run-level effect of one step's result, as the loop body applies it. */
  datatype Applied = Applied(state: RunState, storage: Storage, consecutive: nat)

  /**
   * One pass of the loop body after the step: a returned status appends one
   * row, marks the code (saving the ledger when it grows) and resets the
   * consecutive-error counter; success counts as a success, the four problem
   * kinds as errors and `unknown` as neither. A thrown step adds no row and
   * counts one error and one consecutive error.
   */
  function ApplyResult(st: RunState, storage: Storage, consecutive: nat, code: string, result: StepResult): (r: Applied)
    ensures var t := Tried(code, result);
            && r.state.results == st.results + RowOf(t)
            && r.state.success == st.success + SuccessOf(t)
            && r.state.errors == st.errors + ErrorOf(t)
            && r.state.attempted == st.attempted + AttemptOf(t)
            && r.consecutive == (if result.Threw? then consecutive + 1 else 0)
    ensures storage.ledger == st.attempted ==> r.storage.ledger == r.state.attempted
    ensures r.state == st.(results := r.state.results, success := r.state.success,
                           errors := r.state.errors, attempted := r.state.attempted)
    ensures r.storage.run == storage.run
  {
    match result
    case Returned(status) =>
      var marked := MarkAttempted(ToUpper(code), st.attempted);
      var st1 := st.(results := st.results + [ResultRow(code, status.kind, status.text)],
                     attempted := marked.ledger);
      var st2 :=
        if status.kind == Success then st1.(success := st1.success + 1)
        else if IsErrorKind(status.kind) then st1.(errors := st1.errors + 1)
        else st1;
      Applied(st2, if marked.saved then storage.(ledger := marked.ledger) else storage, 0)
    case Threw(_) =>
      Applied(st.(errors := st.errors + 1), storage, consecutive + 1)
  }

  lemma FoldsSnoc(trace: seq<Tried>, t: Tried)
    ensures RowsOf(trace + [t]) == RowsOf(trace) + RowOf(t)
    ensures SuccessesOf(trace + [t]) == SuccessesOf(trace) + SuccessOf(t)
    ensures ErrorsOf(trace + [t]) == ErrorsOf(trace) + ErrorOf(t)
    ensures AttemptedOf(trace + [t]) == AttemptedOf(trace) + AttemptOf(t)
    ensures TrailingThrows(trace + [t]) == if t.result.Threw? then TrailingThrows(trace) + 1 else 0
  {
    assert Init(trace + [t]) == trace;
  }

  // ---------------------------------------------------------------------------
  // The run loop
  // ---------------------------------------------------------------------------

  /** The loop has attempted codes `i0 .. i0 + |trace| - 1` of `queue`, one event each. */
  ghost predicate FollowsQueue(queue: seq<string>, i0: nat, events: nat -> StepEvent, trace: seq<Tried>) {
    (|trace| == 0 || i0 + |trace| <= |queue|) &&
    forall j {:trigger trace[j]} | 0 <= j < |trace| ::
      && events(j).Step?
      && i0 + j < |queue|
      && trace[j] == Tried(queue[i0 + j], events(j).result)
  }

  /** After no step of the trace had the last five steps all thrown: the breaker never tripped. */
  ghost predicate Quiet(trace: seq<Tried>)
    decreases |trace|
  {
    |trace| == 0 || (TrailingThrows(trace) < MaxConsecutiveErrors && Quiet(Init(trace)))
  }

  /** Stop was pressed while this event's step ran. */
  predicate StopsRun(ev: StepEvent) {
    ev.Step? && ev.stopPressed
  }

  /** No Stop press during the first `n` events. */
  ghost predicate NoStopBefore(events: nat -> StepEvent, n: int) {
    forall j | 0 <= j < n :: !StopsRun(events(j))
  }

  lemma ExtendFollows(queue: seq<string>, i0: nat, events: nat -> StepEvent, trace: seq<Tried>, t: Tried)
    requires FollowsQueue(queue, i0, events, trace)
    requires i0 + |trace| < |queue| && events(|trace|).Step?
    requires t == Tried(queue[i0 + |trace|], events(|trace|).result)
    ensures FollowsQueue(queue, i0, events, trace + [t])
  {
    var next := trace + [t];
    forall j | 0 <= j < |next|
      ensures events(j).Step? && i0 + j < |queue| && next[j] == Tried(queue[i0 + j], events(j).result)
    {
      if j < |trace| {
        assert next[j] == trace[j];
      }
    }
  }

  lemma ExtendQuiet(trace: seq<Tried>, t: Tried)
    ensures Init(trace + [t]) == trace
    ensures Quiet(trace) && TrailingThrows(trace + [t]) < MaxConsecutiveErrors ==> Quiet(trace + [t])
  {
    assert Init(trace + [t]) == trace;
  }

  /** The counters and results of `st` are those of `st0` plus what `trace` accounts for. */
  ghost predicate Accounts(st0: RunState, st: RunState, trace: seq<Tried>) {
    && st.results == st0.results + RowsOf(trace)
    && st.success == st0.success + SuccessesOf(trace)
    && st.errors == st0.errors + ErrorsOf(trace)
    && st.attempted == st0.attempted + AttemptedOf(trace)
  }

  lemma ExtendNoStop(events: nat -> StepEvent, n: nat)
    ensures NoStopBefore(events, n + 1) <==> NoStopBefore(events, n) && !StopsRun(events(n))
  {
  }

  /** The state and storage after one step: Stop when it was pressed, then the step's result applied. */
  function Advance(st: RunState, storage: Storage, consecutive: nat, code: string, result: StepResult,
                   stopPressed: bool): (a: Applied)
    ensures var t := Tried(code, result);
            && a.state.queue == st.queue && a.state.currentIndex == st.currentIndex
            && a.state.running == (st.running && !stopPressed)
            && a.state.results == st.results + RowOf(t)
            && a.state.success == st.success + SuccessOf(t)
            && a.state.errors == st.errors + ErrorOf(t)
            && a.state.attempted == st.attempted + AttemptOf(t)
            && a.consecutive == (if t.result.Threw? then consecutive + 1 else 0)
    ensures storage.ledger == st.attempted ==> a.storage.ledger == a.state.attempted
    ensures stopPressed && st.running ==> a.storage.run == Some(StopSnapshot(st))
    ensures !stopPressed ==> a.storage.run == storage.run
  {
    var stopped := if stopPressed then Stop(st, storage) else (st, storage);
    ApplyResult(stopped.0, stopped.1, consecutive, code, result)
  }

  /** The loop invariant of `startRedeeming`, after `|trace|` codes. */
  ghost predicate InLoop(st0: RunState, storage0: Storage, platform: string, events: nat -> StepEvent,
                         st: RunState, storage: Storage, consecutive: nat, trace: seq<Tried>)
  {
    && st.queue == st0.queue
    && st.currentIndex == st0.currentIndex + |trace|
    && FollowsQueue(st0.queue, st0.currentIndex, events, trace)
    && Accounts(st0, st, trace)
    && (storage0.ledger == st0.attempted ==> storage.ledger == st.attempted)
    && consecutive == TrailingThrows(trace) < MaxConsecutiveErrors
    && Quiet(trace)
    && (st.running <==> NoStopBefore(events, |trace|))
    && NoStopBefore(events, |trace| - 1)
    && (!st.running ==> |trace| > 0 && StopsRun(events(|trace| - 1)))
  }

  /** One step extends every part of the loop invariant from `trace` to `trace + [t]`. */
  lemma AdvanceKeeps(st0: RunState, storage0: Storage, platform: string, events: nat -> StepEvent,
                     st: RunState, storage: Storage, consecutive: nat, trace: seq<Tried>, t: Tried, a: Applied)
    requires InLoop(st0, storage0, platform, events, st, storage, consecutive, trace)
    requires st.running && st.currentIndex < |st.queue| && events(|trace|).Step?
    requires t == Tried(st0.queue[st0.currentIndex + |trace|], events(|trace|).result)
    requires a == Advance(st, storage.(run := Some(InFlightSnapshot(st, platform))), consecutive, t.code,
                          events(|trace|).result, events(|trace|).stopPressed)
    ensures a.consecutive == TrailingThrows(trace + [t])
    ensures a.state.queue == st.queue && a.state.currentIndex == st.currentIndex
    ensures FollowsQueue(st0.queue, st0.currentIndex, events, trace + [t])
    ensures Accounts(st0, a.state, trace + [t])
    ensures storage0.ledger == st0.attempted ==> a.storage.ledger == a.state.attempted
    ensures Init(trace + [t]) == trace
    ensures TrailingThrows(trace + [t]) < MaxConsecutiveErrors ==> Quiet(trace + [t])
    ensures a.state.running <==> NoStopBefore(events, |trace + [t]|)
    ensures !a.state.running ==> StopsRun(events(|trace|))
  {
    AdvanceTrace(st0.queue, st0.currentIndex, events, trace, t);
    FoldsSnoc(trace, t);
    ExtendAccounts(st0, st, a.state, trace, t);
  }

  lemma AdvanceTrace(queue: seq<string>, i0: nat, events: nat -> StepEvent, trace: seq<Tried>, t: Tried)
    requires FollowsQueue(queue, i0, events, trace) && Quiet(trace)
    requires NoStopBefore(events, |trace| - 1)
    requires i0 + |trace| < |queue| && events(|trace|).Step?
    requires t == Tried(queue[i0 + |trace|], events(|trace|).result)
    ensures FollowsQueue(queue, i0, events, trace + [t])
    ensures Init(trace + [t]) == trace
    ensures TrailingThrows(trace + [t]) < MaxConsecutiveErrors ==> Quiet(trace + [t])
    ensures NoStopBefore(events, |trace + [t]|) <==> NoStopBefore(events, |trace|) && !StopsRun(events(|trace|))
  {
    ExtendFollows(queue, i0, events, trace, t);
    ExtendQuiet(trace, t);
    ExtendNoStop(events, |trace|);
  }

  /** Applying one more attempt's row and counts extends what the trace accounts for by that attempt. */
  lemma ExtendAccounts(st0: RunState, st: RunState, st': RunState, trace: seq<Tried>, t: Tried)
    requires Accounts(st0, st, trace)
    requires st'.results == st.results + RowOf(t) && st'.success == st.success + SuccessOf(t)
    requires st'.errors == st.errors + ErrorOf(t) && st'.attempted == st.attempted + AttemptOf(t)
    ensures Accounts(st0, st', trace + [t])
  {
    FoldsSnoc(trace, t);
  }

  /**
   * Why a finished loop ended, as its trace shows it: the codes attempted
   * are the queue's from `i0`, one per step event, with no Stop press before
   * the last; and the loop ended because the queue ran out, because Stop was
   * pressed during the last step, because the last five steps threw, or
   * because the page reloaded before the next code's step ended.
   */
  ghost predicate EndedBy(queue: seq<string>, i0: nat, events: nat -> StepEvent, trace: seq<Tried>, end: RunEnd) {
    && FollowsQueue(queue, i0, events, trace)
    && NoStopBefore(events, |trace| - 1)
    && (|trace| > 0 ==> Quiet(Init(trace)))
    && (end != Breaker ==> Quiet(trace))
    && (end == Exhausted ==> i0 + |trace| >= |queue|)
    && (end == Stopped ==> |trace| > 0 && StopsRun(events(|trace| - 1)) && i0 + |trace| < |queue|)
    && (end == Breaker ==> TrailingThrows(trace) == MaxConsecutiveErrors)
    && (end == Crashed ==> i0 + |trace| < |queue| && events(|trace|).Reload? && NoStopBefore(events, |trace|))
  }

  /**
   * The loop of `startRedeeming`, from `running = true` to the cleanup
   * after it. Before each code the in-flight snapshot is saved; a reload
   * while the code is in flight ends the script with that snapshot, or with
   * the Stop record when Stop was pressed first, in storage. Otherwise the
   * step runs, Stop may be pressed while it runs, its result is applied, and
   * the loop stops when the queue is exhausted, Stop was pressed, or five
   * steps in a row threw (the breaker; the index then stays on the code that
   * threw). Unless the script was reloaded, the saved run is cleared at the
   * end, whatever ended the loop.
   */
  method RunLoop(st0: RunState, storage0: Storage, platform: string, events: nat -> StepEvent)
    returns (st: RunState, storage: Storage, trace: seq<Tried>, end: RunEnd)
    ensures EndedBy(st0.queue, st0.currentIndex, events, trace, end)
    ensures st.queue == st0.queue && Accounts(st0, st, trace)
    ensures storage0.ledger == st0.attempted ==> storage.ledger == st.attempted
    ensures end != Crashed ==> !st.running && storage.run.None?
    ensures end != Breaker ==> st.currentIndex == st0.currentIndex + |trace|
    ensures end == Breaker ==> st.currentIndex == st0.currentIndex + |trace| - 1
    ensures end == Crashed ==>
              var stopPressed := events(|trace|).stopPressed;
              && st.running == !stopPressed
              && storage.run == Some(ReloadRecord(st, platform, stopPressed))
  {
    st := st0.(running := true);
    storage := storage0;
    trace := [];
    end := Exhausted;
    var consecutive: nat := 0;
    while st.currentIndex < |st.queue|
      invariant InLoop(st0, storage0, platform, events, st, storage, consecutive, trace)
      invariant end == Exhausted
      decreases |st.queue| - st.currentIndex
    {
      var passEnd;
      st, storage, consecutive, trace, passEnd := Pass(st0, storage0, platform, events, st, storage, consecutive, trace);
      if passEnd != Exhausted {
        end := passEnd;
        break;
      }
    }
    if end != Crashed {
      st := st.(running := false);
      storage := storage.(run := None);
    }
  }

  /**
   * One pass of the loop body: leave if Stop was pressed; otherwise save the
   * in-flight snapshot, then either the page reloads (after a Stop press
   * or not) or the step runs and its result is applied, and the breaker
   * trips after five throws in a row.
   */
  method Pass(st0: RunState, storage0: Storage, platform: string, events: nat -> StepEvent,
              st: RunState, storage: Storage, consecutive: nat, trace: seq<Tried>)
    returns (st': RunState, storage': Storage, consecutive': nat, trace': seq<Tried>, end: RunEnd)
    requires InLoop(st0, storage0, platform, events, st, storage, consecutive, trace)
    requires st.currentIndex < |st.queue|
    ensures end == Exhausted ==>
              && InLoop(st0, storage0, platform, events, st', storage', consecutive', trace')
              && st'.currentIndex == st.currentIndex + 1
    ensures end == Stopped ==> !st.running && st' == st && storage' == storage && trace' == trace
    ensures end == Crashed ==>
              var stopPressed := events(|trace|).stopPressed;
              && st.running && events(|trace|).Reload? && trace' == trace
              && st' == st.(running := !stopPressed)
              && storage' == storage.(run := Some(ReloadRecord(st, platform, stopPressed)))
    ensures end == Breaker ==> !st'.running && BreakerEnd(st0, storage0, events, st', storage', trace')
  {
    if !st.running {
      return st, storage, consecutive, trace, Stopped;
    }
    if events(|trace|).Reload? {
      var inFlight := storage.(run := Some(InFlightSnapshot(st, platform)));
      var stopped := if events(|trace|).stopPressed then Stop(st, inFlight) else (st, inFlight);
      return stopped.0, stopped.1, consecutive, trace, Crashed;
    }
    st', storage', consecutive', trace', end := Attempt(st0, storage0, platform, events, st, storage, consecutive, trace);
  }

  /**
   * The part of a pass after the in-flight snapshot is saved and the page
   * did not reload: the step's result is applied, and the breaker trips
   * after five throws in a row.
   */
  method Attempt(st0: RunState, storage0: Storage, platform: string, events: nat -> StepEvent,
                 st: RunState, storage: Storage, consecutive: nat, trace: seq<Tried>)
    returns (st': RunState, storage': Storage, consecutive': nat, trace': seq<Tried>, end: RunEnd)
    requires InLoop(st0, storage0, platform, events, st, storage, consecutive, trace)
    requires st.running && st.currentIndex < |st.queue| && events(|trace|).Step?
    ensures end == Exhausted || end == Breaker
    ensures end == Exhausted ==>
              && InLoop(st0, storage0, platform, events, st', storage', consecutive', trace')
              && st'.currentIndex == st.currentIndex + 1
    ensures end == Breaker ==> !st'.running && BreakerEnd(st0, storage0, events, st', storage', trace')
  {
    var code := st0.queue[st0.currentIndex + |trace|];
    var ev := events(|trace|);
    var t := Tried(code, ev.result);
    var applied := Advance(st, storage.(run := Some(InFlightSnapshot(st, platform))), consecutive, code,
                           ev.result, ev.stopPressed);
    trace' := trace + [t];
    storage' := applied.storage;
    consecutive' := applied.consecutive;
    if consecutive' >= MaxConsecutiveErrors {
      StepTripsBreaker(st0, storage0, platform, events, st, storage, consecutive, trace, t, applied);
      st' := applied.state.(running := false);
      end := Breaker;
    } else {
      StepKeepsLoop(st0, storage0, platform, events, st, storage, consecutive, trace, t, applied);
      st' := applied.state.(currentIndex := applied.state.currentIndex + 1);
      end := Exhausted;
    }
  }

  /** A step that leaves fewer than five throws in a row keeps the loop invariant, one code further on. */
  lemma StepKeepsLoop(st0: RunState, storage0: Storage, platform: string, events: nat -> StepEvent,
                      st: RunState, storage: Storage, consecutive: nat, trace: seq<Tried>, t: Tried, a: Applied)
    requires InLoop(st0, storage0, platform, events, st, storage, consecutive, trace)
    requires st.running && st.currentIndex < |st.queue| && events(|trace|).Step?
    requires t == Tried(st0.queue[st0.currentIndex + |trace|], events(|trace|).result)
    requires a == Advance(st, storage.(run := Some(InFlightSnapshot(st, platform))), consecutive, t.code,
                          events(|trace|).result, events(|trace|).stopPressed)
    requires a.consecutive < MaxConsecutiveErrors
    ensures InLoop(st0, storage0, platform, events, a.state.(currentIndex := a.state.currentIndex + 1),
                   a.storage, a.consecutive, trace + [t])
  {
    AdvanceKeeps(st0, storage0, platform, events, st, storage, consecutive, trace, t, a);
  }

  /** A step that makes five throws in a row ends the loop with the breaker. */
  lemma StepTripsBreaker(st0: RunState, storage0: Storage, platform: string, events: nat -> StepEvent,
                         st: RunState, storage: Storage, consecutive: nat, trace: seq<Tried>, t: Tried, a: Applied)
    requires InLoop(st0, storage0, platform, events, st, storage, consecutive, trace)
    requires st.running && st.currentIndex < |st.queue| && events(|trace|).Step?
    requires t == Tried(st0.queue[st0.currentIndex + |trace|], events(|trace|).result)
    requires a == Advance(st, storage.(run := Some(InFlightSnapshot(st, platform))), consecutive, t.code,
                          events(|trace|).result, events(|trace|).stopPressed)
    requires a.consecutive >= MaxConsecutiveErrors
    ensures BreakerEnd(st0, storage0, events, a.state.(running := false), a.storage, trace + [t])
  {
    AdvanceKeeps(st0, storage0, platform, events, st, storage, consecutive, trace, t, a);
  }

  /**
   * The state when the breaker trips: the trace follows the queue and is
   * accounted for, the last five steps threw, none before did, and the
   * index stays on the code that threw last.
   */
  ghost predicate BreakerEnd(st0: RunState, storage0: Storage, events: nat -> StepEvent,
                             st: RunState, storage: Storage, trace: seq<Tried>)
  {
    && st.queue == st0.queue
    && st.currentIndex == st0.currentIndex + |trace| - 1
    && FollowsQueue(st0.queue, st0.currentIndex, events, trace)
    && Accounts(st0, st, trace)
    && (storage0.ledger == st0.attempted ==> storage.ledger == st.attempted)
    && |trace| > 0 && Quiet(Init(trace))
    && TrailingThrows(trace) == MaxConsecutiveErrors
    && NoStopBefore(events, |trace| - 1)
  }

  /** The first `n` events are steps that throw, with no Stop press before the last of them. */
  ghost predicate ThrowsFirst(events: nat -> StepEvent, n: nat) {
    forall j | 0 <= j < n :: events(j).Step? && events(j).result.Threw? && (j < n - 1 ==> !events(j).stopPressed)
  }

  lemma {:induction false} QuietPrefix(trace: seq<Tried>, k: nat)
    requires Quiet(trace) && k <= |trace|
    ensures Quiet(trace[..k])
    decreases |trace|
  {
    if k < |trace| {
      assert Init(trace)[..k] == trace[..k];
      QuietPrefix(Init(trace), k);
    } else {
      assert trace[..k] == trace;
    }
  }

  lemma {:induction false} QuietBeforeLast(trace: seq<Tried>, k: nat)
    requires |trace| > 0 && Quiet(Init(trace)) && k < |trace|
    ensures Quiet(trace[..k])
  {
    QuietPrefix(Init(trace), k);
    assert Init(trace)[..k] == trace[..k];
  }

  /** Among traces whose first steps all threw, only the breaker can end one that reaches five steps. */
  lemma {:induction false} BreakerCore(trace: seq<Tried>, end: RunEnd)
    requires forall j | 0 <= j < |trace| && j < MaxConsecutiveErrors :: trace[j].result.Threw?
    requires |trace| > 0 ==> Quiet(Init(trace))
    requires end != Breaker ==> Quiet(trace)
    ensures |trace| <= MaxConsecutiveErrors
    ensures |trace| == MaxConsecutiveErrors ==> end == Breaker
  {
    var n := MaxConsecutiveErrors;
    if |trace| > n {
      QuietBeforeLast(trace, n);
      ThrowsAccumulate(trace[..n], n);
    } else if |trace| == n {
      assert trace[..n] == trace;
      ThrowsAccumulate(trace, n);
    }
  }

  /**
   * Five throwing steps in a row, with codes left for all of them, end the
   * loop by the breaker after exactly five steps, whatever the loop's
   * guarantees leave open. A Stop press during the fifth changes nothing:
   * the breaker's `break` comes before the loop checks `running` again.
   */
  lemma FiveThrowsTripBreaker(queue: seq<string>, i0: nat, events: nat -> StepEvent,
                              trace: seq<Tried>, end: RunEnd)
    requires EndedBy(queue, i0, events, trace, end)
    requires ThrowsFirst(events, MaxConsecutiveErrors) && i0 + MaxConsecutiveErrors <= |queue|
    ensures end == Breaker && |trace| == MaxConsecutiveErrors
  {
    forall j | 0 <= j < |trace| && j < MaxConsecutiveErrors
      ensures trace[j].result.Threw?
    {
      assert trace[j].result == events(j).result;
    }
    BreakerCore(trace, end);
    EveryAttemptCountedOnce(trace);
  }

  /**
   * A Stop press while the last queued code is in flight does not end the
   * loop as stopped: the loop condition fails before `running` is checked
   * again, and the loop ends because the queue ran out.
   */
  lemma StopDuringLastCodeExhausts(queue: seq<string>, i0: nat, events: nat -> StepEvent,
                                   trace: seq<Tried>, end: RunEnd)
    requires EndedBy(queue, i0, events, trace, end)
    requires i0 + 1 == |queue| && events(0).Step? && events(0).stopPressed
    ensures end == Exhausted && |trace| == 1 && StopsRun(events(|trace| - 1))
  {
    EveryAttemptCountedOnce(trace);
  }

  // ---------------------------------------------------------------------------
  // Starting a run
  // ---------------------------------------------------------------------------

  /** How `startRedeeming` ended: refused, nothing to do, or a run of the loop. */
  datatype StartOutcome = AlreadyRunning | NoNewCodes | Ran(end: RunEnd)

  /**
   * The state the loop starts from: a resume keeps the restored state; a
   * fresh start prepares the queue and resets the counters and results.
   */
  function RunStart(st: RunState, text: string, isResume: bool): RunState {
    if isResume then st else PrepareQueue(st, text).(errors := 0, success := 0, results := [])
  }

  /**
   * `startRedeeming(isResume)`. Starting while running does nothing; a fresh
   * start whose prepared queue is empty stops after preparing it; otherwise
   * the loop runs from `RunStart`, and unless the page was reloaded the run
   * ends idle with the saved run cleared.
   */
  method StartRedeeming(st0: RunState, storage0: Storage, text: string, isResume: bool, platform: string,
                        events: nat -> StepEvent)
    returns (st: RunState, storage: Storage, trace: seq<Tried>, outcome: StartOutcome)
    ensures outcome == AlreadyRunning <==> st0.running
    ensures outcome == AlreadyRunning ==> st == st0 && storage == storage0 && trace == []
    ensures outcome == NoNewCodes <==> !st0.running && !isResume && PrepareQueue(st0, text).queue == []
    ensures outcome == NoNewCodes ==> st == PrepareQueue(st0, text) && storage == storage0 && trace == []
    ensures outcome.Ran? ==>
              var start := RunStart(st0, text, isResume);
              && EndedBy(start.queue, start.currentIndex, events, trace, outcome.end)
              && st.queue == start.queue && Accounts(start, st, trace)
              && (storage0.ledger == st0.attempted ==> storage.ledger == st.attempted)
              && (outcome.end != Crashed ==> !st.running && storage.run.None?)
              && (outcome.end == Crashed ==>
                    var stopPressed := events(|trace|).stopPressed;
                    st.running == !stopPressed && storage.run == Some(ReloadRecord(st, platform, stopPressed)))
    ensures outcome.Ran? && !isResume ==>
              && st.results == RowsOf(trace)
              && st.success == SuccessesOf(trace)
              && st.errors == ErrorsOf(trace)
    ensures outcome.Ran? && isResume ==>
              && FollowsQueue(st0.queue, st0.currentIndex, events, trace)
              && st.results == st0.results + RowsOf(trace)
              && st.success == st0.success + SuccessesOf(trace)
              && st.errors == st0.errors + ErrorsOf(trace)
  {
    if st0.running {
      return st0, storage0, [], AlreadyRunning;
    }
    if !isResume && PrepareQueue(st0, text).queue == [] {
      return PrepareQueue(st0, text), storage0, [], NoNewCodes;
    }
    var start := RunStart(st0, text, isResume);
    var end;
    st, storage, trace, end := RunLoop(start, storage0, platform, events);
    outcome := Ran(end);
  }

  // ---------------------------------------------------------------------------
  // Resuming
  // ---------------------------------------------------------------------------

  /** With no saved run, or an empty saved queue, Resume leaves everything as it was. */
  lemma ResumeWithoutQueueDoesNothing(st: RunState, saved: Option<SavedRun>, selected: string)
    requires saved.None? || saved.value.queue.None? || saved.value.queue.value == []
    ensures Resume(st, saved, selected) == NoSavedRun
  {
  }

  /**
   * The resume handler as evidently intended: the same filtered queue, with
   * the index moved to the first unattempted code at or after the saved
   * index, so that exactly the unattempted codes from there on are pending.
   */
  function ResumeIntended(st: RunState, saved: Option<SavedRun>, selected: string): (r: Resumption)
    ensures r.NoSavedRun? <==> !HasSavedQueue(saved)
    ensures r.Resumed? ==>
              var q := saved.value.queue.value;
              var k := Min(saved.value.currentIndex.GetOr(0), |q|);
              && r.state.currentIndex <= |r.state.queue|
              && r.state.queue[r.state.currentIndex..] == Unattempted(q[k..], st.attempted)
              && r.state.queue[..r.state.currentIndex] == Unattempted(q[..k], st.attempted)
    ensures r.Resumed? ==>
              && Resume(st, saved, selected).Resumed?
              && r.state == Resume(st, saved, selected).state.(currentIndex := r.state.currentIndex)
              && r.platform == Resume(st, saved, selected).platform
  {
    match Resume(st, saved, selected)
    case NoSavedRun => NoSavedRun
    case Resumed(state, platform) =>
      var q := saved.value.queue.value;
      var k := Min(saved.value.currentIndex.GetOr(0), |q|);
      var before := Unattempted(q[..k], st.attempted);
      assert q == q[..k] + q[k..];
      UnattemptedConcat(q[..k], q[k..], st.attempted);
      assert state.queue == before + Unattempted(q[k..], st.attempted);
      assert state.queue[..|before|] == before;
      Resumed(state.(currentIndex := |before|), platform)
  }

  /**
   * The Resume button with the intended restore: restore the saved run, then
   * `startRedeeming(true)` on the restored platform. The run attempts
   * exactly the unattempted codes from the saved index on, in order, one
   * per step event, and ends for one of the reasons of `EndedBy` over them;
   * when it runs out of codes it has attempted every one of them.
   */
  method ResumeAndRun(st0: RunState, storage0: Storage, selected: string, events: nat -> StepEvent)
    returns (st: RunState, storage: Storage, trace: seq<Tried>, outcome: Option<StartOutcome>)
    ensures outcome.None? <==> !HasSavedQueue(storage0.run)
    ensures outcome.None? ==> st == st0 && storage == storage0 && trace == []
    ensures outcome.Some? ==> (outcome.value == AlreadyRunning <==> st0.running) && outcome.value != NoNewCodes
    ensures outcome.Some? && outcome.value.Ran? ==>
              var saved := storage0.run.value;
              var q := saved.queue.value;
              var pending := Unattempted(q[Min(saved.currentIndex.GetOr(0), |q|)..], st0.attempted);
              && |trace| <= |pending|
              && (forall j | 0 <= j < |trace| :: events(j).Step? && trace[j] == Tried(pending[j], events(j).result))
              && EndedBy(pending, 0, events, trace, outcome.value.end)
              && (outcome.value.end == Exhausted ==> |trace| == |pending|)
              && st.success == saved.success.GetOr(0) + SuccessesOf(trace)
              && st.errors == saved.errors.GetOr(0) + ErrorsOf(trace)
  {
    match ResumeIntended(st0, storage0.run, selected)
    case NoSavedRun =>
      return st0, storage0, [], None;
    case Resumed(restored, platform) =>
      var started;
      st, storage, trace, started := StartRedeeming(restored, storage0, "", true, platform, events);
      outcome := Some(started);
      if started.Ran? {
        ghost var pending := restored.queue[restored.currentIndex..];
        FollowedSuffix(restored.queue, restored.currentIndex, events, trace);
        EndedBySuffix(restored.queue, restored.currentIndex, events, trace, started.end);
        assert EndedBy(pending, 0, events, trace, started.end);
      }
  }

  /** A loop that ended over a queue from an index ended the same way over the queue's suffix from its start. */
  lemma EndedBySuffix(queue: seq<string>, i0: nat, events: nat -> StepEvent, trace: seq<Tried>, end: RunEnd)
    requires i0 <= |queue|
    requires EndedBy(queue, i0, events, trace, end)
    ensures EndedBy(queue[i0..], 0, events, trace, end)
  {
    FollowedSuffix(queue, i0, events, trace);
  }

  /** A trace that follows a queue from an index follows the queue's suffix from its start. */
  lemma FollowedSuffix(queue: seq<string>, i0: nat, events: nat -> StepEvent, trace: seq<Tried>)
    requires i0 <= |queue|
    requires FollowsQueue(queue, i0, events, trace)
    ensures |trace| <= |queue[i0..]|
    ensures forall j | 0 <= j < |trace| :: events(j).Step? && trace[j] == Tried(queue[i0..][j], events(j).result)
  {
    forall j | 0 <= j < |trace|
      ensures events(j).Step? && trace[j] == Tried(queue[i0..][j], events(j).result)
    {
      var tried := trace[j];
      assert events(j).Step? && tried == Tried(queue[i0 + j], events(j).result);
    }
  }

  lemma {:induction false} UnattemptedKeepsUnmarked(codes: seq<string>, ledger: set<string>)
    requires forall c | c in codes :: ToUpper(c) !in ledger
    ensures Unattempted(codes, ledger) == codes
    decreases |codes|
  {
    if |codes| > 0 {
      assert codes[0] in codes;
      assert forall c | c in codes[1..] :: c in codes;
      UnattemptedKeepsUnmarked(codes[1..], ledger);
      assert [codes[0]] + codes[1..] == codes;
    }
  }

  /**
   * When no saved code is in the ledger, nothing is filtered out, and the
   * resume as written and the intended one restore the same state.
   */
  lemma ResumeAgreesWhenNothingMarked(st: RunState, saved: Option<SavedRun>, selected: string)
    requires HasSavedQueue(saved)
    requires forall c | c in saved.value.queue.value :: ToUpper(c) !in st.attempted
    ensures ResumeIntended(st, saved, selected) == Resume(st, saved, selected)
  {
    var q := saved.value.queue.value;
    var k := Min(saved.value.currentIndex.GetOr(0), |q|);
    UnattemptedKeepsUnmarked(q, st.attempted);
    assert forall c | c in q[..k] :: c in q;
    UnattemptedKeepsUnmarked(q[..k], st.attempted);
  }

  lemma {:induction false} FilterSample(a: string, b: string, c: string, d: string)
    requires ToUpper(a) == a && ToUpper(b) == b && ToUpper(c) == c && ToUpper(d) == d
    requires a != b && a != c && a != d
    ensures Unattempted([c, d], {a}) == [c, d]
    ensures Unattempted([a, b], {a}) == [b]
    ensures Unattempted([a, b, c, d], {a}) == [b, c, d]
  {
    assert [d][1..] == [] && [c, d][1..] == [d] && [b][1..] == [] && [a, b][1..] == [b];
    assert [b, c, d][1..] == [c, d] && [a, b, c, d][1..] == [b, c, d];
    assert Unattempted([c, d], {a}) == [c, d];
    assert Unattempted([b, c, d], {a}) == [b, c, d];
  }

  /**
   * A run of `[a, b, c, d]` saves index 2 while `b` is in flight; `a` has
   * been marked. Resuming after a reload filters the whole queue to
   * `[b, c, d]` and keeps the index 2, which now points past `c`, so the
   * run continues at `d`: `c`, never attempted, is skipped. The intended
   * resume skips only the code that was in flight and continues at `c`.
   */
  lemma ResumeSkipsUnattemptedCode(a: string, b: string, c: string, d: string, platform: string, selected: string)
    requires IsCode(a) && IsCode(b) && IsCode(c) && IsCode(d)
    requires a != b && a != c && a != d && c != d
    ensures var inFlight := RunState([a, b, c, d], true, 0, 1, 1, [], {a});
            var saved := Some(InFlightSnapshot(inFlight, platform));
            var asWritten := Resume(InitialState({a}), saved, selected);
            var intended := ResumeIntended(InitialState({a}), saved, selected);
            && asWritten.Resumed? && intended.Resumed?
            && asWritten.state.queue[asWritten.state.currentIndex..] == [d]
            && intended.state.queue[intended.state.currentIndex..] == [c, d]
  {
    CodeShape(a);
    CodeShape(b);
    CodeShape(c);
    CodeShape(d);
    FilterSample(a, b, c, d);
    var q := [a, b, c, d];
    assert q[..2] == [a, b] && q[2..] == [c, d];
    var asWritten := Resume(InitialState({a}), Some(InFlightSnapshot(RunState(q, true, 0, 1, 1, [], {a}), platform)), selected);
    assert asWritten.state.queue == [b, c, d] && asWritten.state.currentIndex == 2;
    assert [b, c, d][2..] == [d];
  }

  /**
   * A fresh start on "foo <code> bar" with an empty ledger queues the one
   * code; a successful step then records one row, one success, no error,
   * and the code in the ledger.
   */
  lemma SampleRunRecordsSuccess(details: string)
    ensures var st := RunStart(InitialState({}), "foo ABCD-1234-EFGH-5678-IJKL bar", false);
            var a := ApplyResult(st, Storage(None, {}), 0, SampleCode, Returned(Status(Success, details)));
            && st.queue == [SampleCode] && st.currentIndex == 0
            && a.state.results == [ResultRow(SampleCode, Success, details)]
            && a.state.success == 1 && a.state.errors == 0
            && a.state.attempted == {SampleCode} && a.storage.ledger == {SampleCode}
  {
    ParseCodeAmongWords();
    EmptyLedgerKeepsAll([SampleCode]);
    SampleCodeIsCode();
    CodeShape(SampleCode);
  }

  /** A text that is only an already-attempted code prepares an empty queue, so a fresh start does nothing. */
  lemma AttemptedCodeIsNotQueued(st: RunState, text: string)
    requires IsCode(ToUpper(text)) && ToUpper(text) in st.attempted
    ensures PrepareQueue(st, text).queue == []
  {
    AttemptedCodeIsSkipped(text, st.attempted);
  }
}
