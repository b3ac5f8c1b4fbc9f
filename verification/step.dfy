/**
 * The per-code step engine: `redeemOne` and the helpers it awaits
 * (`waitForFormReady`, `clickCheck`, `clickRedeemForPlatform`,
 * `clickConfirmIfPresent`, `closeDialogsToasts`). The live page is replaced
 * by a `PageOracle` recording what each poll of each step would observe.
 * Pauses are left out. Clicks are modelled only through what the next
 * observations show; the labels a lookup sees include the helper's own
 * panel buttons, and what clicking one of those does to the run (the
 * confirmation lookup can click Start Redeeming) is outside this module.
 */
module Step {
  import opened Basics
  import opened Labels
  import opened Classifier
  import opened Polling

  const FormReadyTimeoutMs: nat := 12000
  const FormReadyPollMs: nat := 200
  const RedeemButtonWaitMs: nat := 7000
  const ConfirmWaitMs: nat := 3500
  const ButtonPollMs: nat := 150
  const EarlyStatusTimeoutMs: nat := 1000
  const StatusScanTimeoutMs: nat := 6000
  /** `closeDialogsToasts` clicks at most this many dismiss buttons. */
  const MaxDismissals: nat := 5

  /**
   * What the page shows during one code's steps. `formPolls[k]` says whether
   * poll `k` of `waitForFormReady` found an enabled, visible code input; each
   * `seq<string>` of labels is one `deepFindClickable` scan; each status poll
   * is one `grabStatusTexts` result.
   */
  datatype PageOracle = PageOracle(
    formPolls: seq<bool>,
    checkLabels: seq<string>,
    platformPolls: seq<seq<string>>,
    earlyStatusPolls: seq<seq<string>>,
    confirmPolls: seq<seq<string>>,
    statusPolls: seq<seq<string>>,
    closeScans: seq<seq<string>>)

  /** How one call of `redeemOne` ends: it returns a status or throws an error. */
  datatype StepResult = Returned(status: Status) | Threw(message: string)

  const FormNotReadyMessage: string := "Form did not become ready for the next code."
  const CheckMissingMessage: string := "Could not find the \"Check/Submit\" button."

  function PlatformMissingMessage(platform: string): string {
    "Could not find the \"Redeem for " + platform + "\" button."
  }

  /** `waitForFormReady` succeeds: one of its polls before the timeout finds the input. */
  predicate FormReady(page: PageOracle) {
    exists k | 0 <= k < Min(|page.formPolls|, PollBound(FormReadyTimeoutMs, FormReadyPollMs)) :: page.formPolls[k]
  }

  /**
   * A polling button lookup (`clickRedeemForPlatform`, `clickConfirmIfPresent`):
   * the first of the polls started before the timeout whose scan finds a
   * clickable label.
   */
  function FirstFound(polls: seq<seq<string>>, test: ButtonTest, waitMs: nat): (r: Option<nat>)
    ensures r.Some? ==> r.value < Min(|polls|, PollBound(waitMs, ButtonPollMs))
    ensures r.Some? ==> FindClickable(polls[r.value], test).Some?
    ensures r.Some? ==> forall j | 0 <= j < r.value :: FindClickable(polls[j], test).None?
    ensures r.None? ==> forall j | 0 <= j < Min(|polls|, PollBound(waitMs, ButtonPollMs)) :: FindClickable(polls[j], test).None?
  {
    FirstFoundFrom(polls, test, Min(|polls|, PollBound(waitMs, ButtonPollMs)), 0)
  }

  function FirstFoundFrom(polls: seq<seq<string>>, test: ButtonTest, n: nat, i: nat): (r: Option<nat>)
    requires i <= n <= |polls|
    ensures r.Some? ==> i <= r.value < n && FindClickable(polls[r.value], test).Some?
    ensures r.Some? ==> forall j | i <= j < r.value :: FindClickable(polls[j], test).None?
    ensures r.None? ==> forall j | i <= j < n :: FindClickable(polls[j], test).None?
    decreases n - i
  {
    if i == n then None
    else if FindClickable(polls[i], test).Some? then Some(i)
    else FirstFoundFrom(polls, test, n, i + 1)
  }

  /** The check button is found by the single scan of `clickCheck`. */
  predicate CheckFound(page: PageOracle) {
    FindClickable(page.checkLabels, CheckTest).Some?
  }

  /** `clickRedeemForPlatform` finds the "redeem for <platform>" button before its timeout. */
  predicate PlatformFound(page: PageOracle, platform: string) {
    FirstFound(page.platformPolls, RedeemForTest(platform), RedeemButtonWaitMs).Some?
  }

  /**
   * `closeDialogsToasts`: the number of dismiss buttons clicked. It stops at
   * the first scan that finds none and after five clicks.
   */
  function Dismissals(scans: seq<seq<string>>): (r: nat)
    ensures r <= MaxDismissals && r <= |scans|
    ensures forall j | 0 <= j < r :: FindClickable(scans[j], CloseTest).Some?
    ensures r < MaxDismissals && r < |scans| ==> FindClickable(scans[r], CloseTest).None?
  {
    DismissFrom(scans, 0)
  }

  function DismissFrom(scans: seq<seq<string>>, i: nat): (r: nat)
    requires i <= MaxDismissals && i <= |scans|
    ensures i <= r <= MaxDismissals && r <= |scans|
    ensures forall j | i <= j < r :: FindClickable(scans[j], CloseTest).Some?
    ensures r < MaxDismissals && r < |scans| ==> FindClickable(scans[r], CloseTest).None?
    decreases MaxDismissals - i
  {
    if i == MaxDismissals || i == |scans| || FindClickable(scans[i], CloseTest).None? then i
    else DismissFrom(scans, i + 1)
  }

  /**
   * `redeemOne(code, platform)`. A missing form or check button throws. When
   * the platform button never appears, an early status of a known kind is
   * returned instead, and otherwise the step throws. When the button is
   * clicked, the status read after the best-effort confirmation is returned,
   * whatever its kind; dismissing dialogs afterwards cannot change it.
   */
  function RedeemOne(page: PageOracle, platform: string): (r: StepResult)
    ensures r.Returned? ==> FormReady(page) && CheckFound(page)
    ensures r.Returned? && !PlatformFound(page, platform) ==>
              r.status.kind != Unknown && r.status == WaitForStatus(EarlyStatusTimeoutMs, page.earlyStatusPolls)
    ensures r.Returned? && PlatformFound(page, platform) ==>
              r.status == WaitForStatus(StatusScanTimeoutMs, page.statusPolls)
    ensures r.Threw? <==>
              || !FormReady(page)
              || !CheckFound(page)
              || (!PlatformFound(page, platform) && WaitForStatus(EarlyStatusTimeoutMs, page.earlyStatusPolls).kind == Unknown)
    ensures r.Threw? ==>
              r.message == if !FormReady(page) then FormNotReadyMessage
                           else if !CheckFound(page) then CheckMissingMessage
                           else PlatformMissingMessage(platform)
  {
    if !FormReady(page) then Threw(FormNotReadyMessage)
    else if !CheckFound(page) then Threw(CheckMissingMessage)
    else if !PlatformFound(page, platform) then
      var early := WaitForStatus(EarlyStatusTimeoutMs, page.earlyStatusPolls);
      if early.kind != Unknown then Returned(early) else Threw(PlatformMissingMessage(platform))
    else
      Returned(WaitForStatus(StatusScanTimeoutMs, page.statusPolls))
  }

  /** Confirmation and dismissal are best effort: what they find never changes the step's result. */
  lemma ConfirmAndDismissDoNotMatter(page: PageOracle, platform: string, confirms: seq<seq<string>>, closes: seq<seq<string>>)
    ensures RedeemOne(page.(confirmPolls := confirms, closeScans := closes), platform) == RedeemOne(page, platform)
  {
  }

  /** An early status only replaces the missing platform button when it is of a known kind. */
  lemma UnknownOnlyAfterPlatformClick(page: PageOracle, platform: string, s: Status)
    ensures RedeemOne(page, platform) == Returned(s) && s.kind == Unknown ==> PlatformFound(page, platform)
  {
  }

  /**
   * The status a step returns is read off the page: after a platform click
   * it is the outcome of the 6000 ms wait over the status polls, and without
   * one it is the classification of an accepted early poll.
   */
  lemma ReturnedStatusComesFromPolls(page: PageOracle, platform: string)
    ensures var r := RedeemOne(page, platform);
            r.Returned? && PlatformFound(page, platform) ==>
              WaitOutcome(page.statusPolls, 0, Min(|page.statusPolls|, PollBound(StatusScanTimeoutMs, StatusScanIntervalMs)), r.status)
    ensures var r := RedeemOne(page, platform);
            r.Returned? && !PlatformFound(page, platform) ==>
              exists k | 0 <= k < |page.earlyStatusPolls| ::
                Accepted(page.earlyStatusPolls, k) && r.status == Classify(page.earlyStatusPolls[k])
  {
    var r := RedeemOne(page, platform);
    if r.Returned? && !PlatformFound(page, platform) {
      KnownStatusComesFromAPoll(EarlyStatusTimeoutMs, page.earlyStatusPolls);
    }
  }
}
