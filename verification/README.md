# A Dafny model of the SHiFT redeem helper's decision core

`smash_shift_helper.user.js` is a userscript for the SHiFT rewards page. It
takes codes pasted by the user, types each one into the redemption form and
clicks through the confirmation flow. It then classifies the status message
the page shows and keeps a ledger of codes already attempted. It also saves
its progress so that an interrupted batch can be resumed.

This project models the deterministic part of that script. DOM lookups, timers
and storage are replaced by oracle inputs.

| module | file | models |
|---|---|---|
| `Basics` | basics.dfy | `Option` for possibly-missing stored fields, `Min` |
| `Text` | text.dfy | the regular-expression classes `\w` (ASCII) and `\s` (JavaScript's full white-space and line-terminator set), `toUpperCase`/`toLowerCase` on ASCII, `includes`, `join`, and `length` counted in UTF-16 code units |
| `Codes` | codes.dfy | `CODE_RE` as a backtracking left-to-right scanner, the grammar `IsCode` of a normalised code, `parseCodes` with `Set` de-duplication |
| `Classifier` | classifier.dfy | `STATUS_PATTERNS` and the first-match-wins `classifyStatus` |
| `Polling` | polling.dfy | `waitForStatus` over a sequence of poll observations, bounded by timeout ÷ interval |
| `Labels` | labels.dfy | `deepFindClickable` over the visible button labels, and the four label tests its callers pass |
| `Step` | step.dfy | `redeemOne` with `waitForFormReady`, `clickCheck`, `clickRedeemForPlatform`, `clickConfirmIfPresent` and `closeDialogsToasts`, as a function of a `PageOracle` |
| `Ledger` | ledger.dfy | `markAttempted` and `filterUnattempted` |
| `Controller` | controller.dfy | the run state, `prepareQueue`, the Stop and Resume handlers, and `startRedeeming` with its loop |

Two plain definitions underlie several contracts below. `Codes.Matches` and `Codes.Scan` model `String.prototype.match` with the `g` flag on the upper-cased text (line 185): every match, left to right, each scan resuming after the previous match. `Controller.InFlightSnapshot` is the record saved before each code (line 367), with the index already past that code, and `Controller.StopSnapshot` is the record the Stop handler saves (line 347), with `running` false and no platform.

How the pieces fit together:

- **Run loop.** The loop is a method over an `events` oracle. Each event is one of two things:
  - the outcome of `redeemOne` for the code in flight, together with whether Stop was pressed meanwhile;
  - a page reload, which ends the script while that code is in flight, again together with whether Stop was pressed first.
- **Accounting.** The loop's invariant relates the counters, result rows and ledger to folds over the trace of attempted codes.
- **Per-code outcome.** `Step.RedeemOne` derives each outcome from what the page shows.

Three behaviours of the code that the model keeps as written:

- **Resume.** The Resume handler filters the whole saved queue, not only the part from the saved index on. It then clamps the saved index to the filtered length (lines 351-352). This is the subject of the finding below.
- **Clearing the saved run.** The saved run is cleared after every exit from the loop (line 399), including Stop and the circuit breaker. So the record that Stop saves (line 347) survives only when the page reloads before the code in flight finishes. That record has `running` false and keeps the index of the code in flight.
- **Restored fields.** Resume restores the queue, index, counters and platform. It does not restore the results.

## Model

| member | source | states |
|---|---|---|
| Codes.ParseCodes | smash_shift_helper.user.js:184-186 | every extracted string is a code (five dash-joined groups of 4-5 upper-case letters or digits); no duplicates; exactly the values the pattern matches; ordered by first occurrence; empty exactly when the pattern matches nowhere |
| Codes.MatchGroupsSound | smash_shift_helper.user.js:53 | whatever the pattern matches in upper-cased text satisfies the code grammar |
| Codes.MatchGroupsComplete | smash_shift_helper.user.js:53 | a run of dash-joined groups that a non-word character (or the end) follows is matched in full, despite the greedy first try of five characters |
| Codes.MatchAtCode | smash_shift_helper.user.js:53 | a code with non-word characters (or the text's ends) on both sides is matched exactly, from its first to its last character |
| Codes.MatchAt | smash_shift_helper.user.js:53 | a match attempt at a position either fails or ends after that position, inside the text; what it matches is stated by Codes.MatchGroupsSound, Codes.MatchGroupsComplete and Codes.MatchAtCode |
| Codes.NoMatchInsideWord | smash_shift_helper.user.js:53 | no match starts between two word characters; `_` counts as one |
| Codes.ScanSound | smash_shift_helper.user.js:185 | every match the global scan returns is a code |
| Codes.ScanEmpty | smash_shift_helper.user.js:185 | the scan returns nothing exactly when the pattern matches at no position |
| Codes.Dedupe | smash_shift_helper.user.js:185 | the `Set` spread keeps each value once, loses none, and orders them by first occurrence |
| Codes.CodeShape | smash_shift_helper.user.js:53 | a code is 24 to 29 characters long and already upper-case |
| Codes.ParseWholeCode | smash_shift_helper.user.js:184-186 | text that upper-cases to a code yields exactly that code, so extraction ignores case |
| Codes.ParseRepeatedCode | smash_shift_helper.user.js:184-186 | the same code pasted twice is extracted once |
| Codes.ParseCodeAmongWords | smash_shift_helper.user.js:184-186 | "foo ABCD-1234-EFGH-5678-IJKL bar" yields just that code |
| Classifier.Classify | smash_shift_helper.user.js:113-124 | the text is the " \n "-joined input; the kind is one whose patterns match, no kind earlier in the order unavailable > invalid > platform > throttled > success matches, and the kind is unknown exactly when nothing matches |
| Classifier.FirstMatchIsUnique | smash_shift_helper.user.js:113-124 | the first-match rule picks at most one kind for any text |
| Classifier.AlreadyRedeemedBeatsSuccess | smash_shift_helper.user.js:94-117 | a text matching `/already\s+(?:been\s+)?redeemed/i` is unavailable, whatever success words it contains |
| Classifier.SuccessOnlyWithoutFailure | smash_shift_helper.user.js:117-121 | a success classification means no failure pattern matched |
| Classifier.RedeemedMessageIsUnavailable | smash_shift_helper.user.js:92-124 | "This code has already been redeemed" matches the success pattern `/redeemed/` and is still classified unavailable |
| Polling.WaitFrom | smash_shift_helper.user.js:128-136 | from a given poll on, the wait returns the classification of the first accepted poll, or `{unknown, ''}` when none is accepted |
| Polling.WaitForStatus | smash_shift_helper.user.js:126-137 | among the polls that start before the timeout, the result is the classification of the first poll whose text is non-empty, differs from the previous poll's and is classified or longer than 20 UTF-16 code units; otherwise `{unknown, ''}` |
| Polling.PollBound | smash_shift_helper.user.js:128 | the number of polls is the least n with n × interval ≥ timeout |
| Polling.KnownStatusComesFromAPoll | smash_shift_helper.user.js:130-132 | a known kind is always the classification of some accepted poll |
| Polling.RepeatedTextNotAccepted | smash_shift_helper.user.js:130 | a poll showing the same text as the one before never ends the wait |
| Polling.WaitIgnoresLatePolls | smash_shift_helper.user.js:128 | polls that would start after the timeout never affect the result: the wait over all polls equals the wait over the first `PollBound` of them |
| Polling.AstralTextIsLongEnough | smash_shift_helper.user.js:132 | the length test counts UTF-16 code units: a new text of eleven characters outside the Basic Multilingual Plane ends the wait even when it classifies to unknown |
| Text.Utf16Length | smash_shift_helper.user.js:132 | `length` is between the number of characters and twice it, and equals the number of characters exactly when none lies outside the Basic Multilingual Plane |
| Text.Utf16LengthAllAstral | smash_shift_helper.user.js:132 | a string of characters outside the Basic Multilingual Plane has twice as many code units as characters |
| Classifier.RateLimitAcceptsOneCodeUnit | smash_shift_helper.user.js:96 | `/rate.?limit/` matches "rate", any one character that is a single code unit and not a line terminator, then "limit" |
| Classifier.RateLimitRejectsAstral | smash_shift_helper.user.js:96 | `/rate.?limit/` does not match "rate", a character outside the Basic Multilingual Plane, then "limit": `.` takes one code unit of its surrogate pair |
| Labels.FindClickable | smash_shift_helper.user.js:71-81 | the lookup returns the first non-empty label its test accepts, and nothing exactly when no label qualifies |
| Labels.CloseTestAcceptsAnyX | smash_shift_helper.user.js:224-226 | the dismiss test accepts any label that contains the letter x |
| Labels.ConfirmFindsStartButton | smash_shift_helper.user.js:211-216 | on a page whose site buttons all fail the confirmation test, the lookup as written finds the panel's Start Redeeming button, two labels into the panel |
| Labels.FindSiteClickable | smash_shift_helper.user.js:71-81 | the corrected lookup: the first button outside the helper's panel whose label passes the test, and nothing exactly when there is none |
| Labels.SiteLookupAgreesWithoutPanel | smash_shift_helper.user.js:71-81 | on a page without panel buttons the corrected lookup finds what the lookup as written finds |
| Labels.SiteConfirmSkipsPanel | smash_shift_helper.user.js:211-216 | with no site button to confirm, the corrected confirmation lookup finds nothing, so the panel's Start button is never clicked |
| Labels.XboxButtonPassesCloseTest | smash_shift_helper.user.js:224-226 | "Redeem for Xbox Live" passes the dismiss test |
| Step.FirstFound | smash_shift_helper.user.js:198-222 | a polling button lookup clicks the first poll, before its timeout, whose scan finds a clickable label; it finds nothing only when every such poll finds none |
| Step.Dismissals | smash_shift_helper.user.js:223-234 | at most five dismiss buttons are clicked; every scan up to the count found one; and it stops at the first scan that finds none |
| Step.RedeemOne | smash_shift_helper.user.js:247-257 | the step throws exactly when one of three things happens: the form is not ready; the check button is missing; or the platform button is missing and the early status is unknown. A missing platform button otherwise returns the known early status, and a clicked one returns the final status. Each throw carries the source's message |
| Step.ConfirmAndDismissDoNotMatter | smash_shift_helper.user.js:254-256 | what the confirmation and dismissal scans find never changes the step's result |
| Step.UnknownOnlyAfterPlatformClick | smash_shift_helper.user.js:253 | a returned status of kind unknown implies that the platform button was found and clicked |
| Step.ReturnedStatusComesFromPolls | smash_shift_helper.user.js:252-256 | a returned status is read off the page: after a platform click it is the outcome of the 6000 ms wait over the status polls; without one it is the classification of an accepted early poll |
| Ledger.MarkAttempted | smash_shift_helper.user.js:264-266 | afterwards the code is in the set, nothing else was added, and it saved exactly when the set grew |
| Ledger.MarkAttemptedIdempotent | smash_shift_helper.user.js:264-266 | marking a code twice is marking it once, and the second call saves nothing |
| Ledger.Unattempted | smash_shift_helper.user.js:313 | the filter result is a subsequence of the input; which codes it keeps is stated by Ledger.UnattemptedCounts |
| Ledger.UnattemptedCounts | smash_shift_helper.user.js:313 | every occurrence of an unattempted code is kept, and none of an attempted one |
| Ledger.KeptPlusSkipped | smash_shift_helper.user.js:313-314 | kept plus skipped equals the input length |
| Ledger.UnattemptedConcat | smash_shift_helper.user.js:313 | filtering a concatenation filters each part |
| Ledger.UnattemptedIsSetDifference | smash_shift_helper.user.js:313 | on upper-case codes the filter is the set difference with the ledger |
| Ledger.EmptyLedgerKeepsAll | smash_shift_helper.user.js:341-344 | after the history is reset, every code is kept again |
| Ledger.FilterUnattempted | smash_shift_helper.user.js:312-316 | the kept codes are the order-preserving subsequence of unattempted codes; skipped = input − kept = number of attempted codes; it warns exactly when skipped > 0 |
| Controller.UnattemptedKeepsNoDuplicates | smash_shift_helper.user.js:318-319 | filtering a list without duplicates leaves none |
| Controller.PrepareQueue | smash_shift_helper.user.js:317-322 | the queue is a duplicate-free, order-preserving subsequence of the extracted codes. It holds exactly the extracted codes not in the ledger, and the index returns to 0 with everything else unchanged |
| Controller.AttemptedCodeIsSkipped | smash_shift_helper.user.js:312-319 | a pasted code that is already in the ledger is skipped with a warning counting 1 |
| Controller.AttemptedCodeIsNotQueued | smash_shift_helper.user.js:358-360 | a text that holds only an already-attempted code prepares an empty queue, so a fresh start does nothing |
| Controller.Stop | smash_shift_helper.user.js:346-348 | afterwards the run is not running; a running run is stopped and its state saved with `running` false; a stopped one is left alone; the ledger is untouched |
| Controller.Resume | smash_shift_helper.user.js:349-356 | no saved queue means nothing happens. Otherwise the queue is the saved queue filtered against the ledger, and the index is min(saved index or 0, filtered length). Each code occurs in the new queue as often as in the saved one when it is unattempted, and not at all otherwise. Counters default to 0, the saved platform wins when it is non-empty, and nothing else changes |
| Controller.ResumeWithoutQueueDoesNothing | smash_shift_helper.user.js:350 | a missing record or an empty saved queue leaves everything as it was |
| Controller.ApplyResult | smash_shift_helper.user.js:370-396 | a returned status adds one row, marks the code and resets the consecutive counter. Success adds a success, the four problem kinds add an error, and unknown adds neither. A throw adds one error and one consecutive error and no row. The ledger saved in storage keeps up with the in-memory one |
| Controller.Advance | smash_shift_helper.user.js:346-396 | a Stop pressed while a code is in flight ends the run after that code's result is applied, and saves the stop record |
| Controller.EveryAttemptCountedOnce | smash_shift_helper.user.js:376-395 | successes + errors + unknowns equals the number of attempts; there are no more rows than attempts |
| Controller.ThrowsAccumulate | smash_shift_helper.user.js:395 | k throws in a row leave the consecutive-error counter at least k |
| Controller.RunLoop | smash_shift_helper.user.js:363-399 | the attempted codes are the queue's from the start index, one per event. The counters, rows and ledger are the start values plus the trace's folds. There is no Stop press before the last step. The loop ends with a reason the trace supports: the queue ran out; Stop was pressed during the last step and codes remain; the last five steps threw (the index staying on the last throw); or, with no Stop press during any step, the page reloaded while the next code was in flight. A reload leaves the in-flight snapshot saved, or the Stop record when Stop was pressed before it, and `running` false exactly in the second case. Unless reloaded, the run ends idle with the saved run cleared |
| Controller.Pass | smash_shift_helper.user.js:364-397 | a pass leaves the loop unchanged when Stop was pressed; a reload while the code is in flight ends the script with the in-flight snapshot (index + 1) saved, or with the Stop record (index of the code in flight, `running` false) when Stop was pressed first; otherwise the loop invariant holds one code further on, or the breaker trips |
| Controller.Attempt | smash_shift_helper.user.js:369-397 | applying a step keeps the loop invariant one code further on, or trips the breaker with exactly five trailing throws |
| Controller.FiveThrowsTripBreaker | smash_shift_helper.user.js:395-396 | five throwing steps in a row, with codes left for them, end the run by the breaker after exactly five attempts, even when Stop is pressed during the fifth |
| Controller.StopDuringLastCodeExhausts | smash_shift_helper.user.js:364-365 | a Stop pressed while the last queued code is in flight ends the loop as exhausted after that one attempt, since the loop condition fails before `running` is checked |
| Controller.StartRedeeming | smash_shift_helper.user.js:357-401 | starting while running does nothing. A fresh start with an empty prepared queue only prepares it. Otherwise the loop runs and ends for one of the loop's reasons over the queue it starts from, with the loop's guarantees about storage: a fresh start resets the counters and rows, and a resume continues from the restored ones |
| Controller.SampleRunRecordsSuccess | smash_shift_helper.user.js:357-377 | a fresh start on "foo ABCD-1234-EFGH-5678-IJKL bar" queues that code; its success leaves one row, one success, no error, and the code in the ledger |
| Controller.ResumeSkipsUnattemptedCode | smash_shift_helper.user.js:349-356 | for queue [a, b, c, d] with a marked and b in flight, the resume as written continues at d, while the intended resume continues at c |
| Controller.ResumeIntended | smash_shift_helper.user.js:349-356 | the corrected resume: the pending codes are exactly the unattempted codes from the saved index on, and those before the index are exactly the unattempted ones before it; otherwise it agrees with the handler |
| Controller.ResumeAgreesWhenNothingMarked | smash_shift_helper.user.js:351-352 | when no saved code is in the ledger, the handler as written and the corrected one restore the same state |
| Controller.ResumeAndRun | smash_shift_helper.user.js:349-356 | the Resume button with the corrected restore: the run attempts the unattempted codes from the saved index on, in order, one per step event, and continues the saved counters. It ends for one of the loop's reasons over those pending codes; when it runs out of codes it has attempted all of them |

## Left out

- Browser storage (`localStorage`, `GM_getValue`/`GM_setValue`/`GM_deleteValue`). It is a `Storage` value read and written by the operations. Storage errors, which the script swallows, are not modelled.
- The tracker-site bridge (`__sendCodeToHelper`, `pollForQueuedCodes`). It is cross-origin asynchronous I/O.
- The panel's drawing and minimising, `log`, `setStats`, the CSV export and the Save List button. These are UI and file plumbing that leave the run state alone.
- Closing the panel (line 171). The `MutationObserver` (lines 408-410) then rebuilds it and calls `attach`, which creates a fresh run state (lines 305-307). A loop still running keeps the old state, so the new Stop and Resume buttons cannot reach it, and Start can begin a second loop writing the same storage. The model has a single run state and does not cover this.
- The Load List button's storage read and JSON parsing (lines 328-332). What it does to the run state is `prepareQueue` on the loaded codes joined by newlines, which is Controller.PrepareQueue on that text.
- `bootstrap`, the `MutationObserver`, and the automatic click on Resume after a reload. A reload appears only as the `Reload` event that ends a run.
- `sleep`, `setTimeout`, `setInterval` and `Date.now`. Every timed wait is a count of polls.
- DOM traversal and event dispatch (`deepNodes`, `deepFindInputNearCode`, `grabStatusTexts`, `.click()`, input events). Their results are the `PageOracle` fields: labels of visible buttons in `deepNodes` order (an element's light children before its shadow root), form readiness per poll, and status texts per poll.
- `isVisible`. It depends on floating-point layout and computed style.
- Upper- and lower-casing of non-ASCII characters. Only ASCII letters have case in this model.
- Lone surrogates. A Dafny string holds Unicode scalar values, so a JavaScript string with an unpaired surrogate code unit has no counterpart; every other string's `length` is `Text.Utf16Length`.
- Handlers that run while a run is in progress: Resume; Load List, a paste and the tracker bridge (line 288), which all call `prepareQueue` and can replace the queue and reset the index; Reset History; Start, pressed by the user or clicked by the script itself (next line); and closing the panel, after which a second `attach` can start a second loop. Each handler is modelled on its own, and the run loop assumes none of them interleaves with it.
- The panel's own buttons as click targets. The panel is appended to the end of the body (line 170), and its visible buttons are among the labels every lookup scans. The confirmation lookup's test (line 214) accepts "Start Redeeming" (line 162), so on a page with no site button to confirm it clicks Start (Labels.ConfirmFindsStartButton). While the run is going this only logs "Already running." (line 358). After a Stop during the current code it starts a fresh run on the same state, beside the loop that is still finishing (lines 359-363). The model keeps one loop and does not follow that click; the Findings table records the lookup that skips the panel. Likewise the dismiss lookup would click Export Results, which contains an x, when the advanced options are open.
- Reset History (lines 341-345) only empties the ledger. Its effect on filtering is `Ledger.EmptyLedgerKeepsAll`.
- A saved platform that is not one of the select's options. Setting such a value selects no option in the browser; the model uses the saved string as is.
- Codes.MatchAt: its own contract only bounds where a match ends. The grammar of what it matches is proved separately, in Codes.MatchGroupsSound and Codes.MatchGroupsComplete.
- Ledger.Unattempted: its own contract states only that the result is a subsequence. The exact kept codes are proved in Ledger.UnattemptedCounts and Ledger.FilterUnattempted.
- Polling.PollBound: counts the polls as if each scan took no time. On a slow page fewer polls fit before the timeout, so the model's count is an upper bound.
- Controller.RunLoop: consumes `redeemOne` outcomes as an oracle rather than calling `Step.RedeemOne`. The two are linked only through the shared `StepResult` type.

## Findings

| source | as written | input that shows it | evidently intended | confidence | as-written member | corrected member |
|---|---|---|---|---|---|---|
| smash_shift_helper.user.js:351-352 | Resume filters the whole saved queue against the ledger but keeps the saved index, which counts positions in the unfiltered queue (clamped to the new length) | queue [a, b, c, d]; a succeeded and is in the ledger; the page reloads while b is in flight, so index 2 is saved; resume filters to [b, c, d] and starts at index 2, which is d, so c is never attempted | the index should count only the unattempted codes before the saved index, so the run continues at c, skipping only the code that was in flight | not executed | Controller.ResumeSkipsUnattemptedCode | Controller.ResumeIntended |
| smash_shift_helper.user.js:211-216 | the confirmation lookup scans every visible button, the helper's own panel included, and its test `/confirm\|redeem\|claim\|accept\|continue/i` accepts the panel's "Start Redeeming" | a page where the site shows no confirm button after the platform click: the panel (appended last to the body) is scanned and Start Redeeming is clicked; after a Stop this restarts the run | the lookup should consider only the site's buttons and find nothing here | not executed | Labels.ConfirmFindsStartButton | Labels.FindSiteClickable |
