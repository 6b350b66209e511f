# Verified models of the acceptance and evaluation cores

This project models, in Dafny, the parts of the repository whose correctness rests on state, counting and order, and proves
what they promise for every input and every run. `dafny verify dfyconfig.toml` checks all of it. There are five groups of modules.

**Single sign-on fixture** (`Sso*.dfy`). Both ends of an authorization-code flow with PKCE (section 4.1 of RFC 6749, sections
4.2 and 4.6 of RFC 7636) share six expiring tables, a receipt journal and a latched failure flag. `SsoModel` is the atomic step of
one request over values; `SsoFixture` is the class that updates the tables in place, each method proved to take exactly that
step. `SsoHistory` and `SsoRuns` prove, over every run, that states, codes, forms and sessions are used once and where each
session comes from; `SsoJournal` proves the order of receipts at every journal prefix, and that nothing is released before its
receipt; `SsoLimits` proves when the table limits hold; `SsoLazy` proves that eager pruning answers exactly like a specification
that never deletes an expired row; `SsoPresented` ties every event to the request that made it and to what that request
presented; `SsoAnswers` proves that every form, code, session and cookie an answer hands out is a row of the new tables for the
browser that asked, and `SsoJourney` that a browser which only follows the answers signs in and reads its account; `SsoTiming` proves when reads stay within six minutes of the start, and `SsoSlow` is one
concrete late read.

**Charged-attempt audit** (`Cloud*.dfy`, with `Sums.dfy`, `Sorting.dfy`, `Sets.dfy` and `Sides.dfy`). A collector report, the charged ledger and an
independent SQL journal are reconciled against a frozen plan of 252 calls while nullable token counts are folded under 64-bit
overflow checks. `CloudAudit.AcceptedMeans` is what an accepted window proves, `CloudPass.PassMeans` what a pass adds, and
`CloudAnswers.PassConforms` what it says about the answers themselves.

**Continuation chain** (`Memory*.dfy`). A partly spent experiment is continued through at most five sealed prefixes and one
renewal. `MemoryMatrix` says what the frozen matrix shows of each case and when freezing is refused. No slot is ever sampled twice, expenses and units accumulate exactly, and the deadline moves only by the renewal.

**Schemas and canonical JSON** (`CanonicalJson.dfy`, `JsonDecoder.dfy`, `JsonOrder.dfy`, `JsonReorder.dfy`,
`SchemaTranslation.dfy`, `ResponseCheck.dfy`, `SchemaMeaning.dfy`, `Ordering.dfy`). A bounded parser and a key-sorting printer undo each other on token streams (objects as in section 4 of RFC
8259), and a schema translation that drops constraints is matched by a checker that restores them.

**Three algorithms** (`GroupSplits.dfy`, `RangeDownload.dfy`, `EffortWindow.dfy`). Union-find with minimum roots and the
group-safe splits made from it, a parallel range download into one file, and a transactional reservation window.

Choices that hold throughout: a digest or derived identifier is a constructor around what is hashed, so equal digests mean equal
contents; a random value is the next number of a counter; each clock reading of a request is its own input; a transaction commits
or rolls back as one step, or, in `EffortWindow`, statement by statement; decoded records come in as values.

Where the code and what is said about it differ, the code is modelled:

- `cmd/browser-sso-eval/README.md` line 53 promises at most 128 codes. The automatic authorization at lines 379-390 of
  `fixture.go` does not check the table, so that limit holds in every run exactly when that option is off, while the
  other five always hold (`SsoLimits.LimitsExactly`); with it, n requests leave n codes (`SsoLimits.FloodOverflows`).
- Three minutes for the flow and three for the session suggest that no account read comes six minutes after its start. The
  callback reads the clock again when it dates the session, so the bound holds up to the time its handler took
  (`SsoRuns.ReadsAreTimely`). `SsoTiming.SixMinutes` says, over every run and every way it can go on, exactly when it
  holds, and `SsoSlow.SixMinutesCanPass` is a run where it fails.
- Several checks of the window audit cannot fire once the others have passed: repeated ordinals, contexts and selections, the
  gap check on ordinals, and charges out of order after sorting. `CloudLedger.CheckLedger` and `CloudSequence.CheckSequence`
  execute them and are proved to accept exactly what the specification without them accepts.

## Model

| member | source | states |
|---|---|---|
| SsoRuns.RunKeeps | cmd/browser-sso-eval/fixture.go:231-447 | after every run every event is justified by earlier ones and all six tables agree with the history |
| SsoRuns.SingleUse | cmd/browser-sso-eval/fixture.go:316-335 | in every run no two accepted callbacks share a state, a code or a session |
| SsoRuns.FormsSingleUse | cmd/browser-sso-eval/fixture.go:401-443 | a served form yields at most one login receipt and at most one code |
| SsoRuns.SessionProvenance | cmd/browser-sso-eval/fixture.go:284-335 | every session traces to a start by the browser binding that the callback itself presented, a code for that state issued less than three minutes before whose challenge digests that start's verifier, and a receipt vouching for it |
| SsoPresented.RequestOf | cmd/browser-sso-eval/fixture.go:231-244 | every event of every run was made by one of its requests, which presented the cookies, query and credentials the event tells of |
| SsoPresented.SessionRequests | cmd/browser-sso-eval/fixture.go:284-335 | behind every session are an earlier start request that presented the same binding cookie as the callback, and an earlier login with the configured credentials or, with that option on, an automatic authorization |
| SsoPresented.ReadRequests | cmd/browser-sso-eval/fixture.go:336-346 | behind every read is an earlier callback request that presented the same binding cookie and was given the session the read presents |
| SsoPresented.OnlyOwnFlow | cmd/browser-sso-eval/fixture.go:316-321 | whoever presents another binding than the one that started a flow cannot complete it, whatever state and code it presents |
| SsoPresented.SignInPresented | cmd/browser-sso-eval/fixture.go:316-321 | a sign-in means that the presented binding is alive, started the flow less than three minutes ago, and that the presented code was issued for it less than three minutes ago |
| SsoPresented.ReadPresented | cmd/browser-sso-eval/fixture.go:336-346 | an answered account page means that the presented session was issued to the presented, still living binding less than three minutes ago |
| SsoPresented.LoginPresented | cmd/browser-sso-eval/fixture.go:401-443 | a code released by login means that the presented form was served to the presented, still living provider binding less than three minutes ago and the credentials are the configured ones |
| SsoPresented.StartPresented | cmd/browser-sso-eval/fixture.go:284-298 | a flow starts only for a presented binding issued less than fifteen minutes ago |
| SsoAnswers.StepDelivers | cmd/browser-sso-eval/fixture.go:252-447 | from any store: a login page carries a stored form for the asked state and challenge, bound to the provider binding the browser now holds; a redirect carries a stored code for exactly that state and challenge, or a stored flow of the presented binding with the digest of its verifier; the session cookie is a stored session of the presented binding; each with its lifetime and status |
| SsoJourney.RunDelivers | cmd/browser-sso-eval/fixture.go:252-447 | the same of every answer of every run |
| SsoJourney.SignsInByForm | cmd/browser-sso-eval/fixture.go:257-443 | from any store with room and a working journal, the home page, the start, the authorization, the login, the callback and the account page, each made only from earlier answers and within the lifetimes, are answered with a completed sign-in and the private account |
| SsoJourney.SignsInByRedirect | cmd/browser-sso-eval/fixture.go:257-391 | with automatic authorization five such requests are enough |
| SsoJourney.HonestRoundTrip | cmd/browser-sso-eval/fixture.go:257-443 | the same after every run whose journal never failed |
| SsoJourney.TripFollows | cmd/browser-sso-eval/fixture.go:257-443 | from every store, with any cookies and at any times, there is a trip that only follows the answers |
| SsoRuns.OpenSessionsAreAccepted | cmd/browser-sso-eval/fixture.go:332-334 | every row of the account table was created by an accepted callback of its browser and expires three minutes after it |
| SsoRuns.ReadsAreTimely | cmd/browser-sso-eval/fixture.go:336-346 | every account read follows the callback that gave the presented session to the presented binding, within 15 minutes of the binding and three minutes of the session, hence within six minutes of the start plus the callback's own handling time |
| SsoTiming.SixMinutes | cmd/browser-sso-eval/fixture.go:316-346 | for every run that has just signed in under a non-decreasing clock: in every continuation all reads of the session come less than six minutes after the start, if and only if the session was issued within three minutes of the start, or the binding ends within those six minutes or before the session is issued |
| SsoTiming.PromptReads | cmd/browser-sso-eval/fixture.go:336-346 | in every run no read of a promptly accepted session comes six minutes after the start |
| SsoTiming.LateRead | cmd/browser-sso-eval/fixture.go:316-346 | otherwise the run has a non-decreasing continuation that reads the account six minutes or more after the start |
| SsoTiming.RunDated | cmd/browser-sso-eval/fixture.go:326-346 | under a non-decreasing clock no read is dated before a session issued earlier, and its two checks are in order |
| SsoSlow.SixMinutesCanPass | cmd/browser-sso-eval/fixture.go:316-346 | a concrete non-decreasing run signs in with a stalled callback, whose acceptance is not prompt, and reads the account six minutes after the start |
| SsoJournal.EveryPrefix | cmd/browser-sso-eval/fixture.go:116-129 | every journal prefix of every run is numbered 1, 2, 3, has no more callbacks than logins plus automatic authorizations, and no read before a callback |
| SsoJournal.RunJournalled | cmd/browser-sso-eval/fixture.go:299-346 | the journal of every run is the projection of its history |
| SsoJournal.FailureIsFinal | cmd/browser-sso-eval/fixture.go:231-236 | once a journal write failed no later request changes anything or is answered with more than a refusal |
| SsoJournal.ReleaseNeedsReceipt | cmd/browser-sso-eval/fixture.go:326-346 | a code, a session or the private page leaves only after the matching receipt was acknowledged in the same step |
| SsoLimits.LimitsHold | cmd/browser-sso-eval/fixture.go:246-447 | in every run five tables stay within 128, 128, 64, 64 and 128 rows under every configuration, and the code table within 128 without automatic authorization |
| SsoLimits.FloodOverflows | cmd/browser-sso-eval/fixture.go:379-390 | with automatic authorization n requests leave n codes |
| SsoLimits.LimitsExactly | cmd/browser-sso-eval/fixture.go:370-415 | five tables keep their limits in every run under every configuration; the code table keeps its limit in every run if and only if automatic authorization is off |
| SsoLazy.EagerRefinesLazy | cmd/browser-sso-eval/fixture.go:130-162 | under a non-decreasing clock pruning gives exactly the answers and live rows of a specification that never deletes |
| SsoFixture.PruneTable | cmd/browser-sso-eval/fixture.go:130-162 | the loop keeps exactly the rows that expire strictly later |
| SsoFixture.Fixture.constructor | cmd/browser-sso-eval/fixture.go:111-115 | the fixture starts with six empty tables and nothing recorded |
| SsoFixture.Fixture.Opaque | cmd/browser-sso-eval/fixture.go:100-106 | each drawn value is new |
| SsoFixture.Fixture.Prune | cmd/browser-sso-eval/fixture.go:130-162 | all six tables keep exactly their live rows |
| SsoFixture.Fixture.Home | cmd/browser-sso-eval/fixture.go:252-265 | binds a browser only if it has no live binding and the table has room |
| SsoFixture.Fixture.Start | cmd/browser-sso-eval/fixture.go:284-298 | opens a flow with a new state and verifier for a bound browser |
| SsoFixture.Fixture.Exchange | cmd/browser-sso-eval/fixture.go:316-335 | exchanges state and code for a session exactly when both are live and belong together and to this browser |
| SsoFixture.Fixture.Accept | cmd/browser-sso-eval/fixture.go:326-334 | consumes state and code, and opens the session only once the receipt is acknowledged |
| SsoFixture.Fixture.Grant | cmd/browser-sso-eval/fixture.go:378-391 | serves a form and puts its token into the page, or issues a code at once where that option is on; `SsoAnswers.StepDelivers` says what the answer hands out |
| SsoFixture.Fixture.Record | cmd/browser-sso-eval/fixture.go:116-129 | a receipt is numbered and acknowledged, or the failure flag is latched for good |
| SsoFixture.Fixture.Callback | cmd/browser-sso-eval/fixture.go:302-335 | the handler takes the model's callback step, whose one-use and provenance properties are proved over runs |
| SsoFixture.Fixture.Authorize | cmd/browser-sso-eval/fixture.go:356-400 | the handler takes the model's authorization step |
| SsoFixture.Fixture.Login | cmd/browser-sso-eval/fixture.go:401-443 | the handler takes the model's login step, spending the form before anything else |
| SsoFixture.Fixture.Account | cmd/browser-sso-eval/fixture.go:336-346 | the handler takes the model's account step |
| SsoFixture.Fixture.Handle | cmd/browser-sso-eval/fixture.go:231-244 | one request is one step: failure check, pruning, then the handler |
| CloudCost.Cost.Add | internal/acceptance/cloud_observation.go:450-483 | adds one attempt exactly, or refuses exactly when a subtotal would pass the largest 64-bit integer |
| CloudCost.AddCount | internal/acceptance/cloud_observation.go:451-462 | a known count is added within 64 bits, an unknown one is counted and ends full knowledge |
| CloudCost.FoldCost | internal/acceptance/cloud_observation.go:450-483 | folding valid attempts fails exactly when a true total overflows, and otherwise gives every exact sum, the peak, and full knowledge exactly when nothing is unknown |
| CloudCost.CheckValid | internal/acceptance/cloud_observation.go:304-336 | accepts exactly the attempts whose identities, times, counts and outcome can be believed |
| CloudCost.CostPermutes | internal/acceptance/cloud_observation.go:450-483 | the order of the attempts matters neither for failing nor for the sums |
| CloudCost.FullCostCovers | internal/acceptance/cloud_observation.go:328-335 | when the full cost is known, the known total is at least known input plus known output |
| CloudPlan.ValidateCorpus | internal/acceptance/cloud_v4_contract.go:90-170 | accepts exactly the corpora with 30 sound groups whose families stay on one side of the split, 240 sound cases, two of each kind per group, 4 blocked, 96, 64 and 76 eligible, and four comparable cases of distinct kinds |
| CloudPlan.FamiliesStayApart | internal/acceptance/cloud_v4_contract.go:102-107 | in a valid corpus groups that share a semantic or an attack family share the split |
| Sides.CheckSides | internal/acceptance/memory_contract.go:136-179 | the table of sides refuses exactly a key found on two sides |
| Sides.Note | internal/acceptance/cloud_v4_contract.go:102-107 | notes the side of a key, or refuses exactly a key noted with another side |
| CloudPlan.IndexGroups | internal/acceptance/cloud_v4_contract.go:95-114 | accepts exactly distinct sound groups none of whose families is found in two splits, and counts them by split |
| CloudPlan.IndexCases | internal/acceptance/cloud_v4_contract.go:115-152 | accepts exactly distinct cases of known groups with bounded texts and documents whose golden answer is exact and without findings, and counts blocked, eligible and group-kind cells |
| CloudPlan.CheckCase | internal/acceptance/cloud_v4_contract.go:115-145 | accepts exactly a sound case whose golden answer passes its own grading |
| CloudPlan.CheckCells | internal/acceptance/cloud_v4_contract.go:152-158 | accepts exactly two cases of every kind in every group |
| CloudPlan.CheckComparison | internal/acceptance/cloud_v4_contract.go:163-170 | accepts exactly development cases open to the model, of pairwise distinct kinds |
| CloudPlan.MakePlan | internal/acceptance/cloud_v5_window_audit.go:215-229 | the plan is every eligible original once in corpus order, then four roles of each comparison case |
| CloudPlan.EligibleTotal | internal/acceptance/cloud_v4_contract.go:159-161 | the counts of a valid corpus add up to 236 eligible originals |
| CloudPlan.PlanIsFixed | internal/acceptance/cloud_v5_window_audit.go:215-229 | the plan of a valid corpus has 252 calls, no two alike |
| CloudHistory.CheckHistory | internal/acceptance/cloud_v5_window_audit.go:143-182 | accepts exactly the consistent histories of 280 to 283 attempts and returns the contexts they have spent and both token subtotals |
| CloudHistory.CheckArtifacts | internal/acceptance/cloud_v5_window_audit.go:153-160 | accepts exactly 21 distinct artifacts with the expected numbers of calls |
| CloudHistory.FoldUsage | internal/acceptance/cloud_v5_window_audit.go:161-182 | folds the charged rows, refusing exactly a half-known or negative pair or a subtotal beyond its bound |
| CloudHistory.ArtifactsAddUp | internal/acceptance/cloud_v5_window_audit.go:143-160 | the artifacts of an accepted history account for every one of its attempts |
| CloudHistory.ArtifactCalls | internal/acceptance/cloud_v5_window_audit.go:143-160 | the calls of an accepted history, artifact by artifact |
| CloudLedger.CheckLedger | internal/acceptance/cloud_v5_window_audit.go:230-255 | accepts exactly the ledgers whose every row continues the plan in order, inside the window, under derived identities; the repeated-identity and gap checks never fire |
| CloudLedger.CheckAttempts | internal/acceptance/cloud_v5_window_audit.go:256-289 | accepts exactly the attempts with distinct identifiers that each match their ledger row, and projects them |
| CloudLedger.MatchAttempt | internal/acceptance/cloud_v5_window_audit.go:259-281 | accepts exactly an attempt that equals its row in identity, tokens and outcome and encloses its charge |
| CloudLedger.Phases | internal/acceptance/cloud_v5_window_audit.go:192-204 | each recorded identifier has the phase of the list it came from, the comparison winning |
| CloudSequence.Bijection | internal/acceptance/cloud_v5_window_audit.go:230-289 | the attempts rearrange into ledger order, the i-th being the one row i charged |
| CloudSequence.CostIsLedgers | internal/acceptance/cloud_v5_window_audit.go:205-265 | the folded known tokens and unknown counts are those of the ledger rows |
| CloudSequence.CheckSequence | internal/acceptance/cloud_v5_window_audit.go:290-295 | sorted by ordinal there is one projection of its attempt for each row, and they are accepted exactly when no attempt starts before its predecessor ended |
| CloudSequence.NeverOverlap | internal/acceptance/cloud_v5_window_audit.go:290-295 | of any two attempts of an accepted window the lower ordinal is over before the other starts |
| CloudSequence.ElapsedFits | internal/acceptance/cloud_observation.go:304-311 | the summed milliseconds of an accepted window are at most its length plus two per attempt |
| CloudSequence.EveryOrdinal | internal/acceptance/cloud_v5_window_audit.go:251-255 | every charged ordinal has an attempt, by counting distinct identifiers |
| CloudWitness.CheckJournal | internal/acceptance/cloud_v5_pg_correlation.go:80-116 | accepts exactly the well-formed journals; contexts repeat exactly when selections do |
| CloudWitness.Correlate | internal/acceptance/cloud_v5_pg_correlation.go:67-136 | denies malformed journals and otherwise matches exactly when the journal is, row by row and column by column, the export of the claimed ledger, every row of which starts its run, under the same totals |
| CloudWitness.AnyDifference | internal/acceptance/cloud_v5_pg_correlation.go:121-134 | under the same totals a journal matches exactly when no row differs from the ledger's in any column |
| CloudWitness.CostIsJournals | internal/acceptance/cloud_v5_pg_correlation.go:127-134 | with a matching journal the ledger's token sums and unknown counts are the SQL rows' |
| CloudWitness.ExportMatches | internal/acceptance/cloud_v5_pg_correlation.go:80-134 | the exact export of an accepted ledger is a well-formed journal, and every row of the ledger starts its run, so it matches |
| CloudScore.Observe | internal/acceptance/cloud_v5_score.go:329-337 | accepts exactly the expected version, or none where none is pinned; the changed-version check never fires |
| CloudScore.CountersCount | internal/acceptance/cloud_v5_score.go:90-126 | every counter of a split is the number of its attempts with that property |
| CloudScore.FailuresCount | internal/acceptance/cloud_v5_score.go:121-126 | failures are the attempts not completed plus those beyond their allowance |
| CloudScore.LatestIsMaximum | internal/acceptance/cloud_v5_score.go:127-129 | the reported maximum latency is reached by an attempt of the split and by none exceeded |
| CloudScore.KindsPartition | internal/acceptance/cloud_v5_score.go:92-99 | the per-kind totals and corrects sum to the split's cases and corrects |
| CloudScore.NearestRank | internal/acceptance/cloud_v5_score.go:138-142 | the reported P95 is the least latency with at least 95 percent of the values at or below it |
| CloudScore.FloorRank | internal/acceptance/cloud_observation.go:623-626 | the older floor-rank form is never above the nearest-rank P95 |
| CloudGrade.Grade | internal/acceptance/cloud_observation.go:349-427 | grading gives exactly the findings of the checker, exactness against the golden answer, and the finding of the kind |
| CloudGrade.CommandPasses | internal/acceptance/cloud_observation.go:408-424 | a command has no finding exactly when it is a listed intent under no authority or the owner's, under none if it asks for clarification and under none if the golden answer has none |
| CloudGrade.AlarmsMean | internal/acceptance/cloud_observation.go:349-427 | an important message not answered as important is missed, an observed one answered as important is a false alarm, in classifications only, and exact means equal to the golden answer |
| CloudGrade.GoldenAnswerIsRight | internal/acceptance/cloud_observation.go:349-427 | an answer equal to a golden answer that passes is right: nothing is found but, possibly, an array beyond 32 |
| CloudGrade.PassableConforms | internal/acceptance/cloud_v5_contract.go:172-187 | an answer without findings satisfies the original and the translated schema of its case |
| CloudQuality.Score | internal/acceptance/cloud_v5_score.go:43-163 | succeeds exactly on approved, valid, once-only scorable attempts and reports the exact cost, metrics, percentile and thresholds, with status NO_GO exactly when they are not passed and every other status exactly by evidence, unknown versions and full cost |
| CloudQuality.StatusOf | internal/acceptance/cloud_v5_score.go:150-162 | each of the five statuses exactly when its condition on thresholds, evidence, unknown versions and full cost holds |
| CloudQuality.Meter | internal/acceptance/cloud_v5_score.go:68-132 | the grading loop accepts exactly the scorable lists and files each attempt under its split |
| CloudQuality.FinishSplit | internal/acceptance/cloud_v5_score.go:135-150 | a finished split has the metered counters, its shortfall, the nearest-rank percentile and the thresholds |
| CloudQuality.SelectCases | internal/acceptance/cloud_v5_score.go:62-67 | selects exactly the cases open to the model |
| CloudQuality.MissingNotNegative | internal/acceptance/cloud_v5_score.go:135-137 | no split is scored beyond its quota, so missing is never negative |
| CloudQuality.CompleteExactly | internal/acceptance/cloud_v5_score.go:133-134 | the report is complete if and only if the scored cases are the eligible cases, that is, if and only if there are 236 attempts |
| CloudQuality.SplitsPartition | internal/acceptance/cloud_v5_score.go:90-132 | the cases of the three splits add up to the attempts |
| CloudCompare.CheckTask | internal/acceptance/cloud_v5_score.go:222-295 | accepts exactly the tasks whose attempts are inside their times, once-only, of the needed roles, linked and timed, unchanged and clean |
| CloudCompare.CheckInside | internal/acceptance/cloud_v5_score.go:244-258 | accepts exactly a valid, completed, safe attempt inside its task's times and allowances |
| CloudCompare.CheckLineage | internal/acceptance/cloud_v5_score.go:261-274 | accepts exactly one parentless single, or two children of a parentless synthesis that starts after both |
| CloudCompare.ExactByRole | internal/acceptance/cloud_v5_score.go:261-295 | a task counts as exact by the one attempt in its final role |
| CloudCompare.CheckTaskAttempts | internal/acceptance/cloud_v5_score.go:242-260 | accepts exactly contained attempts of distinct roles whose identities were not used before |
| CloudCompare.CheckFaithful | internal/acceptance/cloud_v5_score.go:275-288 | accepts exactly when every role got its unchanged input and answered cleanly |
| CloudCompare.ObserveAll | internal/acceptance/cloud_v5_score.go:207-215 | accepts exactly attempts of the one allowed version and counts the unnamed ones |
| CloudCompare.CheckArm | internal/acceptance/cloud_v5_score.go:216-311 | accepts exactly four distinct sound tasks, counts those whose final attempt is exact and sums the wall times, which cannot overflow |
| CloudCompare.Compare | internal/acceptance/cloud_v5_score.go:165-327 | succeeds exactly on well-formed pairs of arms and reports both exact costs, as correct the tasks whose single attempt, or whose synthesis, gave exactly the golden answer, and the status exactly by its condition |
| CloudAudit.Reconcile | internal/acceptance/cloud_v5_window_audit.go:143-295 | denies exactly the windows that break the history, the plan, the ledger, the attempts or their order |
| CloudAudit.Admit | internal/acceptance/cloud_v5_window_audit.go:138-142 | accepts exactly a trusted envelope with consistent totals, at most 75 minutes and 252 calls, under a native pin without version |
| CloudAudit.ObserveFamilies | internal/acceptance/cloud_v5_window_audit.go:274-287 | notes, attempt by attempt, each one of another family and each change of version, counts missing versions and keeps the last one |
| CloudAudit.VersionsNoted | internal/acceptance/cloud_v5_window_audit.go:274-287 | comparing each version only with the one before notices exactly the conflicts between any two attempts |
| CloudAudit.JudgeRechecks | internal/acceptance/cloud_v5_window_audit.go:304-317 | the guarded additions give exactly the reasons that hold among missing versions, denied rechecks and differing pins |
| CloudAudit.Recheck | internal/acceptance/cloud_v5_window_audit.go:307-335 | scores and compares again; an empty window knows no full cost |
| CloudAudit.Verdict | internal/acceptance/cloud_v5_window_audit.go:304-342 | the guarded additions give, in order and once each, exactly the later reasons whose finding holds |
| CloudAudit.Audit | internal/acceptance/cloud_v5_window_audit.go:124-343 | reports exactly the accepted windows with the history's subtotals and the family last reported, first the reasons noticed while reading and then the later ones in order, and passes exactly without reasons |
| CloudAudit.AcceptedMeans | internal/acceptance/cloud_v5_window_audit.go:192-295 | an accepted ledger is the beginning of the plan, attempts and rows are in bijection with equal token sums, attempts never overlap and their time fits the window |
| CloudAudit.WitnessedCost | internal/acceptance/cloud_v5_pg_correlation.go:121-134 | with a matching SQL journal its rows are also the beginning of the plan and have the same sums |
| CloudPass.ComparisonGroups | internal/acceptance/cloud_v5_score.go:216-274 | an accepted comparison is one single and one complete child_a, child_b, synthesis group for each of the four cases, the synthesis after both children and asked the unchanged question with both canonical reports in order |
| CloudPass.CostAdds | internal/acceptance/cloud_v5_window_audit.go:192-210 | the window's cost is fieldwise that of quality, single and multi |
| CloudPass.QualityMeans | internal/acceptance/cloud_v5_score.go:143-151 | passing the splits means that no attempt breaks a rule and at least 214 of the 236 answers are right |
| CloudPass.PassMeans | internal/acceptance/cloud_v5_window_audit.go:296-343 | a pass means all 252 planned calls in order, 236 cases scored once, every single attempt and every synthesis of a complete group equal to the golden answer, one version, no unknown token count and the added-up cost |
| CloudAnswers.PassConforms | internal/acceptance/cloud_v5_window_audit.go:296-343 | every answer of a passing window, in the quality part and in both arms, satisfies the original and the translated schema of its case |
| MemoryFreeze.ValidateSuite | internal/acceptance/memory_contract.go:121-215 | accepts exactly the suites with distinct, sound cases, no group, family or original text in both splits, and every tag covered in both |
| MemoryFreeze.SplitsStayApart | internal/acceptance/memory_contract.go:136-179 | in a valid suite cases that share a group, a family or an original text share the split |
| MemoryFreeze.CheckCases | internal/acceptance/memory_contract.go:128-186 | accepts exactly distinct sound cases, blocked ones covering privacy |
| MemoryFreeze.CheckHistory | internal/acceptance/memory_contract.go:154-170 | accepts exactly originals with different names of which exactly the deleted ones have no text |
| MemoryFreeze.ValidatePlan | internal/acceptance/memory_contract.go:273-286 | accepts exactly pinned plans, fixtures naming no model and observations naming one |
| MemoryFreeze.CheckCoverage | internal/acceptance/memory_contract.go:207-213 | accepts exactly when both splits cover every tag |
| MemoryFreeze.BuildMatrix | internal/acceptance/memory_contract.go:357-419 | the loops build the matrix of every selected case and arm, or refuse |
| MemoryFreeze.Assemble | internal/acceptance/memory_contract.go:361-411 | fills one input step by step, or refuses its capture |
| MemoryFreeze.Cite | internal/acceptance/memory_contract.go:384-402 | the nested loops find the cited originals and blank their texts, or refuse an unavailable or repeated one |
| MemoryFreeze.CheckCaptures | internal/acceptance/memory_contract.go:344-356 | accepts exactly one admissible capture for each case that needs one |
| MemoryFreeze.FreezeMemory | internal/acceptance/memory_contract.go:273-419 | freezes exactly valid suites under a valid plan with admissible captures into their matrix |
| MemoryFreeze.MatrixDistinct | internal/acceptance/memory_contract.go:336-419 | every slot of the frozen matrix occurs once |
| MemoryMatrix.FrozenExactly | internal/acceptance/memory_contract.go:336-419 | freezing fails exactly for an invalid suite, plan or capture, or if the capture of a selected open case cites an unavailable original or one twice; otherwise every selected case in order has its three inputs, each with the question, memory, prompt and skip reason its case and capture give it |
| MemoryMatrix.NothingSecretShown | internal/acceptance/memory_contract.go:361-411 | no frozen input shows a secret or deleted original, or anything of a case that has a secret one |
| MemoryMatrix.MatrixShows | internal/acceptance/memory_contract.go:357-413 | the inputs of the matrix, case by case and arm by arm: blocked exactly for a secret, over budget exactly above 32768 bytes, missing exactly without a capture, the whole undeleted history or the cited originals otherwise |
| MemoryMatrix.MatrixRefused | internal/acceptance/memory_contract.go:384-402 | the matrix is refused exactly for a selected open case whose capture misquotes it |
| MemoryChain.UnitsExact | internal/acceptance/memory_continuation.go:44-51 | 64-bit sums of per-input bounds are exact for as many inputs as a chain can have |
| MemoryChain.KeepTwice | internal/acceptance/memory_continuation.go:165-179 | removing slots in two rounds is removing them at once |
| MemoryChain.CompletedPrefix | internal/acceptance/memory_continuation.go:217-243 | accepts exactly the prefixes that follow the schedule and end in one failed paid entry, and returns its paid inputs |
| MemoryChain.PendingSchedule | internal/acceptance/memory_continuation.go:165-179 | the pending schedule is the frozen one without the spent slots, in order |
| MemoryChain.Combine | internal/acceptance/memory_continuation.go:181-201 | joins measurements exactly when no observation or expense repeats |
| MemoryChain.PendingIsTail | internal/acceptance/memory_continuation.go:165-179 | after k observations the pending schedule is exactly what is left behind the first k |
| MemoryChain.RootSound | internal/acceptance/memory_continuation.go:129-161 | a loaded root satisfies the chain invariant with nothing observed beyond the paid entry |
| MemoryChain.NextSound | internal/acceptance/memory_continuation.go:86-128 | one more sealed prefix keeps the chain invariant |
| MemoryChain.LoadSound | internal/acceptance/memory_continuation.go:64-161 | every chain the recursive loader accepts satisfies the invariant |
| MemoryContinuation.ChainPartition | internal/acceptance/memory_continuation.go:53-179 | observed and pending slots are the frozen matrix in original order around the root's paid entry, with at most five prefixes |
| MemoryContinuation.NeverResampled | internal/acceptance/memory_continuation.go:53-179 | observed and pending slots are disjoint, each occurs once and together they are the matrix |
| MemoryContinuation.ChainCounters | internal/acceptance/memory_continuation.go:86-161 | native calls equal paid inputs, auxiliary calls stay 53, units are the root's plus every later bound, and the deadline stays the root's |
| MemoryContinuation.ChainExpenses | internal/acceptance/memory_continuation.go:181-201 | the root's expenses stay an unbroken prefix and every later one occurs once |
| MemoryContinuation.CompletedContinuation | internal/acceptance/memory_continuation.go:281-326 | a completed continuation ends at exactly 64 native and 53 auxiliary calls, the root's deadline and the units of every paid input |
| MemoryContinuation.ValidateRenewal | internal/acceptance/memory_renewal.go:25-51 | accepts exactly the five-input renewal with its own later deadline and returns that deadline |
| MemoryContinuation.MandateUnits | internal/acceptance/memory_renewal.go:38-44 | sums the bounds of the renewed inputs with 64-bit wrap-around, refusing a skipped one |
| MemoryContinuation.RenewalCompletes | internal/acceptance/memory_renewal.go:55-104 | an accepted renewal covers the whole matrix and ends at exactly 64 native calls and the units of every paid input |
| MemoryLoader.LoadMemoryPrior | internal/acceptance/memory_continuation.go:53-161 | the recursive loader computes the chain whose invariant is proved |
| MemoryLoader.Root | internal/acceptance/memory_continuation.go:129-161 | loads exactly a root whose first paid entry failed |
| MemoryLoader.Next | internal/acceptance/memory_continuation.go:86-128 | extends a parent by one sealed prefix with its counters and deadline checked |
| MemoryLoader.LoadAt | internal/acceptance/memory_continuation.go:64-161 | recurses through at most five prefixes |
| MemoryLoader.AuditPrefix | internal/acceptance/memory_continuation.go:256-279 | the prefix audit computes the specified one |
| CanonicalJson.RoundTrip | internal/acceptance/corpus.go:270-335 | parsing a printed value returns it exactly when it is within depth 16 and 256-item arrays, and fails otherwise |
| CanonicalJson.TextParses | internal/acceptance/corpus.go:283-335 | a text parses to its value if and only if it is within the limits and repeats no key at any depth |
| CanonicalJson.ParseIsSound | internal/acceptance/corpus.go:283-335 | whatever parses is the text of an acceptable tree with that meaning |
| CanonicalJson.CanonicalParses | internal/acceptance/corpus.go:270-282 | a canonical form parses to the value of the original |
| CanonicalJson.CanonicalIdempotent | internal/acceptance/corpus.go:270-282 | canonicalisation is idempotent |
| CanonicalJson.CanonicalEquality | internal/acceptance/corpus.go:270-282 | two texts have equal canonical forms if and only if their values are equal |
| JsonReorder.ReorderExactly | internal/acceptance/corpus.go:270-335 | two accepted texts have the same canonical form if and only if they are reorderings of each other at every level |
| JsonReorder.SameMeaning | internal/acceptance/corpus.go:270-335 | two acceptable texts denote the same value if and only if one is a reordering of the other |
| JsonOrder.CanonicalText | internal/acceptance/corpus.go:270-282 | an accepted text is its own canonical form if and only if its keys are in byte order at every level |
| JsonOrder.Encode | internal/acceptance/corpus.go:270-282 | an encoder that meets the keys of an object in any order and sorts them writes exactly the canonical text |
| JsonOrder.TokensDetermine | internal/acceptance/corpus.go:270-282 | different texts have different tokens |
| Ordering.OneListing | internal/acceptance/corpus.go:270-282 | keys have one sorted listing only |
| Ordering.SortKeys | internal/acceptance/corpus.go:270-282 | keys taken in any order are put into that listing |
| JsonDecoder.Decoder.JsonValue | internal/acceptance/corpus.go:283-335 | the stateful decoder consumes exactly what the parser specifies and agrees with it on failure |
| JsonDecoder.Decoder.Next | internal/acceptance/corpus.go:287-290 | takes one token |
| JsonDecoder.Decoder.Members | internal/acceptance/corpus.go:296-317 | the member loop agrees with the parser, refusing repeated keys |
| JsonDecoder.Decoder.Items | internal/acceptance/corpus.go:318-331 | the item loop agrees with the parser, refusing a 257th item |
| JsonDecoder.ParseText | internal/acceptance/corpus.go:270-282 | a whole text is parsed with nothing left over |
| SchemaTranslation.ConvertNode | internal/acceptance/cloud_v5_contract.go:89-150 | the recursive loop over keywords computes the translation |
| SchemaTranslation.ConvertNested | internal/acceptance/cloud_v5_contract.go:116-135 | a nested shape is translated and anything else refused |
| SchemaTranslation.ConvertKeyword | internal/acceptance/cloud_v5_contract.go:97-142 | each keyword is translated, dropped or refused, branch by branch |
| SchemaTranslation.KeywordPreserved | internal/acceptance/cloud_v5_contract.go:97-142 | keyword by keyword, valid and capped is valid after translation plus what was dropped |
| SchemaTranslation.ConvertsExactly | internal/acceptance/cloud_v5_contract.go:89-150 | translation fails exactly when some nested node uses an unsupported keyword, type or shape |
| SchemaTranslation.TranslationPreserves | internal/acceptance/cloud_v5_contract.go:89-150 | a value is valid for the source with arrays of at most 32 items, if and only if it is valid for the translation, without undeclared fields and within the source's bounds |
| ResponseCheck.Verify | internal/acceptance/cloud_observation.go:349-427 | reports the schema finding and the source finding each exactly when it holds, and neither exactly on the clean responses of the kind |
| ResponseCheck.CheckRefs | internal/acceptance/cloud_observation.go:359-373 | finds nothing exactly for at most 32 sorted, distinct references to given documents, and tells shape from fabrication |
| ResponseCheck.Fabricates | internal/acceptance/cloud_observation.go:367-373 | the loop flags exactly a missing or repeated reference |
| ResponseCheck.CheckFacts | internal/acceptance/cloud_observation.go:374-397 | finds nothing exactly for at most 32 facts quoted word for word from a given document, and tells shape from fabrication |
| ResponseCheck.IsSorted | internal/acceptance/cloud_v4_contract.go:263-275 | the order check accepts exactly the references in byte order |
| ResponseCheck.CleanIsValid | internal/acceptance/cloud_v4_contract.go:209-248 | a clean response satisfies the original schema of its case, the number of references by pigeonhole on distinct documents |
| ResponseCheck.SchemaSupported | internal/acceptance/cloud_v4_contract.go:209-248 | every per-case schema can be translated |
| ResponseCheck.CheckerRestores | internal/acceptance/cloud_v5_contract.go:172-187 | for each kind and document map a response with neither finding satisfies the original and the translated schema |
| SchemaMeaning.SchemaExactly | internal/acceptance/cloud_v4_contract.go:209-248 | a value satisfies the schema of its case exactly when it has the declared names and no other, listed labels, intents and authorities, and every reference names a given document |
| SchemaMeaning.CleanMeans | internal/acceptance/cloud_observation.go:349-427 | the checker finds nothing exactly when the schema is satisfied and the citations hold: sorted references without repetition, facts quoting the document they cite |
| SchemaMeaning.SchemaExists | internal/acceptance/cloud_v4_contract.go:209-219 | a case has a schema exactly for the four kinds and at most eight documents within the bounds on name and text |
| GroupSplits.Groups.Find | experiments/emoji140/freeze_followup.py:28-30 | the loop ends, at the root |
| GroupSplits.Groups.Union | experiments/emoji140/freeze_followup.py:31-32 | keeps parents no greater than children and roots faithful to all unions made |
| GroupSplits.RootIsMinimum | experiments/emoji140/freeze_followup.py:27-32 | the root is the minimum of the connected component, and roots are equal exactly for connected items |
| GroupSplits.LinkKeepsFaithful | experiments/emoji140/freeze_followup.py:31-32 | linking the larger root under the smaller keeps roots faithful to the unions |
| GroupSplits.MembersExactly | experiments/emoji140/freeze_followup.py:42-43 | a group has exactly the items with its root |
| GroupSplits.GroupsWith | experiments/emoji140/freeze_followup.py:42-45 | collects exactly the groups with a member of the given prefix |
| GroupSplits.Calibrate | experiments/emoji140/freeze_followup.py:47-50 | the greedy fill stays within 90 and leaves out only groups that would not fit |
| GroupSplits.Assign | experiments/emoji140/freeze_followup.py:42-51 | succeeds exactly when no group is both pilot and food and calibration has 90 items |
| GroupSplits.CalibrationShare | experiments/emoji140/freeze_followup.py:52-53 | the items given to calibration are as many as were counted |
| GroupSplits.GroupSafe | experiments/emoji140/freeze_followup.py:52-53 | connected items share a split, pilot items are in development, food items in test, and calibration has exactly 90 items |
| RangeDownload.Plan | experiments/emoji140/fetch_weights.py:46-49 | the jobs tile the missing part of every file without overlap in chunks of at most 256 MiB |
| RangeDownload.Download | experiments/emoji140/fetch_weights.py:50-64 | a worker with the expected headers and no short write completes exactly when the body has the range's length; its writes put the body in its place and touch nothing else |
| RangeDownload.WrittenIs | experiments/emoji140/fetch_weights.py:56-62 | consecutive writes together put the first part of the body in its place |
| RangeDownload.WorkerIsSchedule | experiments/emoji140/fetch_weights.py:56-62 | the writes of a worker given exactly its range are a schedule with the effect of its loop |
| RangeDownload.NextWrite | experiments/emoji140/fetch_weights.py:57-62 | whatever other workers have done meanwhile, one more pass of a worker is a possible write with the same effect |
| RangeDownload.InterleavingIsSchedule | experiments/emoji140/fetch_weights.py:57-71 | workers answered with their ranges make a schedule, however their passes interleave |
| RangeDownload.AnyInterleaving | experiments/emoji140/fetch_weights.py:46-71 | any interleaving in which all workers finish leaves the kept prefix and the remote bytes |
| RangeDownload.WriteAt | experiments/emoji140/fetch_weights.py:60 | a positioned write replaces exactly its bytes |
| RangeDownload.CoveredOnce | experiments/emoji140/fetch_weights.py:47-49 | no byte belongs to two jobs |
| RangeDownload.ScheduleAccurate | experiments/emoji140/fetch_weights.py:57-62 | after any writes every file has the remote bytes where jobs have been and the old ones elsewhere |
| RangeDownload.AnySchedule | experiments/emoji140/fetch_weights.py:46-71 | every completed schedule of worker writes leaves the kept prefix and the remote bytes |
| EffortWindow.Ledger.Reserve | cmd/effort-eval/main.go:325-350 | commits the next number and its units exactly when the window admits them, and otherwise changes nothing |
| EffortWindow.Ledger.Close | cmd/effort-eval/main.go:277-281 | closing keeps every committed reservation |
| EffortWindow.EveryInterleaving | cmd/effort-eval/main.go:325-350 | under every interleaving reservations are numbered without gaps, sum to the reserved units and stay within both maxima |
| EffortWindow.NothingAfterClose | cmd/effort-eval/main.go:277-281 | nothing is committed after the window is closed |
| EffortWindow.CommittedIsKept | cmd/effort-eval/main.go:325-350 | a committed reservation is never lost or renumbered |
| EffortWindow.Serializable | cmd/effort-eval/main.go:325-350 | every interleaving of statements by any number of workers has exactly the effect of its completed transactions run whole in the order of completion, each completed reservation being one committed attempt |
| EffortWindow.EveryCombinationOnce | cmd/effort-eval/main.go:211-228 | every case, profile and mode has exactly one slot |
| EffortWindow.Slots | cmd/effort-eval/main.go:217-226 | the nested loops make the rotated matrix of eight slots per case |
| EffortWindow.UnitsNeverBind | cmd/effort-eval/main.go:266-276 | with the trial's own maxima the unit limit never refuses a call the call limit admits |

## Left out

- HTTP, HTML pages, TLS, cookie attributes, public path variants and form field names of the fixture: requests carry their target, cookies and query.
- The fixture option that reflects the form token into an unsupported path, which changes no state.
- SHA-256, Ed25519, random generation and constant-time comparison: constructors, a counter and equality stand for them.
- Reading files, permissions, exclusive creation and Postgres itself.
- CloudAudit.Reconcile: the identities of model, release, source, hardware, runtime and resources are one flag; counts, times and history are modelled.
- CloudPlan.ValidateCorpus: does not model the lexical leakage screen.
- MemoryFreeze.ValidateSuite: the format of times, references and originals and the check of golden answers are one flag per case.
- MemoryFreeze.CheckCases: the remaining checks of a case are one flag.
- MemoryFreeze.Assemble: the serialized lengths of an input and of its request are given for each case and arm.
- MemoryFreeze.FreezeMemory: that version, suite, criteria and configuration digests of a plan are the expected ones is one flag.
- CloudQuality.Score: is proved for any grading function; CloudGrade models the one the window uses, with field names matched exactly.
- CloudAudit.Audit: identities other than counts, times and pins are one flag of the decoded report.
- CloudCost.FoldCost: the number of attempts is unbounded and not a machine integer.
- The V1 to V4 window audits, scorers, witnesses and the V2 and V3 contracts, which repeat the V5 code.
- The runner's own audit of calls and measurements: its returned counts are inputs that the modelled checks constrain.
- MemoryChain.LoadSound: directories are given as decoded records; digests of files are their contents.
- Byte-level JSON lexing, number formats and escapes: the parser works on tokens.
- GroupSplits.Assign: items are numbered in the order of their identifiers and the order in which groups are tried is any order without repetition.
- RangeDownload.Download: the expected status and range header are one flag.
- Model workers, embedding and caption scripts, service entry points and web configuration.
