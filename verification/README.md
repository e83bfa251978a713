# Verified models of ServiceMind's evaluation scripts

ServiceMind decides whether a change may ship with a set of scripts: a gate over the package
structure, a paid comparison of a learned router ("Jev") with the rule router, a retrieval
benchmark, and a worker benchmark. The product code is not modelled here. What is modelled is
the logic those scripts decide with, where a slip would pass unnoticed into a report:

- **The structure gate** (`Orders`, `Graphs`, `CycleFinder`, `PackageGraph`). The package graph
  built from the imports, and Tarjan's algorithm over mutable bookkeeping, proved to report
  exactly the cyclic strongly connected components, in one canonical order. The gate passes
  exactly when the dependencies it collects can be layered; which true dependencies those miss
  is stated below.
- **The spend journal** (`Journal`, `SpendLedger`, `LedgerRuns`, `CumulativeLedger`, `JevCalls`,
  `CallRuns`).
  An append-only file rebuilt by replay; reservations before requests, settlements after them,
  caps on money and attempts; a retry loop that voids rejected attempts. The ledger is a class
  over a file object that outlives it. Every interleaving of its calls with crashes and
  reopenings is covered. Amounts are exact, in nano-USD: a token costs 42, a typesafe
  reservation is 2,752,512, an openrouter one 11,010,048, the caps are 700,000,000 and
  50,000,000.
- **The resumable experiment** (`Routing`, `Experiment`, `Checkpoints`, `StageRun`, `PaidRuns`,
  `Provenance`).
  Observe the dev rows, freeze a threshold, observe the test rows, publish; killed and restarted
  any number of times.
  `Experiment` is the step relation and its invariant, `Checkpoints` bounds what a crash can cost,
  `StageRun` is the loop itself, whose every effect is a step of that relation, `PaidRuns` runs
  experiment and journal together, with crashes inside a call as well, and `Provenance` follows every
  decision back to the call that was paid for it.
- **Exact statistics** (`Binomials`, `PairedTests`, `Holm`). The sign-flip permutation test equals
  McNemar's exact test on one-row clusters; Holm's step-down adjustment equals closed testing.
- **Retrieval** (`Passages`, `RankFusion`, `PairScores`, `TeiBatches`, `ScoreCache`, `SharedCache`,
  `Blend`, `Abstention`, with `Reals` for products). Overlapping token windows, rank fusion, scores
  flattened for the cross-encoder and read back, answers scattered over retries, a score cache that
  survives crashes, for one job and for several on the same files, the production blend, and the
  threshold analysis.
- **The worker benchmark** (`Fairness`). The sweep that finds how many runs of a tenant were ever
  active together.

Numbers that the scripts hold as floats or decimals are exact reals here. `predict`, the
tokenizer, provider replies and the router are arbitrary functions or inputs. Attempt
identifiers are assumed never to repeat (they are UUIDs).

## Where the code and its description part

- `_rrf_scores` says that a document found by one arm scores below one found by both. That holds
  down to rank 61 in both arms and no further: rank 62 in both ties with rank 1 in one
  (`RankFusion.AgreementWinsIff`, `RankFusion.SixtyTwoTies`). The pools are cut at depth 100.
- A crash after `partial.replace(cache)` and before the identity file is written leaves a progress
  file that the next two processes can take for real: the fresh-file branch does not remove it,
  so a map of zeros is resumed as if scored (`ScoreCache.WindowCrash`, `ScoreCache.WindowLosesScores`).
  `ScoreCache.NeverWrongIff` says which files are safe as long as one job alone uses them.
- The cross-encoder's window is part of a cache's identity and not of its file names, so two window
  settings share the four files. After that same crash the identity file of one setting can stand
  beside the scores of the other, and they are handed out as verified (`SharedCache.VerifiedThenWrong`);
  a crash between the two unlinks of one setting leaves the other a stale progress file
  (`SharedCache.UnlinkHarmsOther`). Over every interleaving and crash, two or more jobs are safe
  exactly if all of them score zero throughout, on files trustworthy for each
  (`SharedCache.SharedNeverWrongIff`); on files sound for each, or none at all, they are safe without
  a crash in those two places, whatever they score (`SharedCache.CarefulSharingIsRight`).
- A provider's own bill may exceed its reservation, and then the cap can break. `LedgerRuns` states
  exactly when; under the cumulative ledger such a settlement is the last line ever written.
- An import of a top-level module names the module, while the files at top level are filed under
  `_root`. So the gate misses the cycles in which a package that the top-level files lead to imports
  one of them back. Where every import that leaves its package is written by its absolute dotted
  name, these are the only cycles it misses: `PackageGraph.Audit` states the exact condition, and
  `PackageGraph.MutualImportWithTopLevelPasses` the smallest trees that meet it.
- Of a `from` import only the module is collected. `from servicemind import p` leaves "servicemind",
  and the relative `from ..p import x` and `from .. import p` leave "p" and nothing; the gate drops
  all three, so a cycle closed by one of them passes (`PackageGraph.MissedSpellingPasses`,
  `PackageGraph.MissedSpellings`). A bare `import servicemind` is dropped as well.
- `_tei_rerank` does not ask an answer to name every text of its batch, nor to keep to it. A text
  left out by every attempt keeps the score zero (`TeiBatches.UnnamedKeepsZero`), one left out by the
  last keeps what a failed attempt wrote (`TeiBatches.FailedAttemptShowsThrough`), and a negative
  index writes into an earlier batch (`TeiBatches.StrayIndexOverwrites`). `TeiBatches.RightIff` says
  when the list is right.
- The floor of 256 content tokens in `_passages` never applies (`Passages.FloorNeverApplies`).

## Model

The first 51 rows are the main results; the rows after them, file by file, are the operations and
steps those rest on and the smaller results.

| member | source | states |
|---|---|---|
| CycleFinder.FindCycles | scripts/audit_project_structure.py:56-93 | for every finite graph the report is each cyclic strongly connected component once, members sorted, report sorted; it is empty exactly when the nodes can be layered |
| PackageGraph.Audit | scripts/audit_project_structure.py:29-93 | the gate reports nothing exactly when the dependencies it collects can be layered; where every import that leaves its package is written by its absolute dotted name, the dependencies the tree really has, whatever Python would find for each statement, can be layered exactly when besides no package reached from `_root` imports a top-level module; every reported cycle has two packages at least |
| PackageGraph.GateIsRightIff | scripts/audit_project_structure.py:29-93 | where every import that leaves its package is absolute and dotted, the true dependencies can be layered iff the collected ones can and no package that `_root` reaches imports a top-level module, with no assumption on names or shadowing |
| PackageGraph.MutualImportWithTopLevelPasses | scripts/audit_project_structure.py:42-52 | a two-file tree, all names absolute, in which a package and a top-level module import each other, for any two plain names: the gate passes and the true dependencies cannot be layered |
| PackageGraph.MissedSpellingPasses | scripts/audit_project_structure.py:29-52 | two packages of any plain names that import each other, one of them by a statement that leads to the other and leaves no name of the product package: the gate passes and the true dependencies cannot be layered |
| LedgerRuns.RunKeepsInv | scripts/compare_jev_routing.py:169-310 | over every run of calls, crashes and reopenings: one open reservation per provider, at most 300 attempts, every budget below the first header, and the journal only grows |
| LedgerRuns.ReserveGrantedIff | scripts/compare_jev_routing.py:251-275 | a reservation of a known provider is granted exactly when the journal with it has one open reservation per provider, at most 300 attempts and a spend within the budget |
| LedgerRuns.SettleKeepsCapIff | scripts/compare_jev_routing.py:292-310 | a settlement keeps the spend within the recorded budget iff its excess over the reservation fits the headroom before the call |
| SpendLedger.ReopenAfterCrash | scripts/compare_jev_routing.py:178-198 | reopening any non-empty cut of an accepted journal succeeds, writes nothing, and takes the lower of the two budgets |
| CumulativeLedger.ExhaustedForever | scripts/evaluate_jev_robustness.py:209-231 | a journal past its limit with nothing open never gets another line, in this process or a later one |
| CumulativeLedger.ReserveWithinLimit | scripts/evaluate_jev_robustness.py:218-220 | right after every granted reservation the stage's settled and open amounts and the historical priced and unresolved ones add up to 50,000,000 at most |
| JevCalls.CallWithRetry | scripts/evaluate_jev_robustness.py:102-133 | at most eight attempts, all but the last rejected before inference; the journal gains one reserve and void pair per such attempt and then at most the last call's lines |
| JevCalls.CallReturnsIff | scripts/evaluate_jev_robustness.py:102-117 | for every journal and all replies: a call returns a decision iff its last attempt was granted, the answer is billed for at most 262,144 tokens at a cost that is not negative, history and stage are then within the budget, and the answer holds that decision; only attempts turned down with 403, 429 or 5xx are repeated, and these always, up to the eighth |
| JevCalls.CallStopsIff | scripts/compare_jev_routing.py:368-421 | the exact condition of every stop code: what was open, counted and spent before the last attempt, what it was replied, and what was spent after |
| JevCalls.OpenAfterCallIff | scripts/evaluate_jev_robustness.py:102-133 | a call leaves a reservation open iff its last attempt was granted and the reply to it is neither billable nor a transient rejection |
| CallRuns.CallIsRun | scripts/evaluate_jev_robustness.py:102-133 | a whole call, retries included, is a run of the stage's ledger |
| CallRuns.CallKeepsLimits | scripts/evaluate_jev_robustness.py:102-133 | a call keeps one open reservation and 550 attempts at most, at its end and wherever a crash cuts it |
| Experiment.NoTestRowBeforeThreshold | scripts/evaluate_jev_robustness.py:531-566 | no test row is called, held in memory or saved before the threshold file exists |
| Experiment.ThresholdNeverChanges | scripts/evaluate_jev_robustness.py:535-555 | once written, the selection is the same in every later state |
| Experiment.CompletedReportIsHonest | scripts/evaluate_jev_robustness.py:602-617 | a COMPLETED report has every row observed; its hybrid column is the model's route where the confidence reaches the frozen threshold and the rule's where not; and that threshold is what selection computes from the report's own dev rows |
| Experiment.ChecksNeverFail | scripts/evaluate_jev_robustness.py:535-538 | a restart never finds dev rows that differ from the frozen ones, and the final validation never fails |
| Checkpoints.CrashLosesAtMostTen | scripts/evaluate_jev_robustness.py:562-596 | in every reachable state at most ten paid observations are in memory and not yet saved |
| Checkpoints.SavedIsForever | scripts/evaluate_jev_robustness.py:489-617 | a saved observation is in every later report with the same decision and attempt count, and its row is never called again |
| PaidRuns.WholeRunKeepsBoth | scripts/evaluate_jev_robustness.py:489-617 | over every joint run from nothing both invariants hold, and the whole experiment makes 550 attempts at most |
| PaidRuns.CrashInsideCallIsFinal | scripts/evaluate_jev_robustness.py:562-585 | a crash inside a call that leaves its reservation open ends the experiment: nothing more is observed and the report is never completed |
| Provenance.EveryDecisionWasPaidAtItsRow | scripts/evaluate_jev_robustness.py:499-617 | over every joint run from nothing, killed and restarted anywhere: a decision held at a row, in memory or in the report, is the one a paid call made at that row returned, with that call's number of attempts |
| Provenance.OneModelButForStops | scripts/evaluate_jev_robustness.py:564-584 | over every run from nothing: all decisions of a report come from the one model it names, but for those a stop for a changed model has kept; and so in memory |
| StageRun.Run | scripts/evaluate_jev_robustness.py:489-621 | the imperative loop is a run of the step relation; a report it saves has at every row the inputs of the case, the rule decision of the first report or else the router's, and as decision and attempts those of the first report or of the call made at that very row; it refuses exactly what the checkpoint check refuses, stops only for a failed call or a changed model, and otherwise completes unless killed or unless selection over the fully observed dev rows finds no eligible threshold |
| Routing.SelectIsBestEligible | scripts/evaluate_jev_robustness.py:270-307 | the choice is an eligible grid value and, among those, most often correct on dev, then least dangerous, then largest; it is refused iff there is no dev row, a row of another split, or no eligible value |
| PairedTests.PermutationIsMcNemar | scripts/evaluate_jev_robustness.py:320-367 | when no two rows agree in both dataset and group, the sign-flip p equals McNemar's exact p of the same rows, whatever the numbers of improved, regressed and tied rows and however rows are grouped by dataset |
| PairedTests.DifferencesByCluster | scripts/evaluate_jev_robustness.py:327-346 | whatever the rows, the differences are, as a multiset, the net gains of the distinct pairs of dataset and group that occur: two rows share a difference exactly when both fields agree |
| Holm.Adjust | scripts/evaluate_jev_robustness.py:374-380 | every adjusted value is the closed test of its hypothesis: the largest, over all subsets containing it, of the size times the least p where that is at most one, and otherwise one |
| Holm.SmallestIsBonferroni | scripts/evaluate_jev_robustness.py:374-380 | the smallest p is adjusted to exactly the number of names times itself, or one if that is more |
| Passages.Split | scripts/evaluate_phase4_proxy_release.py:395-412 | a document's windows fit the 420-token ceiling with its title, consecutive ones share exactly 48 tokens, no later one is all overlap, and rejoined they are the body; the loop ends by reaching the end of the body; passages are these windows in order, numbered from zero; each passage is the title, a slash and the decoded window, or the title alone |
| RankFusion.AgreementWinsIff | scripts/evaluate_phase4_proxy_release.py:774-784 | documents within rank r of both arms beat every single-arm document iff r is at most 61 |
| RankFusion.PromotionNeverHurts | scripts/evaluate_phase4_proxy_release.py:774-791 | moving a document up one place in one arm never moves it down in the fused ranking, for any number of arms |
| RankFusion.PoolHoldsTheTop | scripts/evaluate_phase4_proxy_release.py:787-791 | the pool holds as many documents as the depth allows, best first, and every one of them outranks every document left out |
| PairScores.ScorePools | scripts/evaluate_phase4_proxy_release.py:1056-1088 | the whole flatten, score and read-back; it raises iff some pool document has no passages |
| PairScores.PublishedIsPoolAlone | scripts/evaluate_phase4_proxy_release.py:1089-1097 | filtering the depth-100 reranked list to the published pool gives what reranking that pool alone would give |
| TeiBatches.RightIff | scripts/evaluate_phase4_holdout.py:152-180 | over all assignments of all attempts, the list is the scorer's exactly when each text's last item carries its score, or it has none and scores zero |
| TeiBatches.HonestRightIff | scripts/evaluate_phase4_holdout.py:152-180 | over any attempts whose items, in any order within their batch, carry their texts' own scores, never zero, the list is right iff every text is named by some attempt, the failed ones included |
| ScoreCache.TrustworthyIff | scripts/evaluate_phase4_proxy_release.py:315-354 | the exact condition on the files under which no later run of the one job whose crashes all fall outside the promotion window can publish a wrong cache |
| ScoreCache.NeverWrongIff | scripts/evaluate_phase4_proxy_release.py:315-354 | over every later run of the one job, window crashes included, no wrong cache is handed out iff the files are trustworthy and either verified, or beside the job's own identity file, or the job scores zero throughout |
| SharedCache.SharedNeverWrongIff | scripts/evaluate_phase4_proxy_release.py:300-354 | for any two or more jobs over the same files, every interleaving of their processes and every crash: no job is ever handed a wrong cache iff all jobs score zero throughout and the files are trustworthy for each |
| SharedCache.CarefulSharingIsRight | scripts/evaluate_phase4_proxy_release.py:300-354 | over every interleaving in which no crash falls between promotion and identity file or between the two unlinks, files sound for every job stay so and each job, of one pair at least, is handed its own scores |
| Blend.DominationPrecedesIff | scripts/evaluate_phase4_proxy_release.py:794-818 | a document at least as good on both scores precedes iff it is better on one that counts or has the smaller id; retrieval stops counting in a window flatter than 1e-12 |
| Blend.PrecedesInPlain | scripts/evaluate_phase4_proxy_release.py:794-818 | one document precedes another iff its weighted sum of rerank score and retrieval score, rescaled between the window's least and greatest, is higher, or as high with the smaller id |
| Abstention.BestCut | scripts/evaluate_phase4_proxy_release.py:716-730 | the calibration loop picks an observed score whose balanced accuracy no real cut exceeds, and the highest such score |
| Abstention.AucBetweenRates | scripts/evaluate_phase4_proxy_release.py:741-749 | at every cut the pairwise AUC lies between the product of the answer and abstain rates and their sum less that product |
| Fairness.Peak | scripts/benchmark_worker_capacity.py:524-530 | the sweep's maximum is the greatest number of runs active at any instant, with ties and zero-length runs, and that number is reached |
| Fairness.OneAtATimeIff | scripts/benchmark_worker_capacity.py:518-535 | a peak of at most one is the same as no two runs overlapping |
| CycleFinder.Search.Visit | scripts/audit_project_structure.py:65-88 | one recursive visit: it closes, keeps the stack and low-link invariant of Tarjan's search, and leaves the low link at the lowest stack entry the new part of the stack points to |
| CycleFinder.Search.Open | scripts/audit_project_structure.py:67-71 | numbering and pushing a node begins an open visit of it and uses up one unvisited node |
| CycleFinder.Search.Explore | scripts/audit_project_structure.py:72-77 | after one target the low link accounts for that target as well, whether it was new, on the stack or finished |
| CycleFinder.Search.Finish | scripts/audit_project_structure.py:78-88 | closing a visit either keeps the node for a deeper root or takes one whole component off the stack and reports it if cyclic |
| CycleFinder.Search.PopDownTo | scripts/audit_project_structure.py:80-86 | the pop loop removes exactly the stack from the node upward and keeps `on_stack` equal to the stack |
| CycleFinder.Search.VisitAll | scripts/audit_project_structure.py:90-92 | the outer loop leaves every key visited and no visit open |
| CycleFinder.SegmentIsComponent | scripts/audit_project_structure.py:78-88 | the stack above a root whose low link is its own index is exactly the root's strongly connected component |
| CycleFinder.PushKeepsInv | scripts/audit_project_structure.py:67-71 | pushing a node that the whole stack reaches keeps the search invariant |
| CycleFinder.CloseKeepsInv | scripts/audit_project_structure.py:78-79 | a node with a lower low link may stay on the stack: everything still reaches an open visit |
| CycleFinder.PopKeepsInv | scripts/audit_project_structure.py:80-86 | removing a root's component keeps the invariant and adds exactly that component to the finished nodes |
| CycleFinder.EmitComponent | scripts/audit_project_structure.py:87-89 | appending a component exactly when its root is on a cycle keeps the report equal to the finished cyclic components |
| CycleFinder.EmptyReportIffLayered | scripts/audit_project_structure.py:56-93 | `not cycles` holds exactly when a topological numbering exists |
| Graphs.CyclicIffLargeOrLoop | scripts/audit_project_structure.py:87-89 | the test "more than one member or a self-loop" is exactly lying on a cycle |
| Graphs.AcyclicIffLayerable | scripts/audit_project_structure.py:56-93 | no cyclic component exists iff the nodes have a numbering that falls along every edge |
| Graphs.CycleReportUnique | scripts/audit_project_structure.py:56-93 | a graph has one report only, so dictionary and set order cannot change it |
| Graphs.CycleReportDisjoint | scripts/audit_project_structure.py:56-93 | two entries of a report share no package |
| PackageGraph.BuildGraph | scripts/audit_project_structure.py:39-53 | edges are exactly the collected imports that leave a package, keys exactly the packages that hold a file or are so imported |
| PackageGraph.CollectImports | scripts/audit_project_structure.py:29-37 | the names gathered from a file: those of each plain import, and of each `from` import its module alone |
| PackageGraph.AddFile | scripts/audit_project_structure.py:42-52 | one file adds its own package, the targets of its imports and the edges to them, in whatever order the imports come |
| PackageGraph.PackageInPlain | scripts/audit_project_structure.py:42-42 | a file in a directory belongs to the first one on its path, every other to `_root` |
| PackageGraph.TargetIsFirstPart | scripts/audit_project_structure.py:46-49 | however deep an imported module lies, the edge goes to the first name below the product package |
| PackageGraph.WellSpelledIsSeen | scripts/audit_project_structure.py:29-53 | where every import that leaves its package is absolute and dotted, the true dependencies are the collected ones, with top-level modules counted under `_root` |
| PackageGraph.TrueNumberingPasses | scripts/audit_project_structure.py:29-93 | where every import that leaves its package is absolute and dotted, a numbering of the true dependencies shows the gate no cycle and leaves none hidden from it |
| PackageGraph.PassingNumbersTruly | scripts/audit_project_structure.py:29-93 | where every import that leaves its package is absolute and dotted, the gate passes and nothing comes back to a top-level module, the true dependencies have a numbering |
| PackageGraph.ReportedCyclesAreLarge | scripts/audit_project_structure.py:39-93 | imports inside a package make no self-loop, so no report has a single member |
| PackageGraph.RootIsNeverInACycle | scripts/audit_project_structure.py:42-52 | `_root` is in no reported cycle unless some import names `_root` |
| PackageGraph.MissedSpellings | scripts/audit_project_structure.py:35-48 | `from servicemind import b`, `from ..b import x` and `from .. import b` are such statements |
| Orders.SortSorts | scripts/audit_project_structure.py:72-93 | the sorted list is in order and holds exactly the elements of its input |
| Orders.SortIgnoresOrder | scripts/evaluate_phase4_proxy_release.py:787-791 | under a tie-broken total order the sorted result does not depend on the order of the input |
| Orders.StringLeInPlain | scripts/audit_project_structure.py:72-93 | strings compare as Python's: a prefix comes first, and otherwise the first differing character decides |
| Journal.Bound | scripts/compare_jev_routing.py:219-219 | the reservation of each provider as a number |
| Journal.ReplayPrefix | scripts/compare_jev_routing.py:210-235 | every cut of an acceptable journal, which is all a crash can leave, is acceptable |
| Journal.ReplayFails | scripts/compare_jev_routing.py:210-235 | a malformed line makes every journal that continues it fail with the same error |
| Journal.LineTakenIff | scripts/compare_jev_routing.py:210-235 | which lines the replay takes, and which of the two errors stops it at the others |
| Journal.ApplyTotals | scripts/compare_jev_routing.py:237-249 | what one more line does to the settled and open totals that `summary` recomputes from scratch |
| Journal.OpenAfter | scripts/compare_jev_routing.py:210-235 | only a reserve line opens an attempt, and its own; a settle or void line closes its own and no other |
| Journal.ReplayOpenAtBound | scripts/compare_jev_routing.py:217-222 | in an accepted journal an open attempt holds exactly its provider's full-context price and a voided one nothing |
| Journal.AttemptsCountedOnce | scripts/compare_jev_routing.py:237-249 | attempts are the reserve lines, and each is open, settled or void exactly once |
| Journal.SettlesCountedOnce | scripts/compare_jev_routing.py:237-249 | every settle line is one settled attempt and stays one |
| SpendLedger.AppendAccepted | scripts/compare_jev_routing.py:203-235 | a line the replay takes extends an accepted journal to an accepted one with the book advanced by that line |
| SpendLedger.EnterAccepts | scripts/compare_jev_routing.py:178-198 | whatever opening lets through is a journal every later call can replay, and existing lines are untouched |
| SpendLedger.EnterInPlain | scripts/compare_jev_routing.py:172-198 | which journals open, with what header and budget, and which errors refuse the others |
| SpendLedger.Ledger.Open | scripts/compare_jev_routing.py:172-198 | success gives a valid ledger on the file, with a header written only to an empty one; every error leaves the file as it was |
| SpendLedger.Ledger.Append | scripts/compare_jev_routing.py:203-208 | file and memory gain the line alike, and a line the replay takes leaves a valid ledger whose book is advanced by that line |
| SpendLedger.Ledger.Reservations | scripts/compare_jev_routing.py:210-235 | the loop computes the replay, including which error a malformed line raises |
| SpendLedger.Ledger.Summarize | scripts/compare_jev_routing.py:237-249 | the settled, unresolved and accounted totals and the number of attempts of the current journal |
| SpendLedger.Ledger.Reserve | scripts/compare_jev_routing.py:251-275 | one line is appended or nothing is, and every refusal comes in the order of the checks: same provider open, attempt cap, unknown provider, budget |
| SpendLedger.ReserveRefusedBecause | scripts/compare_jev_routing.py:251-264 | which refusal a reservation meets, by what is open, counted, settled and asked for, and when it meets none |
| SpendLedger.Ledger.Settle | scripts/compare_jev_routing.py:292-310 | an open attempt is closed at the provider's cost or list price; every refusal leaves the journal alone |
| SpendLedger.SettleInPlain | scripts/compare_jev_routing.py:292-310 | a settlement closes an open attempt at the reported cost, or at 42 a token without one, and is refused iff the tokens are not positive, the attempt is not open, or the cost is negative |
| SpendLedger.Ledger.Void | scripts/compare_jev_routing.py:277-290 | an open attempt is retired at zero; an unknown or closed one is refused |
| SpendLedger.VoidInPlain | scripts/compare_jev_routing.py:277-290 | a void closes an open attempt at nothing, and is refused iff the attempt is unknown or closed |
| LedgerRuns.StepAppends | scripts/compare_jev_routing.py:169-310 | every call appends at most one line and the journal stays one the replay accepts |
| LedgerRuns.StepKeepsInv | scripts/compare_jev_routing.py:169-310 | each call or reopening keeps one open reservation per provider, the attempt cap, and the budget below the first header |
| LedgerRuns.RunKeepsSpendCap | scripts/compare_jev_routing.py:251-310 | accounted spend stays within the first recorded budget if each settlement costs at most its reservation |
| LedgerRuns.FreshRunIsSafe | scripts/compare_jev_routing.py:169-310 | every run from an empty journal keeps the open and attempt limits, and the recorded budget too if each settlement costs at most its reservation |
| LedgerRuns.ListPriceWithin | scripts/compare_jev_routing.py:292-310 | a settlement at list price, within the context ceiling, costs at most its reservation |
| LedgerRuns.ReserveWithinBudget | scripts/compare_jev_routing.py:262-264 | right after a granted reservation the accounted spend is within the budget in force |
| LedgerRuns.OverchargeBreaksCap | scripts/compare_jev_routing.py:292-310 | a concrete run, one openrouter attempt and its bill, that breaks the cap |
| LedgerRuns.ReopenSameTotals | scripts/compare_jev_routing.py:178-198 | reopening changes no line, only the budget, and that only downward |
| CumulativeLedger.Stage.Reserve | scripts/evaluate_jev_robustness.py:209-231 | the stage's reserve with the carried spend: one line or none, and its four refusals in order |
| CumulativeLedger.RefusedBecause | scripts/evaluate_jev_robustness.py:209-220 | which of the refusals an openrouter reservation meets, by what is open, counted, settled and carried, and when it meets none |
| CumulativeLedger.RunKeepsInv | scripts/evaluate_jev_robustness.py:185-231 | in every reachable journal one reservation is open at most and attempts, voided ones included, stay within 550 |
| CumulativeLedger.ReserveGrantedIff | scripts/evaluate_jev_robustness.py:209-231 | an openrouter reservation is granted iff the journal with its 11,010,048 has one open reservation, at most 550 attempts, and settled, open and historical amounts within the budget |
| CumulativeLedger.OverspendIsLast | scripts/evaluate_jev_robustness.py:185-231 | if a settlement takes the total over the limit, it is the last line the journal can ever hold |
| CumulativeLedger.OpenBlocks | scripts/evaluate_jev_robustness.py:212-214 | while an attempt is open no reservation succeeds, across any number of reopenings |
| JevCalls.CallJev | scripts/compare_jev_routing.py:353-412 | the lines one request leaves and the result or stop code it ends with, for every reply; a billable answer is settled before it is judged |
| JevCalls.SettleAnswer | scripts/compare_jev_routing.py:392-406 | an answer is settled if it can be and only then judged: context bound, cost bound, decision |
| JevCalls.CallLinesAccepted | scripts/compare_jev_routing.py:353-412 | after a granted request its own reservation is open iff the reply could not be settled, and no other is |
| JevCalls.VoidDangling | scripts/evaluate_jev_robustness.py:88-119 | voiding the dangling reservations retires exactly the one just rejected |
| JevCalls.RetireOne | scripts/evaluate_jev_robustness.py:117-119 | a rejected attempt followed by its void leaves nothing open and only this call's identifiers new |
| JevCalls.LastAttempt | scripts/compare_jev_routing.py:368-421 | a call's result is the refusal of its last attempt or what its reply comes to at the total the journal ends with |
| JevCalls.RetryLeavesNothingOpen | scripts/evaluate_jev_robustness.py:102-133 | no reservation is open on a normal return or after the last transient rejection |
| JevCalls.DecisionIsPaidFor | scripts/compare_jev_routing.py:399-412 | a returned decision has its reservation and settlement as the journal's last lines, and settled, open and historical amounts together are within the budget |
| JevCalls.TransportErrorStaysOpen | scripts/evaluate_jev_robustness.py:102-133 | an unknown outcome keeps exactly its own reservation open; it is never voided |
| JevCalls.OpenReservationStopsCalls | scripts/evaluate_jev_robustness.py:212-214 | while anything is open every later call stops at its first attempt and writes nothing |
| CallRuns.CutReaches | scripts/evaluate_jev_robustness.py:102-133 | whatever lines a crash leaves of a run are a run too |
| CallRuns.OverspendingCallIsLast | scripts/evaluate_jev_robustness.py:102-133 | once a call has taken the total past the limit, no later run adds a line |
| Routing.SelectThreshold | scripts/evaluate_jev_robustness.py:270-307 | the loop and the maximum compute the selection function, its refusals included |
| Routing.HybridInPlain | scripts/evaluate_jev_robustness.py:234-240 | the model's route at or above the threshold, the rule's below it or without a decision, and which of them it was |
| Routing.CorrectInPlain | scripts/evaluate_jev_robustness.py:252-252 | correct are the rows at which the arm that decides gives the expected route |
| Routing.DangerInPlain | scripts/evaluate_jev_robustness.py:246-258 | dangerous are the rows that expect complex_workflow or unsupported and are routed to a simple query, for the hybrid and for the rules |
| Routing.EligibleInPlain | scripts/evaluate_jev_robustness.py:280-297 | a grid value is eligible iff the hybrid is no more dangerous on dev than the rules and right on every guard row on which they are |
| Routing.FallbackMakesSelectionSafe | scripts/evaluate_jev_robustness.py:270-307 | with a grid value above every confidence the choice exists, is right on dev at least as often as the rules, no more dangerous, and loses no guard row |
| Routing.ZeroCoverageIff | scripts/evaluate_jev_robustness.py:234-241 | Jev decides no row exactly when the threshold is above every confidence |
| Routing.CoverageFalls | scripts/analyze_jev_routing.py:89-115 | raising the threshold never gives Jev more rows |
| Experiment.StepKeepsInv | scripts/evaluate_jev_robustness.py:489-618 | every effect of the stage loop, every crash and every restart keeps files and memory consistent |
| Experiment.RunKeepsInv | scripts/evaluate_jev_robustness.py:489-618 | the same over any sequence of them |
| Experiment.CompletedIsFinal | scripts/evaluate_jev_robustness.py:74-85 | after COMPLETED no process starts and nothing changes |
| Experiment.RestoreRereads | scripts/evaluate_jev_robustness.py:490-514 | a restart rebuilds exactly the checkpointed rows, looked up by id, with hybrid and call status cleared and observed rows marked so |
| Experiment.StartableIff | scripts/evaluate_jev_robustness.py:74-85 | for any files: a restart is accepted iff there is no report, or one that is not complete, has as many rows as there are cases and their ids, and holds last under each id the route the rules give now |
| Experiment.RestartRefusedIff | scripts/evaluate_jev_robustness.py:74-85 | on files that any run from nothing left, a restart is refused iff the report is complete or a rule decision has drifted: the ids are never at fault |
| Experiment.CheckpointDueIff | scripts/evaluate_jev_robustness.py:586-586 | a report is saved after a row iff the rows of its split so far are a multiple of ten or none follows |
| Experiment.EndsAreEnabled | scripts/evaluate_jev_robustness.py:531-617 | at the end of a split the freeze check and the completion check pass |
| Checkpoints.StepKeeps | scripts/evaluate_jev_robustness.py:562-617 | each effect keeps the bound on unsaved rows, keeps memory ahead of the file, and drops nothing from the file |
| PaidRuns.RunShadows | scripts/evaluate_jev_robustness.py:489-617 | a joint run of experiment and journal, with crashes inside calls, is a run of the experiment alone and keeps the ledger's limits |
| PaidRuns.OpenReservationBlocksForever | scripts/evaluate_jev_robustness.py:209-231 | with a reservation open and no process running, no later process writes a journal line or observes a row |
| PaidRuns.EveryObservationIsSettled | scripts/evaluate_jev_robustness.py:562-617 | in every reachable state the observed rows, saved or in memory, are at most the settled attempts of the journal |
| Provenance.EveryRuleWasRouted | scripts/evaluate_jev_robustness.py:491-514 | over every run the rule decision at a row is the router's of one of the processes, or was there at the start |
| StageRun.Runner.DoRow | scripts/evaluate_jev_robustness.py:562-596 | one row: skip, call, stop or checkpoint, each as a step of the relation; only this row can change, by the call's own decision and attempts, and a saved report holds these rows |
| StageRun.Runner.PayRow | scripts/evaluate_jev_robustness.py:565-572 | a call's decision and attempts are written at the row and nothing else changes, or the stop is saved and the process over |
| StageRun.Runner.Stop | scripts/evaluate_jev_robustness.py:573-585 | a failed call or a changed model ends the process with a saved report of these rows; the decision of a changed model is kept at its row |
| StageRun.Runner.Checkpoint | scripts/evaluate_jev_robustness.py:586-596 | the report is saved when due, as a step of the relation |
| StageRun.Runner.DoFreeze | scripts/evaluate_jev_robustness.py:532-555 | the threshold is loaded if frozen and otherwise selected and written once; on sound files the only other end is that no threshold is eligible |
| StageRun.Runner.DoSplit | scripts/evaluate_jev_robustness.py:561-601 | a split ends at its last row unless the process dies or a call stops it; rows of the split may hold what the call at their place gave, all else is as before |
| StageRun.Runner.DoComplete | scripts/evaluate_jev_robustness.py:602-617 | the hybrid column and the validation lead to a COMPLETED report of these rows unless the process dies |
| Binomials.ExtremeWalks | scripts/evaluate_jev_robustness.py:310-317 | among the walks of a + b unit steps, those ending at distance at least the absolute difference of a and b number twice the binomial tail, or all of them when a equals b |
| Binomials.WalksByUps | scripts/evaluate_jev_robustness.py:348-351 | walks counted one by one equal walks counted by their number of upward steps with binomial weights |
| Binomials.TailMirror | scripts/evaluate_jev_robustness.py:310-317 | the two ends of a binomial row mirror each other |
| Binomials.RowSum | scripts/evaluate_jev_robustness.py:310-317 | a binomial row sums to a power of two |
| PairedTests.UnitStepsAreWalks | scripts/evaluate_jev_robustness.py:346-351 | over gains, losses and ties of one, extreme sign patterns are extreme walks, doubled once for each tie |
| PairedTests.UnitStepsGiveExactP | scripts/evaluate_jev_robustness.py:346-366 | there the permutation p is the exact p of the gains and losses |
| PairedTests.StrataReorder | scripts/evaluate_jev_robustness.py:330-346 | grouping by dataset reorders the cluster differences and does nothing else |
| PairedTests.GroupRows | scripts/evaluate_jev_robustness.py:327-336 | the first dictionary holds every cluster's net gain, in order of first appearance |
| PairedTests.GroupByStratum | scripts/evaluate_jev_robustness.py:330-337 | the second one holds each dataset's cluster gains |
| PairedTests.CollectDifferences | scripts/evaluate_jev_robustness.py:327-346 | the two dictionaries together give the specified list of differences |
| PairedTests.ExtremePatterns | scripts/evaluate_jev_robustness.py:347-351 | the loop over all sign patterns counts the extreme ones |
| PairedTests.Compare | scripts/evaluate_jev_robustness.py:320-367 | the counts and both p-values of a comparison, equal on one-row clusters |
| Holm.StepIsClosedTest | scripts/evaluate_jev_robustness.py:374-380 | the running maximum after each sorted p is that closed test |
| Holm.ClosedTestBounds | scripts/evaluate_jev_robustness.py:374-380 | an adjusted p is at least the raw p or one, at most one, and at most the number of names times the raw p |
| Holm.ClosedTestMonotone | scripts/evaluate_jev_robustness.py:374-380 | adjustment keeps the raw order, ties included |
| Passages.SplitAll | scripts/evaluate_phase4_proxy_release.py:392-415 | all documents' passages one after another, each document windowed so |
| Passages.EveryWindowIsThere | scripts/evaluate_phase4_proxy_release.py:392-415 | every window of every document is in the whole list, at its place |
| Passages.FloorNeverApplies | scripts/evaluate_phase4_proxy_release.py:398-400 | with titles cut to 80 tokens the content limit is what the title leaves of the ceiling and the overlap is always 48 |
| Passages.TilesRejoin | scripts/evaluate_phase4_proxy_release.py:402-412 | dropping each later window's overlap and concatenating gives the body back |
| Passages.TilesShare | scripts/evaluate_phase4_proxy_release.py:402-412 | every window before another is full, and the next one starts with its last 48 tokens and adds more |
| Passages.PassageIdInjective | scripts/evaluate_phase4_proxy_release.py:405-405 | two passage ids are equal only for the same document id and number, whatever colons the document ids hold |
| Passages.DecimalInPlain | scripts/evaluate_phase4_proxy_release.py:405-405 | the passage number is written in decimal digits without leading zeros |
| Passages.PassageIdsDistinct | scripts/evaluate_phase4_proxy_release.py:392-415 | documents with distinct ids give passages with distinct ids |
| RankFusion.FusedScores | scripts/evaluate_phase4_holdout.py:249-255 | the dictionary holds exactly the documents of the arms, each with the sum of its shares over all places in all arms |
| RankFusion.AddArm | scripts/evaluate_phase4_holdout.py:253-254 | one arm adds its shares to the running dictionary |
| RankFusion.TwoArmsInPlain | scripts/evaluate_phase4_proxy_release.py:774-784 | two arms without repeats give a document 1 / (60 + rank) for each arm it is in and nothing else |
| RankFusion.PoolIgnoresInsertionOrder | scripts/evaluate_phase4_holdout.py:258-261 | the pool depends on the scores alone, not on the order the dictionary was filled in |
| RankFusion.SixtyTwoTies | scripts/evaluate_phase4_proxy_release.py:774-784 | two concrete arms in which rank 62 in both only ties |
| RankFusion.PromotionShares | scripts/evaluate_phase4_proxy_release.py:781-783 | a swap of neighbours raises one document, lowers the other by as much, and touches no third |
| RankFusion.SortedIsRanking | scripts/evaluate_phase4_proxy_release.py:787-791 | the full fused order lists every scored document once, in order |
| PairScores.Consume | scripts/evaluate_phase4_proxy_release.py:1074-1088 | the running offset ends at the number of scores, and every document gets the best score of exactly its own passages with its own question |
| PairScores.ConsumeQuery | scripts/evaluate_phase4_proxy_release.py:1083-1088 | the inner loop advances the offset past exactly one query's pairs |
| PairScores.PairsAtOffset | scripts/evaluate_phase4_proxy_release.py:1059-1088 | at the offset of a document stand its own pairs, and the next document's offset is where they end |
| PairScores.DocScoreIsBestPassage | scripts/evaluate_phase4_proxy_release.py:1085-1088 | a document's score is reached by one of its passages and passed by none |
| PairScores.SortedPairsRankDocs | scripts/evaluate_phase4_proxy_release.py:1089-1090 | sorting the scored pairs ranks the documents by the dictionary built from the same pairs |
| PairScores.RerankPool | scripts/evaluate_phase4_holdout.py:221-230 | with recorded spans each document gets the best score of its own children, or zero without any |
| PairScores.RerankPools | scripts/evaluate_phase4_holdout.py:183-246 | the whole matrix: each document's best child score, or zero without children; it is refused iff there are no pools, as many questions as pools are not given, a pool is not 100 deep, a document is missing, or a best score lies outside the unit interval |
| PairScores.BlendIgnoresOrder | scripts/evaluate_phase4_proxy_release.py:794-818 | the blend depends on which documents are in the window, not on the order they arrive in |
| PairScores.BlendOfSortedPool | scripts/evaluate_phase4_holdout.py:276-282 | blending the reranked list, as one protocol does, or the fused pool, as the other does, ranks the same |
| TeiBatches.Rerank | scripts/evaluate_phase4_holdout.py:152-180 | for arbitrary answers over up to four attempts, failed ones cut short anywhere: every place holds the last score any attempt wrote to it, or zero, negative indexes counted from the end; it raises at once iff some index is out of range, and gives up iff all four fail |
| TeiBatches.WriteAnswers | scripts/evaluate_phase4_holdout.py:168-171 | one attempt writes its answers over what the list held before it |
| TeiBatches.Scatter | scripts/evaluate_phase4_holdout.py:171-173 | one answer's items, in their order, leave each place its last score and touch no other place |
| TeiBatches.SlotInPlain | scripts/evaluate_phase4_holdout.py:171-171 | place i of a list of n is reached by the indexes i and i - n and by no other |
| TeiBatches.ChunksInPlain | scripts/evaluate_phase4_holdout.py:155-157 | batches of sixteen, as many as it takes and no more |
| TeiBatches.LastWriteDecides | scripts/evaluate_phase4_holdout.py:171-173 | a named place holds the score of the last item that names it, an unnamed one what it held |
| TeiBatches.UnnamedKeepsZero | scripts/evaluate_phase4_holdout.py:152-173 | a text left out of the one honest answer comes back with zero and nothing raises |
| TeiBatches.FailedAttemptShowsThrough | scripts/evaluate_phase4_holdout.py:152-180 | a text left out by the attempt that succeeds comes back with the score a failed one wrote |
| TeiBatches.StrayIndexOverwrites | scripts/evaluate_phase4_holdout.py:171-173 | an index below its batch overwrites a score of the batch before |
| ScoreCache.StepKeepsInv | scripts/evaluate_phase4_proxy_release.py:315-354 | every effect of the chunk loop and every crash, with any part of the unflushed writes lost, keeps the entries below the recorded position right |
| ScoreCache.PublishedIsRight | scripts/evaluate_phase4_proxy_release.py:315-354 | over runs of one job, after any number of crashes outside the promotion window the cache handed out is `predict` on every pair, in order |
| ScoreCache.FreshDirectoryIsRight | scripts/evaluate_phase4_proxy_release.py:315-354 | the same for any run that began with no files |
| ScoreCache.FreshDirectoryGoesWrongIff | scripts/evaluate_phase4_proxy_release.py:315-354 | from no files at all, runs of one job of either cache can go wrong iff some score is not zero |
| ScoreCache.RunsToWindow | scripts/evaluate_phase4_proxy_release.py:341-351 | a mapping process left alone comes to the window with every entry claimed by the progress file |
| ScoreCache.BothCachesRecordEnd | scripts/evaluate_phase4_proxy_release.py:340-348 | the score cache and the embedding cache both record their last chunk |
| ScoreCache.WindowCrash | scripts/evaluate_phase4_proxy_release.py:350-353 | when a crash between the promotion and the identity file is harmful to later runs of the same job: exactly if the older identity is not its own and the progress file claims an entry that zeros would get wrong |
| ScoreCache.WindowLosesScores | scripts/evaluate_phase4_proxy_release.py:350-353 | that window is reached by an ordinary run, and a wrong cache can follow |
| ScoreCache.RunsToPublication | scripts/evaluate_phase4_proxy_release.py:341-354 | a process left alone publishes what it held below its position |
| ScoreCache.CrashCostsAtMost | scripts/evaluate_phase4_proxy_release.py:340-354 | over every run of one job from no files: pair scores are recorded at multiples of 512 and at the end, so a crash costs 512 at most; embeddings at multiples of 2048, so 2048 at most |
| ScoreCache.Scores | scripts/evaluate_phase4_proxy_release.py:315-354 | one uninterrupted call, for any chunk size and checkpoint rule and so for both caches, is a run of the relation, ends verified, and is right if the files were trustworthy |
| ScoreCache.Prepare | scripts/evaluate_phase4_proxy_release.py:480-496 | resuming or starting a map, as steps of the relation |
| ScoreCache.ScoreChunk | scripts/evaluate_phase4_proxy_release.py:341-348 | one chunk is written, flushed and recorded as steps of the relation, and the position advances |
| ScoreCache.Promote | scripts/evaluate_phase4_proxy_release.py:350-354 | the promotion, identity file and end of the progress file, as steps that leave a verified cache |
| SharedCache.NonzeroGoesWrong | scripts/evaluate_phase4_proxy_release.py:300-354 | one score that is not zero, in one job, is enough to go wrong from any files whatever, as soon as a second job shares them |
| SharedCache.TakesOver | scripts/evaluate_phase4_proxy_release.py:323-353 | a job that the files do not verify can publish over whatever they hold and put its identity there |
| SharedCache.ZeroShares | scripts/evaluate_phase4_proxy_release.py:300-354 | among jobs that score zero throughout, files trustworthy for all stay so over every interleaving and crash |
| SharedCache.SharedFreshDirectoryIsRight | scripts/evaluate_phase4_proxy_release.py:300-354 | from no files at all, every interleaving without a crash between promotion and identity file or between the two unlinks hands each job its own scores |
| SharedCache.OwnStep | scripts/evaluate_phase4_proxy_release.py:323-353 | every effect, and every crash outside those two places, keeps the running job's map right and the progress file its own before it promotes |
| SharedCache.OtherStep | scripts/evaluate_phase4_proxy_release.py:323-353 | every effect, and every crash outside those two places, leaves each other job its right cache, or no claim the running job's map could pass for |
| SharedCache.WindowHarmsOther | scripts/evaluate_phase4_proxy_release.py:350-353 | a crash between promotion and identity file harms another job exactly if the identity file is that job's and the promoted scores, as many as its own, differ from its own |
| SharedCache.VerifiedThenWrong | scripts/evaluate_phase4_proxy_release.py:300-354 | from files verified for one job, an ordinary run of another with as many pairs and other scores comes to that crash, after which the first is handed the scores of the second |
| SharedCache.UnlinkHarmsOther | scripts/evaluate_phase4_proxy_release.py:329-332 | a crash between the two unlinks is reached from any recorded progress of another job, and harms that job exactly if the progress claims a score that is not zero |
| Blend.RankingPermutes | scripts/evaluate_phase4_proxy_release.py:794-818 | the ranking rearranges its window, nothing more |
| Blend.ScoreDecides | scripts/evaluate_phase4_proxy_release.py:794-818 | one document precedes another iff its blended score is higher, or equal with the smaller id |
| Blend.RetrievalInPlain | scripts/evaluate_phase4_proxy_release.py:809-816 | the retrieval score is linear between zero at the window's least and one at its greatest, and one half where these are no more than 1e-12 apart |
| Blend.RefusedIff | scripts/evaluate_phase4_proxy_release.py:794-818 | it raises iff the window is empty or a document in it lacks one of its scores |
| Blend.LargeLeadPrecedes | scripts/evaluate_phase4_proxy_release.py:794-818 | a rerank lead over (1 - w) / w wins whatever the retrieval scores; at 0.85 that is 3/17 |
| Blend.RescalingChangesNothing | scripts/evaluate_phase4_proxy_release.py:809-816 | a positive affine rescaling of the retrieval scores that leaves the span above 1e-12 changes no ranking |
| Blend.FullWeightIsRerankOrder | scripts/evaluate_phase4_proxy_release.py:794-818 | at weight one the ranking is the pure rerank order |
| Blend.RetrievalInUnit | scripts/evaluate_phase4_proxy_release.py:809-816 | the rescaled retrieval score lies between zero and one |
| Abstention.BeatsIsHigherCut | scripts/evaluate_phase4_proxy_release.py:727-729 | the tuple comparison's tie-breaks all come down to the higher cut |
| Abstention.ObservedMatchesCut | scripts/evaluate_phase4_proxy_release.py:735-739 | every real cut is matched by an observed score |
| Abstention.RatesInPlain | scripts/evaluate_phase4_proxy_release.py:731-740 | a cut answers the questions that score at or above it and abstains from those below, as shares of each group |
| Abstention.CeilingBoundsEveryCut | scripts/evaluate_phase4_proxy_release.py:750-758 | the in-sample best bounds every real cut, is reached, and is at least one half |
| Abstention.AucBoundsBalanced | scripts/evaluate_phase4_proxy_release.py:741-758 | the AUC is at least twice the balanced accuracy of any cut, less one |
| Abstention.AucComplement | scripts/evaluate_phase4_proxy_release.py:741-749 | exchanging the two groups turns the AUC into what it lacks of one, ties and all |
| Abstention.Measure | scripts/evaluate_phase4_proxy_release.py:713-768 | calibrate on the first 40 and 20, measure on the rest: the reported balanced accuracy never exceeds the reported ceiling; it raises iff one part is empty |
| Fairness.MaxConcurrency | scripts/benchmark_worker_capacity.py:518-533 | what is reported for a tenant, and that it is at most one iff no two of the tenant's runs overlapped |
| Fairness.TimelineCountsActive | scripts/benchmark_worker_capacity.py:524-530 | the changes up to an instant add up to the runs active at it |
| Fairness.PrefixBelowInstant | scripts/benchmark_worker_capacity.py:528-530 | because ends sort before starts, the running sum at a start never exceeds the runs active then |

## Left out

- Floating point and rounding: scores, p-values, times and money are exact reals; NaN and infinite amounts, which the ledger rejects by a test of its own, are not values here.
- Reading old journal lines without a provider field as typesafe ones; payload hashes, timestamps and reasons on journal lines.
- File locks, HTTP, timeouts, back-off waits, receipts, `retries.jsonl`, account files, `freeze.json`, `verify_spec` and its digests.
- A journal line, a checkpoint, the selection file and a progress file are each written whole or not at all; a torn selection file, which the script writes in place, is not modelled.
- The digest of the dev predictions is modelled by the rows themselves, that is, as injective.
- `jev_status` is reduced to whether the row counts as observed; which stop code a stopped report names is in `JevCalls`, not in `Experiment`.
- Exactly one paid call per row: observations after the last checkpoint are lost with the process and paid for again; `Checkpoints` bounds how many.
- `CumulativeLedger` extends `SpendLedger` in the source; here a `Stage` holds a ledger. Its settle and void are the base ledger's, as in the source.
- HTTP status codes are taken to have three digits, so that the prefix `http_5` means 500 to 599.
- The bootstrap interval of `comparison` and of the offline analysis, and block lengths, which only it uses: the result depends on a library's random generator.
- `metrics` beyond the counts selection uses, the reported candidate list, risk-coverage curves, Markdown and JSON rendering, argument parsing, exit codes.
- Finding a document's title, tokenizing and decoding: a document comes with its title and token lists. Embedding, dense ranking, `_distinct_documents`, the search engine and the index.
- A job of `ScoreCache` fixes its pairs, their order and the window, all of which its identity is taken to tell apart; the memory map is a sequence whose unflushed entries a crash may keep or lose one by one.
- Two processes at the same time on one cache's files: `SharedCache` takes them one after another, in any order and killed anywhere.
- The concurrency of `_tei_rerank`, which hands batches on in order, and answers whose items lack a field; a failed attempt is given by what it wrote before the error. The holdout's own whole-matrix cache. `PairScores.RerankPool` takes the flat scores to be right; `TeiBatches` says when they are.
- The rest of `Experiment` in the worker benchmark: submitting work, polling, SQL, percentiles.
- The other checks of the structure audit: domain and source boundaries, the scaffold import budget, parsing of Python files; imports made by `importlib`, and the `__init__` files that an import of a deeper module runs on its way.
