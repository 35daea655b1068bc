# Decision cores of the security research server

The repository is a local MCP server for security research on approved programs: it analyses offline evidence, proposes
and ranks hypotheses, guards what may be promoted or sent, and follows released versions of a target. This project
models the parts of it that decide something and proves that each agrees with a simpler specification: searches, greedy
selectors, incremental indexes and lifecycles.

Objects whose methods update their fields are classes here, and every such method is proved against a function of its
old state or against a property stated outright. The laws a reader wants are then lemmas about those functions, over
all inputs and over whole runs. What a main operation answers is also said once without those functions, on its inputs
alone, with the statuses, constants, fields and order of reasons of the source written out: in predicates called
`Answers`, `Reads`, `Shows` or after the operation, which the main methods promise. Calls into code outside the model
are arbitrary function values (providers, scouts, reviewers, similarity backends, the redactor, canonical JSON and text
syntax), whose few laws are named predicates such as `Lawful`.

| file | models |
|---|---|
| `VersionBisect.dfy` | the memoised binary search over immutable revisions |
| `Portfolio.dfy` | quotas, staged greedy selection, caps and the reviewer |
| `EvidenceGraph.dfy` | the capped graph that is extended from its last snapshot |
| `ScoutLedger.dfy` | the SQLite index as a fold over the event log |
| `LedgerRows.dfy`, `LateRecords.dfy` | what events do to one row, and what a record does when it is applied late |
| `LedgerSchedules.dfy` | when an index filled in as events happen equals one rebuilt from the log |
| `Promotion.dfy` | promotion into the candidate lifecycle, across crashes |
| `ReleaseMonitor.dfy`, `RegressionSpec.dfy` | the release monitor and the specifications it asks for |
| `RequestBudget.dfy` | the sliding-window request budget |
| `ProgramPolicy.dfy`, `ProgramStore.dfy` | policy normalisation and the approval lifecycle that relies on it |
| `PolicyReading.dfy` | what validating a policy answers, field by field |
| `PolicyExamples.dfy` | policies whose normal form is not fixed, or cannot be read |
| `WebUrl.dfy`, `ScopeDecision.dfy` | URL canonicalisation, scope decisions, session plans, granted URLs |
| `StructuralDiff.dfy` | the JSON comparison |
| `ScoutPipeline.dfy` | a budgeted scout run with structural deduplication |
| `Collections.dfy`, `Strings.dfy`, `Wrappers.dfy` | sorting, sets, ordered strings, options |

Where the code does not do what its documentation or its callers rely on, the code is modelled as it is, the exact
condition is proved, and a lemma gives an input that fails it:

- a portfolio holds at most `slots` members for every input exactly when all four quotas are positive, because a stage
  tests its quota only after an addition (`Portfolio.NeverOverrunsExactly`, `Portfolio.OverrunExample`);
- an extended evidence graph that is not truncated is the graph of a rebuild exactly when no indexed proposal's readable
  evidence has changed since, and the truncation flag of any is a rebuild's exactly when a limit is exceeded under both
  readings of the evidence or under neither (`EvidenceGraph.SnapshotMatchesRebuildExactly`,
  `EvidenceGraph.FlagMatchesExactly`, `EvidenceGraph.LateEvidenceMissed`);
- `_save_state` leaves its events unmarked, so a sync applies them again; where the records not applied yet
  land in their places (as below) and commute with the later of these events, the index then equals a rebuild exactly
  when those records erase what applying the events again changes, which with nothing left to apply means that each
  proposal's status still is the one of its last unmarked state event (`LedgerSchedules.SyncExactly`,
  `LedgerRows.ErasesExactly`, `LedgerRows.CurrentNow`; `LedgerSchedules.OvertakenState`,
  `LedgerSchedules.OvertakenExample`);
- a record saved and not indexed is applied after later ones, and then leaves what it would have left in its place
  exactly when it lands: an insertion is ignored late only if it would have been ignored in time, a triage that a final
  status keeps out late had no effect on the scores in time either, one that takes effect late had the last word in
  time too, and so on for each kind of record (`LateRecords.LateExactly`, by kind `LateRecords.TriageExactly`,
  `LateRecords.SettlingExactly`, `LateRecords.InsertionExactly`, `LateRecords.MembersExactly`,
  `LateRecords.EvaluationExactly`). So a sync with one record left to apply equals a rebuild exactly when that record
  lands (`LedgerSchedules.LateSyncExactly`), and a schedule whose events apply one record each always equals one exactly
  when all of them do (`LedgerSchedules.ScheduleExactly`). A triage that a portfolio overtakes lands exactly when the
  portfolio does not select its proposal, or the row was final or had the same scores before
  (`LedgerSchedules.SkippedExactly`; `LedgerSchedules.SkippedTriage`, `LedgerSchedules.SkippedExample`); candidates and
  other records without a table always do (`LedgerSchedules.OtherCommutes`, `LedgerSchedules.PromotingHarmless`);
- validating a validated policy gives it back exactly when the prohibitions given and built in together are at most a
  hundred, no private network is written in two ways, no host grows past 253 characters when IDNA writes it, and the
  canonical submission URL is short enough (`ProgramPolicy.ValidateFixedPoint`; `PolicyExamples.TooManyProhibitions`,
  `PolicyExamples.TwoSpellings`, `PolicyExamples.UmlautHost`, `PolicyExamples.MarkedUrl`);
- approving an unmodified source is accepted by `approved` exactly when it is such a policy and its normal form, with
  every default filled in, is at most 64 KiB and 10,000 nodes (`ProgramStore.UnmodifiedAccepted`,
  `ProgramStore.CreatedLaunches`; `PolicyExamples.TooManyNodes`, `PolicyExamples.UnmodifiedRefused`,
  `PolicyExamples.CreatedStuck`);
- a URL and its canonical form are treated alike exactly when the canonical form is at most 2048 characters
  (`WebUrl.CanonicalFixedPoint`, `WebUrl.LongPath`, `ScopeDecision.CanonicalDecision`, `ScopeDecision.LongPathDecided`);
- a proposal reported as already promoted is reported with the candidate its promotion record names exactly when no
  candidate of the proposal has a smaller id (`Promotion.ReportedCandidate`, `Promotion.ReportedExample`);
- a comparison is refused for too many changes exactly when 200 have been recorded before its last pair of values is
  visited, so exactly 200 changes may or may not be refused (`StructuralDiff.Compare`,
  `StructuralDiff.TwoHundredEitherWay`);
- a scout run reads the proposals of earlier runs in the order of the times they carry, so that the one unflagged proposal
  of each structure stays the first of it exactly when none after it carries an earlier time, or the same time and a
  smaller id (`ScoutPipeline.RereadExactly`, `ScoutPipeline.OutOfOrder`).

## Model

| member | source | states |
|---|---|---|
| VersionBisect.Log2CeilExact | src/ctf_mcp/full_hunt/bisect.py:206-224 | the bound on halvings is the least power-of-two exponent that covers the gap |
| VersionBisect.MiddleHalves | src/ctf_mcp/full_hunt/bisect.py:207-208 | both halves of a gap need one halving less than the gap |
| VersionBisect.HalvesCost | src/ctf_mcp/full_hunt/bisect.py:206-224 | either half of a gap is smaller and needs at least one halving less |
| VersionBisect.NarrowedStep | src/ctf_mcp/full_hunt/bisect.py:208-224 | one observation in the gap keeps its ends tested with the initial and the terminal status, and keeps a single change between them |
| VersionBisect.MonotoneShows | src/ctf_mcp/full_hunt/bisect.py:206-224 | a provider that changes once is observed clean, with the status of its side, at every tested position |
| VersionBisect.WindowStep | src/ctf_mcp/full_hunt/bisect.py:225-240 | one position of the window either agrees with the boundary or gives a witnessed reason to stop |
| VersionBisect.WindowInversion | src/ctf_mcp/full_hunt/bisect.py:225-240 | a position on the wrong side of the boundary comes with a tested pair in the wrong order |
| VersionBisect.JustifyFound | src/ctf_mcp/full_hunt/bisect.py:225-245 | after a clean search and window the reported boundary is justified: adjacent lower bound, every window position on its side, and the only change of a monotone provider |
| VersionBisect.JustifyStop | src/ctf_mcp/full_hunt/bisect.py:206-240 | a blocked or non-monotonic verdict carries the observation or the inverted pair that caused it, and never meets a monotone provider |
| VersionBisect.VersionBisector.constructor | src/ctf_mcp/full_hunt/bisect.py:157-163 | a new bisector has an empty cache and no lifecycles |
| VersionBisect.VersionBisector.Create | src/ctf_mcp/full_hunt/bisect.py:157-163 | a bisector is made exactly for windows of 1 to 3 |
| VersionBisect.VersionBisector.Observe | src/ctf_mcp/full_hunt/bisect.py:247-308 | the cache gains exactly one provider answer for a new identity and none for a known one, with one lifecycle each |
| VersionBisect.VersionBisector.Halve | src/ctf_mcp/full_hunt/bisect.py:206-224 | one turn of the search narrows the gap to one of its halves with at most one observation |
| VersionBisect.VersionBisector.Search | src/ctf_mcp/full_hunt/bisect.py:206-224 | the search ends with adjacent tested ends or a witnessed problem, after at most ceil(log2(n-1)) observations |
| VersionBisect.VersionBisector.Endpoints | src/ctf_mcp/full_hunt/bisect.py:189-205 | both ends are tested and bracket a change, or the verdict names why not |
| VersionBisect.VersionBisector.CheckWindow | src/ctf_mcp/full_hunt/bisect.py:225-240 | every position of the neighbour window is tested on its own side, or the verdict is witnessed |
| VersionBisect.VersionBisector.Decide | src/ctf_mcp/full_hunt/bisect.py:206-240 | search and window together cost at most ceil(log2(n-1)) + 2w - 1 further observations |
| VersionBisect.VersionBisector.RunOn | src/ctf_mcp/full_hunt/bisect.py:189-245 | every verdict is justified by observations, exact for monotone providers on a fresh bisector, within ceil(log2(n-1)) + 2w + 1 observations |
| VersionBisect.VersionBisector.Conclude | src/ctf_mcp/full_hunt/bisect.py:206-245 | past the endpoints, the verdict is justified within the cost of search and window |
| VersionBisect.VersionBisector.ReportFound | src/ctf_mcp/full_hunt/bisect.py:241-245 | a confirmed boundary is reported with its justification |
| VersionBisect.VersionBisector.MakeResult | src/ctf_mcp/full_hunt/bisect.py:310-333 | the result lists each cached observation once, in order |
| VersionBisect.ListsExactly | src/ctf_mcp/full_hunt/bisect.py:165-188 | a listing is accepted exactly when it has two distinct revisions or more, each with a commit of forty hexadecimal digits that its identity contains, in rising order, from the start asked for to the end |
| VersionBisect.FailureSeen | src/ctf_mcp/full_hunt/bisect.py:247-308 | what an observer raises, a crash, a reply of the wrong revision, an unacceptable reply and a failed cleanup are each observed as inconclusive with the reason named |
| VersionBisect.HookFailureSeen | src/ctf_mcp/full_hunt/bisect.py:247-308 | so is each hook of a lifecycle that raises or crashes, and a revision that resolves to another |
| VersionBisect.ChangeIsFound | src/ctf_mcp/full_hunt/bisect.py:189-245 | on a fresh bisector the only change among the revisions is the boundary reported, affected after unaffected or the reverse, by mode |
| VersionBisect.RunAnswers | src/ctf_mcp/full_hunt/bisect.py:165-245 | the answer of a fresh bisector, status by status, from what the provider reports at each revision |
| VersionBisect.VersionBisector.Run | src/ctf_mcp/full_hunt/bisect.py:165-245 | for every provider the run gives a justified verdict within the cost bound; on a fresh bisector an "introduced" run over revisions observed clean, unaffected before one and affected from it on, reports that one as first affected with its predecessor as lower bound, a "fixed" run the other way round as first fixed, and every other answer is named with its reason |
| Portfolio.SharesAddUp | src/ctf_mcp/scout_portfolio.py:49-55 | the shares of valid ratios add up to the slots closely enough for at most four extra units |
| Portfolio.GrantedSum | src/ctf_mcp/scout_portfolio.py:71-79 | exactly the missing number of extra units is granted |
| Portfolio.RemaindersOrdered | src/ctf_mcp/scout_portfolio.py:71-79 | a quota is its share's floor or one more, and no stage denied a unit has a larger remainder than one granted it |
| Portfolio.QuotasApportion | src/ctf_mcp/scout_portfolio.py:71-79 | the four quotas add up to the slots, each its floor or floor plus one, by largest remainder |
| Portfolio.ComputeQuotas | src/ctf_mcp/scout_portfolio.py:71-79 | the quota dictionary is the apportionment |
| Portfolio.QuotasRead | src/ctf_mcp/scout_portfolio.py:49-79 | stage by stage, the quota is the floor of ratio times slots or one more, and a stage with one more has a larger remainder than one without, or the same and a larger ratio, or both the same and a later name |
| Portfolio.Apportion | src/ctf_mcp/scout_portfolio.py:71-79 | incrementing in ranked order is granting one unit each to the best remainders |
| Portfolio.FillCapped | src/ctf_mcp/scout_portfolio.py:104-127 | a stage keeps members distinct and within both caps |
| Portfolio.FallbackMaximal | src/ctf_mcp/scout_portfolio.py:128-131 | after the fallback either the slots are filled or every eligible item is a member or at a cap |
| Portfolio.SelectedSound | src/ctf_mcp/scout_portfolio.py:98-131 | a selection is distinct, eligible, capped and maximal, and at most the larger of the slots and the sum of max(1, quota) |
| Portfolio.PositiveQuotasFit | src/ctf_mcp/scout_portfolio.py:118-131 | with four positive quotas a selection never exceeds the slots |
| Portfolio.NeverOverrunsExactly | src/ctf_mcp/scout_portfolio.py:118-131 | no list of items can exceed the slots exactly when every quota is positive |
| Portfolio.OverrunExample | src/ctf_mcp/scout_portfolio.py:124-127 | with a zero quota, slots + 4 unrelated items make a selection larger than the slots |
| Portfolio.ExploitationGreedy | src/ctf_mcp/scout_portfolio.py:118-127 | the first stage passes over a better item only if it is chosen or at a cap |
| Portfolio.ReviewOnlyReorders | src/ctf_mcp/scout_portfolio.py:133-146 | no reviewer answer adds or drops a member or breaks a cap |
| Portfolio.ReviewSorts | src/ctf_mcp/scout_portfolio.py:133-146 | a reviewer is shown ids, hypotheses and scores, and the reviewed selection is in the order of the last place it names each member at, unnamed ones after as many places as are named, and otherwise as it was |
| Portfolio.FailureKeeps | src/ctf_mcp/scout_portfolio.py:133-146 | a failed review leaves the selection as it was |
| Collections.SortStable | src/ctf_mcp/scout_portfolio.py:88-103 | sorting keeps elements that are equal in the order in their order |
| Portfolio.ChosenSound | src/ctf_mcp/scout_portfolio.py:98-146 | the reviewed selection has the chosen members and is sound |
| Portfolio.Draft.Add | src/ctf_mcp/scout_portfolio.py:104-117 | adding changes the selection and its counts exactly when no cap is reached and the item is new |
| Portfolio.Draft.RunStage | src/ctf_mcp/scout_portfolio.py:118-127 | a stage leaves what the specification of a fill leaves |
| Portfolio.Draft.RunFallback | src/ctf_mcp/scout_portfolio.py:128-131 | the fallback leaves what its specification leaves |
| Portfolio.ListsRead | src/ctf_mcp/scout_portfolio.py:83-103 | the first stage takes items by expected value, the second by impact times doubt, then impact, then low confidence, the third by novelty, each then by id, and the last in shuffled order |
| Portfolio.SelectedInStages | src/ctf_mcp/scout_portfolio.py:98-131 | each stage adds, in the order of its list, exactly the items new and under both caps, and stops at its quota; the fallback adds what is left in the order of the first list |
| Portfolio.Draw | src/ctf_mcp/scout_portfolio.py:118-131 | four stages and the fallback give the specified selection |
| Portfolio.Finish | src/ctf_mcp/scout_portfolio.py:133-146 | one reviewer call at most, and a failed one leaves the order as it was |
| Portfolio.Select | src/ctf_mcp/scout_portfolio.py:81-146 | slots outside 1..1000 are refused; otherwise the result is a sound selection filled stage by stage from the stages' own lists, whatever the reviewer answers |
| EvidenceGraph.NodeKeepsBounds | src/ctf_mcp/scout_graph.py:110-118 | adding a node keeps the limits, the endpoints and the exactness of the truncation flag |
| EvidenceGraph.EdgeKeepsBounds | src/ctf_mcp/scout_graph.py:119-124 | adding an edge between present nodes keeps them too |
| EvidenceGraph.ProposalKeepsBounds | src/ctf_mcp/scout_graph.py:126-142 | indexing a proposal extends the bounds by its nodes and edges, which `LinksDrawn` writes out |
| EvidenceGraph.LinksDrawn | src/ctf_mcp/scout_graph.py:126-142 | the links of a proposal are the program containing it, its scout type, asset, category, invariant, identity context and resource type, each by its own edge kind, and one edge per usable cited record |
| EvidenceGraph.RebuiltBounds | src/ctf_mcp/scout_graph.py:88-155 | a rebuild is truncated exactly when the unbounded graph exceeds a limit, and otherwise is that graph |
| EvidenceGraph.ExtensibleIndexed | src/ctf_mcp/scout_graph.py:82-109 | a snapshot that is extended has a node for each of its proposals |
| EvidenceGraph.RefreshedSound | src/ctf_mcp/scout_graph.py:82-155 | every refresh, full or incremental, leaves a graph within its limits that is truncated exactly when it must be |
| EvidenceGraph.SoundShows | src/ctf_mcp/scout_graph.py:82-155 | a sound untruncated snapshot has exactly the nodes and edges drawn for its proposals |
| EvidenceGraph.UsedMeans | src/ctf_mcp/scout_graph.py:98-109 | a kept or extended snapshot keeps the evidence a proposal was indexed with, a rebuilt or new one reads it now |
| EvidenceGraph.MaterialRefreshed | src/ctf_mcp/scout_graph.py:33-40 | the source hash is over each listed proposal's id, asset, category, invariant and cited records, and a snapshot with the same is kept |
| EvidenceGraph.SoundEqualsRebuild | src/ctf_mcp/scout_graph.py:82-155 | an untruncated snapshot has the nodes and edges of a rebuild while the evidence is unchanged |
| EvidenceGraph.SnapshotMatchesRebuildExactly | src/ctf_mcp/scout_graph.py:82-155 | an untruncated snapshot is the graph of a rebuild, flag included, exactly when no proposal's readable evidence changed after it was indexed |
| EvidenceGraph.FlagMatchesExactly | src/ctf_mcp/scout_graph.py:98-142 | any snapshot's truncation flag is a rebuild's exactly when the limits are exceeded under the evidence used and the present one alike; evidence only gained keeps a truncated flag right |
| EvidenceGraph.LateEvidenceMissed | src/ctf_mcp/scout_graph.py:98-142 | a record that becomes readable after its proposal was indexed is not picked up by the next extension |
| EvidenceGraph.RefreshKeeps | src/ctf_mcp/scout_graph.py:82-155 | over a chain of refreshes every program's snapshot stays sound |
| EvidenceGraph.Draft.AddNode | src/ctf_mcp/scout_graph.py:110-118 | the draft gains the node, or the truncation flag at the limit |
| EvidenceGraph.Draft.AddEdge | src/ctf_mcp/scout_graph.py:119-124 | the draft gains an edge only between present nodes and under the limit |
| EvidenceGraph.Draft.AddLinks | src/ctf_mcp/scout_graph.py:126-142 | all links of a proposal are offered in order |
| EvidenceGraph.Draft.AddProposals | src/ctf_mcp/scout_graph.py:126-142 | the loop over pending proposals is the specified extension |
| EvidenceGraph.EvidenceGraphBuilder.Compute | src/ctf_mcp/scout_graph.py:82-155 | skipping, extending and rebuilding are chosen as specified |
| EvidenceGraph.EvidenceGraphBuilder.Refresh | src/ctf_mcp/scout_graph.py:82-155 | along any chain of refreshes the snapshot is like a rebuild, and an untruncated graph has exactly the program, the listed proposals and the written-out edges of each, evidence as usable when the proposal was indexed |
| EvidenceGraph.EvidenceGraphBuilder.Store | src/ctf_mcp/scout_graph.py:143-155 | the new snapshot becomes its program's latest |
| ScoutLedger.FoldConcat | src/ctf_mcp/scout_ledger.py:347-361 | indexing two batches is indexing their concatenation |
| ScoutLedger.ApplyAffects | src/ctf_mcp/scout_ledger.py:201-345 | what each kind of record does to each table, with its statuses, conditions and columns written out |
| ScoutLedger.FoldAffects | src/ctf_mcp/scout_ledger.py:331-361 | so does every record of a log in its turn |
| ScoutLedger.PendingOldest | src/ctf_mcp/scout_ledger.py:355-361 | a sync applies the listed records not marked, by time and then id |
| LedgerRows.FoldStates | src/ctf_mcp/scout_ledger.py:316-320 | applying state events changes exactly the statuses, to each proposal's last one |
| ScoutLedger.FoldPromotions | src/ctf_mcp/scout_ledger.py:276-284 | whatever is indexed, a proposal and a candidate each have at most one promotion row |
| LedgerRows.LastTriageDecides | src/ctf_mcp/scout_ledger.py:237-251 | while nothing else settles a proposal its last triage decides both scores and the status its verdict names, and none does once the row is selected, promoted or deduplicated |
| LedgerRows.TriageTaken | src/ctf_mcp/scout_ledger.py:237-251 | one triage among events that pass a row by leaves a selected, promoted or deduplicated row as it was and gives any other both scores and triaged, blocked by scope, needing evidence or not wanted, by verdict |
| LedgerRows.ErasesExactly | src/ctf_mcp/scout_ledger.py:237-284 | setting a row's status again ahead of some events changes nothing in the end exactly when the statuses are equal, or the events settle the proposal and its scores meet, or triage it with neither status final |
| LedgerRows.Meeting | src/ctf_mcp/scout_ledger.py:237-284 | once a proposal is settled its status no longer depends on the one it started with, and its scores exactly if the two took different triages before, and none has taken effect since |
| LedgerRows.AfterAlike | src/ctf_mcp/scout_ledger.py:331-345 | an event acts on each known row by itself, and inserts the same new rows whatever the others say |
| LedgerRows.FoldParts | src/ctf_mcp/scout_ledger.py:331-345 | no table's rows depend on another table |
| LedgerRows.FoldsAgreeExactly | src/ctf_mcp/scout_ledger.py:331-361 | two ledgers that differ in rows only agree after the same events exactly when each row does |
| LedgerRows.CurrentNow | src/ctf_mcp/scout_ledger.py:316-320 | with no backlog, state events are current exactly when every status still is the last of them |
| LedgerRows.ReappliedExactly | src/ctf_mcp/scout_ledger.py:355-361 | applying state events again before a backlog changes nothing exactly when the backlog erases every change of status |
| LateRecords.RowAfterIs | src/ctf_mcp/scout_ledger.py:215-284 | the last settlement or triage taken decides a row's status, the last triage taken its scores, the last duplicate its group, any portfolio its selection |
| LateRecords.TriageExactly | src/ctf_mcp/scout_ledger.py:237-251 | a triage may come to its row after other events exactly if, where they leave the row final, it was final before, a later triage was taken, or the scores were its own; and otherwise if it had the last word on status and scores in its place too |
| LateRecords.SettlingExactly | src/ctf_mcp/scout_ledger.py:226-284 | a duplicate, portfolio, promotion or state event may come to its row after other events exactly if its status would have come back by itself, the scores do not depend on it, and no later duplicate has another group |
| LateRecords.RowsExactly | src/ctf_mcp/scout_ledger.py:215-284 | for all proposals at once: each row the record would have found lets it come late, and rows inserted since already say what it sets; a late proposal is ignored in its place too, or nobody else inserted it and its new row stays as it is |
| LateRecords.InsertionExactly | src/ctf_mcp/scout_ledger.py:226-329 | an INSERT OR IGNORE may come late exactly if it would have been ignored in its place, or is not ignored now |
| LateRecords.MembersExactly | src/ctf_mcp/scout_ledger.py:263-266 | the members of a late portfolio are kept as in its place exactly if no later run has inserted one of them otherwise |
| LateRecords.EvaluationExactly | src/ctf_mcp/scout_ledger.py:201-213 | an INSERT OR REPLACE may come late exactly if nothing later replaced its keys, or the last to do so wrote the same |
| LateRecords.LateExactly | src/ctf_mcp/scout_ledger.py:331-361 | a record applied after any events instead of before them leaves the same tables exactly when each of these conditions holds of it |
| LateRecords.LateByOne | src/ctf_mcp/scout_ledger.py:331-361 | on given tables two records leave the same in either order exactly when one may come after the other |
| LedgerSchedules.ApartCommute | src/ctf_mcp/scout_ledger.py:201-345 | two records about different proposals and different rows of each table have one effect in either order |
| LedgerSchedules.OtherCommutes | src/ctf_mcp/scout_ledger.py:331-345 | a record without a table commutes with every other |
| LedgerSchedules.Merge | src/ctf_mcp/scout_ledger.py:347-361 | applying some records of the log and then others is applying all in order, if the late ones commute with the early ones they come before |
| LedgerSchedules.InsertOneExactly | src/ctf_mcp/scout_ledger.py:331-361 | a record applied late has the effect of its place in the log exactly when it lands there |
| LedgerSchedules.NextExactly | src/ctf_mcp/scout_ledger.py:331-361 | one more record of the log, new or a state event again, leaves the tables of the log's order exactly when it lands, or its status still holds |
| LedgerSchedules.InTurnExactly | src/ctf_mcp/scout_ledger.py:347-361 | the records of a batch, or those a sync finds waiting, keep the tables of the log's order all the way exactly when each fits in its turn |
| ScoutLedger.SyncTwice | src/ctf_mcp/scout_ledger.py:355-361 | a repeated sync changes nothing, whatever the index, the log and the order of listing |
| LedgerSchedules.PendingIs | src/ctf_mcp/scout_ledger.py:358-360 | a sync applies the unmarked records in the order of the log, whatever the index and the order of listing |
| LedgerSchedules.SyncExactly | src/ctf_mcp/scout_ledger.py:355-361 | where each record of the backlog fits and commutes with the later unmarked state events, a sync equals a rebuild exactly when the backlog erases what applying those events again changes |
| LedgerSchedules.LateSyncExactly | src/ctf_mcp/scout_ledger.py:355-361 | with one record left to apply, a sync equals a rebuild exactly when the record lands, or is a state event whose status still holds |
| LedgerSchedules.RebuildIsFold | src/ctf_mcp/scout_ledger.py:355-361 | a sync of an empty ledger, over any listing order, is the fold of the log with every record marked |
| LedgerSchedules.SyncTracks | src/ctf_mcp/scout_ledger.py:355-361 | a harmless sync leaves nothing unmarked and the index that of the whole log |
| LedgerSchedules.BatchTracks | src/ctf_mcp/scout_ledger.py:347-353 | a batch of any records in any order leaves the tables of the log's order, if each lands in its turn |
| LedgerSchedules.StateTracks | src/ctf_mcp/scout_controller.py:208-212 | a state event applied live leaves the tables of the log's order, whatever else waits to be indexed |
| LedgerSchedules.ScheduleAgrees | src/ctf_mcp/scout_ledger.py:226-361 | any schedule of appends, batches of any records, state events and syncs leaves the tables of a rebuild over what was applied, if the records of its batches and syncs fit, or its syncs find no state event overtaken |
| LedgerSchedules.ScheduleExactly | src/ctf_mcp/scout_ledger.py:226-361 | a schedule whose events apply at most one record each, or sync a backlog that fits, always has the tables of a rebuild exactly when every event is harmless |
| LedgerSchedules.MarkedSchedules | src/ctf_mcp/scout_ledger.py:331-361 | when every event is marked as it is applied, timely batches and backlogs make every schedule harmless |
| LedgerSchedules.WaitingTimely | src/ctf_mcp/scout_ledger.py:347-353 | a batch is timely if each record is without a table or apart from the later records applied before it |
| LedgerSchedules.WaitingBacklog | src/ctf_mcp/scout_ledger.py:355-361 | a backlog fits if each record is without a table or apart from the later records applied before it |
| LedgerSchedules.PromotingHarmless | src/ctf_mcp/scout_controller.py:284-299 | a promotion indexed without its candidate, and a state event after it, keep the index on track and leave a backlog that fits |
| LedgerSchedules.OvertakenState | src/ctf_mcp/scout_controller.py:208-212 | a state event saved live and overtaken by a triage makes the next sync differ from a rebuild |
| LedgerSchedules.OvertakenExample | src/ctf_mcp/scout_controller.py:208-212 | three records of which the next sync does not make what a rebuild does |
| LedgerSchedules.SkippedExactly | src/ctf_mcp/scout_controller.py:96-188 | a triage saved and not indexed before a portfolio that is: the next sync equals a rebuild exactly when the portfolio does not select its proposal, or the row is missing, final or scored so already |
| LedgerSchedules.SkippedTriage | src/ctf_mcp/scout_controller.py:96-188 | where it does not, the row keeps its old score where a rebuild has the new one |
| LedgerSchedules.SkippedExample | src/ctf_mcp/scout_controller.py:96-188 | three records of which the next sync does not make what a rebuild does |
| ScoutLedger.ScoutLedger.constructor | src/ctf_mcp/scout_ledger.py:129-147 | a new ledger is empty |
| ScoutLedger.ScoutLedger.RecordProposal | src/ctf_mcp/scout_ledger.py:215-224 | a proposal row is inserted unless its id or record is present |
| ScoutLedger.ScoutLedger.RecordDedup | src/ctf_mcp/scout_ledger.py:226-235 | the relation is kept once, and a duplicate's row gets its group and status |
| ScoutLedger.ScoutLedger.RecordTriage | src/ctf_mcp/scout_ledger.py:237-251 | the result is kept once, and the row is left alone if selected, promoted or deduplicated and otherwise takes both scores and triaged for an eligible verdict, blocked by scope for one out of scope, needing evidence for low evidence, not wanted for the other four |
| ScoutLedger.ScoutLedger.RecordPortfolio | src/ctf_mcp/scout_ledger.py:253-274 | run, members and usage are kept once, and every member's row becomes selected |
| ScoutLedger.ScoutLedger.RecordRun | src/ctf_mcp/scout_ledger.py:257-262 | a run is kept once by its id and by its record |
| ScoutLedger.ScoutLedger.RecordMembers | src/ctf_mcp/scout_ledger.py:263-267 | each member is kept once per run and its row becomes selected |
| ScoutLedger.ScoutLedger.RecordState | src/ctf_mcp/scout_ledger.py:338-339 | an indexed state event changes only the proposal's status |
| ScoutLedger.ScoutLedger.RecordPromotion | src/ctf_mcp/scout_ledger.py:276-284 | at most one promotion per proposal and per candidate, and the row becomes promoted |
| ScoutLedger.ScoutLedger.UpdateState | src/ctf_mcp/scout_ledger.py:316-320 | only the proposal's status changes and nothing is marked |
| ScoutLedger.ScoutLedger.RecordEvaluation | src/ctf_mcp/scout_ledger.py:201-213 | the evaluation replaces the one for its key, and the cache entry too if it has one |
| ScoutLedger.ScoutLedger.RecordFact | src/ctf_mcp/scout_ledger.py:286-329 | a row is inserted unless one of its unique columns is taken |
| ScoutLedger.ScoutLedger.RecordEvent | src/ctf_mcp/scout_ledger.py:331-345 | an acceptable event has its specified effect and is marked; an authorising plan is refused |
| ScoutLedger.ScoutLedger.RecordBatch | src/ctf_mcp/scout_ledger.py:347-353 | all records in order, or none if one is refused |
| ScoutLedger.ScoutLedger.Sync | src/ctf_mcp/scout_ledger.py:355-361 | everything listed and unmarked is recorded, oldest first, or nothing |
| Promotion.GuardExactly | src/ctf_mcp/scout_controller.py:232-256 | promotion's checks pass exactly when the gates `explain` reports are open and the score reaches the threshold |
| Promotion.GatherExactly | src/ctf_mcp/scout_controller.py:268-276 | evidence is gathered exactly when all of it is readable and none of it foreign, and then is the analyses among it; `GatherCites` and `GatherRefuses` say which records those are |
| Promotion.GatherCites | src/ctf_mcp/scout_controller.py:268-276 | what is gathered are ids of records of the log that are analyses without a program or with the approved one, in the order cited, each once and at most twenty |
| Promotion.GatherRefuses | src/ctf_mcp/scout_controller.py:268-276 | the first cited record that is missing, no evidence, or another program's analysis decides the refusal |
| Promotion.FreshExactly | src/ctf_mcp/scout_controller.py:232-301 | a fresh success happens exactly when every gate is true and the evidence, the candidate and the absence of an earlier one allow it; `AttemptAnswers` reads each of these off the log |
| Promotion.OutcomeStatus | src/ctf_mcp/scout_controller.py:232-301 | a call that runs to its end leaves the ledger status its outcome names, and any other rejected call writes nothing |
| Promotion.WriteSafe | src/ctf_mcp/scout_controller.py:208-301 | each write that is due keeps promotion safe |
| Promotion.AppendSafe | src/ctf_mcp/scout_controller.py:257-267 | appending anything but a second promotion or a repeated plan keeps at most one promotion per proposal and one plan of each kind |
| Promotion.PromoteSafe | src/ctf_mcp/scout_controller.py:232-301 | a call, before whichever of its writes it stops, keeps at most one made candidate and one promotion record per proposal and one plan of each kind, and ledger rows that name records |
| Promotion.AttemptAnswers | src/ctf_mcp/scout_controller.py:232-301 | every call that can finish answers as the records of the log say: which proposal, duplicate, triage, portfolio, candidate, promotion and evidence records it finds, which answer follows and what it then saves |
| Promotion.StopsShort | src/ctf_mcp/scout_controller.py:208-301 | a call that stops has saved a beginning of what a whole one saves, and any other is that one |
| Promotion.SuccessMeans | src/ctf_mcp/scout_controller.py:257-301 | a reported success leaves exactly one promotion record, naming an existing candidate of the proposal |
| Promotion.CreatedEvidence | src/ctf_mcp/scout_controller.py:268-292 | a candidate promotion creates cites one to twenty analyses, each a record of the log without a program or with the approved one |
| Promotion.ReportedCandidate | src/ctf_mcp/scout_controller.py:201-206 | the candidate reported for a promoted proposal is the recorded one exactly when none has a smaller id |
| Promotion.SmallerCandidate | src/ctf_mcp/scout_controller.py:201-267 | after a promotion and a second candidate with a smaller id, a repeated call reports the second while the record names the first |
| Promotion.ReportedExample | src/ctf_mcp/scout_controller.py:201-267 | a proposal promoted with candidate 6 is reported with candidate 5 once that is filed for it |
| Promotion.RunSafe | src/ctf_mcp/scout_controller.py:232-301 | over any run of calls and crashes promotion is exactly-once, plans are made once and ledger rows name records |
| Promotion.StoppedIsRecovered | src/ctf_mcp/scout_controller.py:257-267 | a call stopped after its candidate was saved is completed by a later one that passes the checks, whatever happened in between |
| Promotion.ScoutController.LatestOf | src/ctf_mcp/scout_controller.py:58-64 | the last matching record of the log |
| Promotion.ScoutController.Selected | src/ctf_mcp/scout_controller.py:197-199 | whether any portfolio has the proposal |
| Promotion.ScoutController.ExistingCandidate | src/ctf_mcp/scout_controller.py:201-206 | the candidate of the proposal with the least id |
| Promotion.ScoutController.EvidenceOf | src/ctf_mcp/scout_controller.py:268-276 | the loop gathers the specified evidence or stops at the first unusable record |
| Promotion.ScoutController.Check | src/ctf_mcp/scout_controller.py:236-256 | the first failing check decides |
| Promotion.ScoutController.Recover | src/ctf_mcp/scout_controller.py:258-267 | a missing promotion record is supplied once |
| Promotion.ScoutController.Create | src/ctf_mcp/scout_controller.py:284-301 | candidate, promotion record and ledger row are written in order, up to where the call stops |
| Promotion.ScoutController.PlanExperiment | src/ctf_mcp/scout_controller.py:214-230 | a duplicate is refused; otherwise a plan and its ledger row are written unless one with its fingerprint exists, up to where the call stops |
| Promotion.ScoutController.Plan | src/ctf_mcp/scout_controller.py:277-282 | the plan's writes and then the state event's, up to where the call stops |
| Promotion.ScoutController.SaveState | src/ctf_mcp/scout_controller.py:208-212 | the state record and then the ledger's status, up to where the call stops |
| Promotion.ScoutController.RecordPromotion | src/ctf_mcp/scout_ledger.py:276-284 | the promotion row is inserted once and the proposal's status becomes promoted |
| Promotion.ScoutController.RecordPlan | src/ctf_mcp/scout_ledger.py:303-314 | a plan row is inserted once |
| Promotion.ScoutController.UpdateState | src/ctf_mcp/scout_ledger.py:316-320 | a known proposal's status is set |
| Promotion.ScoutController.Proceed | src/ctf_mcp/scout_controller.py:257-301 | past its checks the call recovers, plans or creates as specified |
| Promotion.ScoutController.Promote | src/ctf_mcp/scout_controller.py:232-301 | the call does and answers what is specified, and over a log of distinct ids what its records say: a promoted proposal's candidate cites only own analyses, and a foreign one cited under open gates is refused with nothing written |
| ReleaseMonitor.ClassifyExactly | src/ctf_mcp/full_hunt/release_monitor.py:479-508 | affected and fixed need trustworthy evidence and are what was observed; nothing else comes without a blocker |
| ReleaseMonitor.RegressionFixed | src/ctf_mcp/full_hunt/release_monitor.py:312-319 | a retest is a regression exactly when affected with a fix of the same invariant on record |
| ReleaseMonitor.RetestKeeps | src/ctf_mcp/full_hunt/release_monitor.py:267-284 | one more retest keeps every regression preceded by its fix and nothing plainly affected after one |
| ReleaseMonitor.AlwaysEligible | src/ctf_mcp/full_hunt/regression.py:148-158 | every fix and regression the monitor records passes the generator's eligibility tests |
| ReleaseMonitor.EligibleExactly | src/ctf_mcp/full_hunt/regression.py:148-158 | the generator refuses a retest for its status exactly unless it is a fix, or a regression with a fix before it |
| ReleaseMonitor.GeneratedFrom | src/ctf_mcp/full_hunt/regression.py:159-186 | what is generated is valid, reads back, and is what redaction leaves of the document's specification, read again; nothing is refused but as invalid |
| ReleaseMonitor.GeneratedLists | src/ctf_mcp/full_hunt/regression.py:174-186 | a generated specification lists exactly the history's fixed and affected releases, in order, the latest included, whenever redaction keeps the two lists |
| ReleaseMonitor.CandidatesKeep | src/ctf_mcp/full_hunt/release_monitor.py:267-284 | retesting all candidates keeps histories sound and only adds to them |
| ReleaseMonitor.CheckKeeps | src/ctf_mcp/full_hunt/release_monitor.py:206-296 | every check keeps fingerprints distinct and histories sound, only adds, and makes listed releases known |
| ReleaseMonitor.RunSound | src/ctf_mcp/full_hunt/release_monitor.py:206-296 | every reachable state is sound and extends every earlier one |
| ReleaseMonitor.RetestShows | src/ctf_mcp/full_hunt/release_monitor.py:298-342 | one record: the candidate and release, the verdict and blocker each kind of evidence calls for, and for a fix or a regression the specification with the versions and fingerprints of its history |
| ReleaseMonitor.CheckAnswers | src/ctf_mcp/full_hunt/release_monitor.py:206-296 | every check answers so: a failing or unusable listing changes nothing, one without news sets the latest release, and otherwise each new release in turn is known and every ready candidate's history gains one such record for it |
| ReleaseMonitor.RunAnswers | src/ctf_mcp/full_hunt/release_monitor.py:206-296 | so does every check of every run |
| ReleaseMonitor.RetestBacked | src/ctf_mcp/full_hunt/release_monitor.py:479-508 | a fix on record has evidence of no violation and anything affected of one, both clear and controlled |
| ReleaseMonitor.ReleaseMonitor.RetestCandidate | src/ctf_mcp/full_hunt/release_monitor.py:298-342 | the retest record is the specified one, evidence included |
| ReleaseMonitor.ReleaseMonitor.CheckRelease | src/ctf_mcp/full_hunt/release_monitor.py:243-289 | one release extends the state as specified |
| ReleaseMonitor.ReleaseMonitor.Check | src/ctf_mcp/full_hunt/release_monitor.py:206-296 | a check does and answers what is specified, blocked runs included, with each release, record, verdict and blocker written out |
| RegressionSpec.RoundTrip | src/ctf_mcp/full_hunt/regression.py:63-132 | a specification written out reads back as itself if it is valid and not at all otherwise |
| RegressionSpec.ReadIsValid | src/ctf_mcp/full_hunt/regression.py:63-113 | whatever is read is valid |
| RegressionSpec.ReadsExactly | src/ctf_mcp/full_hunt/regression.py:63-113 | a document reads as a specification exactly when nothing anywhere in it is active and each key says what the specification says |
| RegressionSpec.InertMeans | src/ctf_mcp/full_hunt/regression.py:348-374 | content is passive exactly when no value at any depth is active text, under a forbidden key, or an unsafe id under a key that names one |
| RegressionSpec.WritesEach | src/ctf_mcp/full_hunt/regression.py:115-132 | a specification is written with every key saying what it says |
| RegressionSpec.ReadTwice | src/ctf_mcp/full_hunt/regression.py:184-188 | what was read can be written and read again |
| RegressionSpec.ReferencesRead | src/ctf_mcp/full_hunt/regression.py:328-338 | a list of release references reads back exactly when it holds no active text |
| RegressionSpec.ReadReferences | src/ctf_mcp/full_hunt/regression.py:91-92 | a specification lists the references of its document |
| RequestBudget.PruneTracks | src/ctf_mcp/research_policy.py:98 | forgetting old times keeps every admission of the last minute |
| RequestBudget.AdmitTracks | src/ctf_mcp/research_policy.py:99-102 | admitting under the caps keeps admissions spaced |
| RequestBudget.RunTracks | src/ctf_mcp/research_policy.py:93-110 | the state reflects the whole history of admissions |
| RequestBudget.SpacedCount | src/ctf_mcp/research_policy.py:98-100 | spaced admissions fill no minute beyond its limit |
| RequestBudget.BudgetHolds | src/ctf_mcp/research_policy.py:93-110 | in any interleaving no minute of the history exceeds its limit, and every other cap holds |
| RequestBudget.RunCounts | src/ctf_mcp/research_policy.py:102-110 | requests in flight are admissions minus exits, and bytes are those received |
| RequestBudget.RefusedOnlyWhenDue | src/ctf_mcp/research_policy.py:94-102 | a request is admitted exactly when the runtime and every cap allow it |
| RequestBudget.RefusedFor | src/ctf_mcp/research_policy.py:94-102 | a request is refused for the elapsed runtime, the session's total, the last minute or the requests in flight, whichever holds first |
| RequestBudget.CountedExactly | src/ctf_mcp/research_policy.py:107-110 | bytes are counted exactly when all of them fit, and a refused chunk counts nothing |
| RequestBudget.Budget.Request | src/ctf_mcp/research_policy.py:93-102 | entering takes the specified step, admits one request or changes no count, and runs out of time exactly at the runtime |
| RequestBudget.Budget.Finish | src/ctf_mcp/research_policy.py:103-105 | leaving takes the specified step: one request fewer in flight |
| RequestBudget.Budget.Receive | src/ctf_mcp/research_policy.py:107-110 | receiving takes the specified step: all bytes are counted if they fit, and none otherwise |
| ProgramPolicy.StringListFixed | src/ctf_mcp/programs.py:69-76 | a checked list checks to itself |
| ProgramPolicy.ScopePathFixed | src/ctf_mcp/programs.py:100-111 | a normalised scope path normalises to itself |
| ProgramPolicy.UnquoteShorter | src/ctf_mcp/programs.py:106 | decoding never makes a path longer |
| ProgramPolicy.PortListFixed | src/ctf_mcp/programs.py:125-129 | sorted distinct ports check to themselves |
| ProgramPolicy.PathListFixed | src/ctf_mcp/programs.py:130-132 | normalised paths check to themselves |
| ProgramPolicy.OneRuleFixed | src/ctf_mcp/programs.py:118-133 | a normalised rule normalises to itself exactly when its host is at most 253 characters |
| ProgramPolicy.RulesFixed | src/ctf_mcp/programs.py:114-134 | a normalised rule list normalises to itself exactly when all its hosts are short enough |
| ProgramPolicy.CombinedExactly | src/ctf_mcp/programs.py:114-134 | a list of rules is accepted exactly when each rule is |
| ProgramPolicy.HostsKept | src/ctf_mcp/programs.py:79-98 | the hosts of an accepted list are short exactly when those written stay short as IDNA writes them |
| ProgramPolicy.CidrListFixed | src/ctf_mcp/programs.py:163-180 | a printed network list checks to itself exactly when it repeats none |
| ProgramPolicy.RepeatedNetworks | src/ctf_mcp/programs.py:163-180 | a printed list repeats a network exactly when the list given spells one in two ways |
| ProgramPolicy.ProhibitedListFixed | src/ctf_mcp/programs.py:178 | a merged list checks to itself exactly when it has at most a hundred entries |
| ProgramPolicy.MergedSize | src/ctf_mcp/programs.py:178 | the merged list is as long as the union of what was given and what is built in |
| ProgramPolicy.ValidateExactly | src/ctf_mcp/programs.py:137-181 | a policy is accepted as `p` exactly when every field is |
| ProgramPolicy.ValidateFixedPoint | src/ctf_mcp/programs.py:137-181 | validating an accepted policy's output gives it back exactly when the policy as written is stable |
| ProgramPolicy.FlatWritten | src/ctf_mcp/programs.py:137-181 | the tree a policy is printed from reads as the policy with every key present |
| PolicyReading.TextsAre | src/ctf_mcp/programs.py:69-76 | a list of at most so many texts of 1 to 128 characters is kept as the same texts, each once, in order; any other is refused |
| PolicyReading.PathIs | src/ctf_mcp/programs.py:100-111 | a path is kept decoded, with its star if it ends in a slash and a star, unless it is ambiguous or a star, question mark or hash is elsewhere in it |
| PolicyReading.RuleIsRead | src/ctf_mcp/programs.py:118-133 | a rule is kept with its host, schemes, ports and paths, an exclusion meaning every scheme and path and an inclusion https and the root where it says nothing, or refused for the first part that is wrong |
| PolicyReading.RulesAre | src/ctf_mcp/programs.py:114-134 | the first refused rule decides, and otherwise every rule is kept in order |
| PolicyReading.CidrsAre | src/ctf_mcp/programs.py:163-180 | private networks need private targets allowed, must be networks and none too broad, and are kept as printed, two spellings of one both |
| PolicyReading.ProhibitedAre | src/ctf_mcp/programs.py:178 | what is given and what is built in is prohibited, each once and in order |
| PolicyReading.ValidateAnswers | src/ctf_mcp/programs.py:137-181 | the whole answer: each field of the accepted policy as given or as its absence means, or the first reason that refuses it |
| PolicyReading.AcceptedPolicy | src/ctf_mcp/programs.py:137-181 | whatever is given, an accepted policy allows only GET, HEAD and OPTIONS, prohibits all eight built-in actions, keeps every budget within its ceiling and names networks only with private targets allowed |
| PolicyReading.FlatRead | src/ctf_mcp/programs.py:137-181 | what a tree says, with the six default budgets |
| PolicyReading.NodesCount | src/ctf_mcp/safety.py:138-152 | the nodes of a policy tree are itself and every value and list element in it at any depth |
| PolicyExamples.TooManyProhibitions | src/ctf_mcp/programs.py:178 | a hundred given prohibitions and the eight built in are accepted and not accepted again |
| PolicyExamples.TwoSpellings | src/ctf_mcp/programs.py:163-180 | 10.0.0.0/8 in two spellings is accepted and not the same when accepted again |
| PolicyExamples.LongSubmission | src/ctf_mcp/programs.py:137-181 | a submission URL that grows past 2048 characters is accepted and not accepted again |
| PolicyExamples.LongSubmissionPath | src/ctf_mcp/programs.py:169-172 | a URL with a path of 683 to 2027 exclamation marks is one that grows so, canonicalised as it is |
| PolicyExamples.MarkedUrl | src/ctf_mcp/programs.py:169-172 | that URL, in an interface that is lawful |
| PolicyExamples.LongHost | src/ctf_mcp/programs.py:79-98 | a host that IDNA lengthens past 253 characters is accepted and not accepted again |
| PolicyExamples.UmlautHost | src/ctf_mcp/programs.py:79-98 | four labels of 57 umlauts are such a host, in an interface that is lawful |
| PolicyExamples.TooManyNodes | src/ctf_mcp/programs.py:50-65 | ninety-seven rules of a hundred ports have 9995 nodes, are accepted and stable, and have more than 10,000 with their defaults filled in |
| PolicyExamples.UnmodifiedRefused | src/ctf_mcp/program_store.py:132-205 | that policy, approved without a change, is not accepted by `approved` |
| PolicyExamples.CreatedStuck | src/ctf_mcp/program_store.py:117-234 | that policy, created as a program, cannot be approved and used |
| ProgramStore.RunRecords | src/ctf_mcp/program_store.py:184-221 | in any run a program's record is what its last approval or revocation left |
| ProgramStore.BindsExactly | src/ctf_mcp/program_store.py:223-234 | a reference binds exactly when its approval is the last decision, the source bytes are the reviewed ones, it is active and its profile reads back |
| ProgramStore.NeverAgain | src/ctf_mcp/program_store.py:214-234 | a reference superseded by a revocation or another approval never binds again |
| ProgramStore.ReviewsAreWell | src/ctf_mcp/program_store.py:184-198 | the first phase shows exactly the sources that may be approved |
| ProgramStore.ApprovedRead | src/ctf_mcp/program_store.py:132-157 | an approval is in force exactly if not revoked, intact, canonical for this program and the source unchanged, and otherwise the first of these that fails is named |
| ProgramStore.BoundRead | src/ctf_mcp/program_store.py:223-234 | a reference binds the profile of an approval in force that is active and has its id and hash, and otherwise the reason is named |
| ProgramStore.ApprovedAgain | src/ctf_mcp/program_store.py:132-157 | an unmodified source stays approved exactly when its profile reads back unchanged |
| ProgramStore.ReadsBack | src/ctf_mcp/program_store.py:147-153 | a profile reads back exactly when its policy is stable and its normal form at most 64 KiB and 10,000 nodes |
| ProgramStore.UnmodifiedAccepted | src/ctf_mcp/program_store.py:132-205 | approving an unmodified source is accepted by `approved` exactly for stable policies whose normal form is at most 64 KiB and 10,000 nodes |
| ProgramStore.CreatedLaunches | src/ctf_mcp/program_store.py:117-234 | create, approve, use and bind give the created profile exactly when the policy it came from is stable and its normal form has at most 10,000 nodes |
| ProgramStore.ProgramStore.constructor | src/ctf_mcp/program_store.py:117-122 | a new store is empty |
| ProgramStore.ProgramStore.Create | src/ctf_mcp/program_store.py:117-122 | a source is written once, as the canonical text of its profile and a line feed, or nothing changes and the reason is named |
| ProgramStore.ProgramStore.BeginApprove | src/ctf_mcp/program_store.py:184-198 | the reviewer is shown the source bytes, or told the first reason why not |
| ProgramStore.ProgramStore.CommitApprove | src/ctf_mcp/program_store.py:199-205 | the approval of these bytes, their canonical text, both hashes and the key, is written only if the source bytes are still those shown |
| ProgramStore.ProgramStore.Use | src/ctf_mcp/program_store.py:207-212 | exactly a program whose approval is in force becomes the active one, under the approval's id and hash |
| ProgramStore.ProgramStore.Revoke | src/ctf_mcp/program_store.py:214-221 | the approval is marked revoked, keeping its text, hashes and id, and nothing else changes |
| WebUrl.UnquoteQuote | src/ctf_mcp/web.py:36-49 | percent-decoding inverts percent-encoding (RFC 3986 section 2.1) |
| WebUrl.UnquotePlain | src/ctf_mcp/web.py:36-37 | text without a percent sign decodes to itself |
| WebUrl.UnquoteDecodes | src/ctf_mcp/web.py:36 | decoding replaces each percent sign and two hexadecimal digits, in either case, by the byte they name, and nothing else |
| WebUrl.QuoteEncodes | src/ctf_mcp/web.py:49 | encoding replaces every byte but letters, digits and `/~._-` by a percent sign and two upper-case digits |
| WebUrl.AmbiguityMeans | src/ctf_mcp/web.py:37-38 | a path is refused as ambiguous exactly when it has a percent sign, backslash, control character or space, an empty segment, or a segment `.` or `..` |
| WebUrl.UrlAnswers | src/ctf_mcp/web.py:24-51 | every URL is answered for the first reason that holds of its text, parts and decoded path; an accepted one has its scheme and query, the normalised host, a port only if unusual, and that unambiguous path encoded |
| WebUrl.CanonicalPartsFixed | src/ctf_mcp/web.py:24-51 | the canonical parts of an accepted URL are accepted and canonical |
| WebUrl.CanonicalFixedPoint | src/ctf_mcp/web.py:24-51 | canonicalising twice is canonicalising once exactly for canonical texts of at most 2048 characters |
| WebUrl.QuoteTriples | src/ctf_mcp/web.py:49 | a byte that does not stand for itself takes three characters |
| WebUrl.LongPath | src/ctf_mcp/web.py:24-51 | a path of 683 to 2027 exclamation marks is accepted, and its canonical form is refused as too long |
| WebUrl.SpellingsConverge | src/ctf_mcp/web.py:24-51 | two accepted spellings have one canonical form exactly when they agree on scheme, host, effective port, decoded path and query (RFC 3986 sections 6.2.2 and 6.2.3) |
| ScopeDecision.WildcardExactly | src/ctf_mcp/programs.py:206-207 | a wildcard covers exactly the nested subdomains of its base and never the apex |
| ScopeDecision.SubtreeExactly | src/ctf_mcp/programs.py:210-211 | a subtree rule covers exactly what lies below its directory |
| ScopeDecision.FirstMatch | src/ctf_mcp/programs.py:205-213 | the matched rule covers the URL, and there is none exactly when no rule covers it; `DecisionRead` says it is the first |
| ScopeDecision.AllowedExactly | src/ctf_mcp/programs.py:192-222 | a URL is admitted exactly when canonicalisable, covered by an inclusion and no exclusion, under an allowed method and address |
| ScopeDecision.DecisionRead | src/ctf_mcp/programs.py:192-222 | every decision names the first inclusion and the first exclusion that cover the URL's host, scheme, port and decoded path, whether the method is allowed, and the first reason against it |
| ScopeDecision.CanonicalDecision | src/ctf_mcp/programs.py:192-222 | a URL and its canonical form get one decision exactly when the form is not too long |
| ScopeDecision.LongPathDecided | src/ctf_mcp/programs.py:192-222 | such a URL is admitted and its canonical form refused |
| ScopeDecision.SpellingsDecideAlike | src/ctf_mcp/programs.py:192-222 | spellings of one URL get one decision |
| ScopeDecision.StricterAdmitsLess | src/ctf_mcp/programs.py:184-222 | a stricter program never admits what a looser one refuses |
| ScopeDecision.RefusedMethod | src/ctf_mcp/programs.py:239-242 | the first refused method of a URL, if any |
| ScopeDecision.RefusedUrl | src/ctf_mcp/programs.py:239-242 | the first refused URL, if any |
| ScopeDecision.ValidatePlan | src/ctf_mcp/programs.py:225-243 | a plan is accepted exactly when it asks for nothing its program does not give, and otherwise told the first thing it asks too much of |
| ScopeDecision.PlanAddressesInside | src/ctf_mcp/programs.py:184-238 | every address an accepted plan's networks admit is admitted by its program |
| ScopeDecision.CheckUrl | src/ctf_mcp/web.py:106-122 | a URL passes exactly when its canonical form is on the plan and admitted, under a live grant, and no spelling of it is excluded; otherwise it is told the first thing against it |
| ScopeDecision.ValidatedNeverDenied | src/ctf_mcp/web.py:97-122 | once a plan is validated, a URL on it is never denied for scope |
| StructuralDiff.DiffEmptyIffAgree | src/ctf_mcp/engine.py:95-104 | nothing is recorded exactly when the trees agree, an absent key counting as null |
| StructuralDiff.DiffIsPatch | src/ctf_mcp/engine.py:95-104 | applying the changes to the first tree gives the second |
| StructuralDiff.DiffApart | src/ctf_mcp/engine.py:95-104 | no recorded location is inside another |
| StructuralDiff.DiffGenuine | src/ctf_mcp/engine.py:95-104 | every change quotes both trees at its location, where they disagree |
| StructuralDiff.SameMeans | src/ctf_mcp/engine.py:98 | values are equal as Python has it: by kind and content, a truth value like the number 1 or 0 |
| StructuralDiff.DiffMarks | src/ctf_mcp/engine.py:95-104 | a change is recorded at exactly those paths that end, through objects by key and lists of one length by position, at values that differ and cannot both be descended into |
| StructuralDiff.DiffOrdered | src/ctf_mcp/engine.py:99-103 | changes are recorded in order of their location, keys by their characters |
| StructuralDiff.LimitMeans | src/ctf_mcp/engine.py:96-104 | a comparison is refused exactly when there are more than 200 differences, or 200 and the last pair visited is not one |
| StructuralDiff.Comparison.Visit | src/ctf_mcp/engine.py:96-103 | visiting appends the specified changes, and stops exactly when 200 precede its last pair |
| StructuralDiff.Comparison.VisitKeys | src/ctf_mcp/engine.py:99-100 | the union of keys is visited in order |
| StructuralDiff.Comparison.VisitKey | src/ctf_mcp/engine.py:99-100 | one key's changes are appended, or the limit is reached |
| StructuralDiff.Comparison.VisitObjects | src/ctf_mcp/engine.py:98-100 | two objects are visited below each of their keys |
| StructuralDiff.Comparison.VisitLists | src/ctf_mcp/engine.py:101-102 | two lists of one length are visited item by item, with the limit's exact condition |
| StructuralDiff.Comparison.VisitItems | src/ctf_mcp/engine.py:101-102 | lists of one length are visited item by item |
| StructuralDiff.Compare | src/ctf_mcp/engine.py:90-105 | a result is every difference, once and in order, at most 200, and a patch of the first tree into the second, empty exactly when the trees agree; each refusal has its exact condition |
| StructuralDiff.TwoHundredEitherWay | src/ctf_mcp/engine.py:95-104 | two hundred zeros against two hundred ones are within the limit, and with one equal item after them are not |
| ScoutPipeline.FindExactly | src/ctf_mcp/scout_dedup.py:74-95 | a proposal is a duplicate exactly of the earliest one with its structure |
| ScoutPipeline.FindMostSimilar | src/ctf_mcp/scout_dedup.py:87-93 | a proposal that is no duplicate is reported with the greatest similarity in its program |
| ScoutPipeline.FindRelates | src/ctf_mcp/scout_dedup.py:74-95 | the whole relation: of the first other proposal of the same structure, else of the first of those most alike, with its similarity and reason, else of none |
| ScoutPipeline.ClassifiedGrows | src/ctf_mcp/scout_pipeline.py:266-279 | a list that starts classified and grows by proposals flagged right is classified |
| ScoutPipeline.FlaggedGrows | src/ctf_mcp/scout_pipeline.py:266-279 | a proposal added with its relation is flagged right, whatever the list it is added to |
| ScoutPipeline.OneRepresentative | src/ctf_mcp/scout_dedup.py:87-91 | every duplicate points at the earliest proposal of its structure, itself unflagged and the only unflagged one |
| ScoutPipeline.RereadExactly | src/ctf_mcp/scout_pipeline.py:111-120 | a classified list is classified when the next run reads it again exactly when no structure's first proposal is overtaken in time and id |
| ScoutPipeline.OutOfOrder | src/ctf_mcp/scout_pipeline.py:111-120 | two proposals of one structure, the second with an earlier time, are flagged right and no longer are when read again |
| ScoutPipeline.CountsSum | src/ctf_mcp/scout_pipeline.py:279-295 | the counts per scout type sum to the number created |
| ScoutPipeline.PreviousIsLatest | src/ctf_mcp/scout_pipeline.py:177-184 | the previous record is the latest compatible earlier one |
| ScoutPipeline.PreviousFound | src/ctf_mcp/scout_pipeline.py:177-184 | the previous record of a reached one is the latest of its own program that is compatible and earlier |
| ScoutPipeline.DueExactly | src/ctf_mcp/scout_pipeline.py:229-256 | a scout is due on a record exactly when it is affected by it and its previous record, uncached or forced, both budgets have room and the clock has not stopped the run |
| ScoutPipeline.VisitMade | src/ctf_mcp/scout_pipeline.py:229-290 | evaluating a due scout leaves nothing due passed over |
| ScoutPipeline.ScoutSeen | src/ctf_mcp/scout_pipeline.py:229-256 | in a scout's turn the record is done, the scout passed over or visited, as the loop's tests say |
| ScoutPipeline.WalkVisited | src/ctf_mcp/scout_pipeline.py:213-290 | taking the turns one by one visits exactly the due scouts, in order |
| ScoutPipeline.RecordEnds | src/ctf_mcp/scout_pipeline.py:213-226 | a record ends the run when the clock stops it or, in a single-record run, when it is another program's, is passed over when it is another program's, and is reached otherwise |
| ScoutPipeline.EvaluatedUncached | src/ctf_mcp/scout_pipeline.py:239-256 | without forcing, nothing cached is evaluated |
| ScoutPipeline.ScoutPipeline.AddProposal | src/ctf_mcp/scout_pipeline.py:266-279 | the draft given is appended under the next id, with its relation, and counted for its scout |
| ScoutPipeline.ScoutPipeline.Ask | src/ctf_mcp/scout_pipeline.py:256-265 | the scout gets the smaller of what both budgets leave, and output over it, or none, counts as malformed |
| ScoutPipeline.ScoutPipeline.Accept | src/ctf_mcp/scout_pipeline.py:266-289 | accepted drafts become proposals in order, and the scout's key is recorded |
| ScoutPipeline.ScoutPipeline.Evaluate | src/ctf_mcp/scout_pipeline.py:256-289 | the scout is asked with its allowance; an output within it is added draft by draft, any other counts as malformed and adds nothing |
| ScoutPipeline.ScoutPipeline.Turn | src/ctf_mcp/scout_pipeline.py:229-289 | a scout's turn visits it if it is due and passes it over otherwise, and stops the record when the run's budget or the clock does |
| ScoutPipeline.ScoutPipeline.Scan | src/ctf_mcp/scout_pipeline.py:229-289 | on one record exactly the due scouts are evaluated, in order, keeping the invariant and both budgets |
| ScoutPipeline.ScoutPipeline.ScanAll | src/ctf_mcp/scout_pipeline.py:213-290 | so on all records, wherever the clock stops the run, a record of another program refusing a single-record run and skipped otherwise |
| ScoutPipeline.ScoutPipeline.ReadAgain | src/ctf_mcp/scout_pipeline.py:111-120 | the earlier proposals with their relations, by time and id |
| ScoutPipeline.ScoutPipeline.Run | src/ctf_mcp/scout_pipeline.py:193-305 | a run evaluates exactly the due scouts of the records it reaches and adds exactly the drafts of their accepted outputs, in order; it flags right all it adds, each with its relation to those before it, stays classified exactly if no structure's first proposal is overtaken when the earlier ones are read again, keeps both budgets for arbitrary scout outputs, and evaluates nothing cached unless forced |

## Left out

- Network, sockets, browsers, devices, containers, the command line and tool registration: they are I/O or wrappers.
- File-system mechanics, locking and SQLite itself: a write or a transaction is one atomic step and tables are maps.
- Redaction, lexical heuristics, IDNA, URL splitting, address parsing, JSON and YAML parsing: function values with the laws the `Lawful` predicates name.
- SHA-256 is injective, ids from `uuid4` are fresh numbers ordered as their hexadecimal text, floats are reals and clocks do not run backwards.
- Type checks of JSON fields, where a value of the wrong type is simply an absent or unequal one.
- VersionBisect.VersionBisector.Run: order keys are integers, so a reused bisector whose providers mix numbers and texts as order keys, for which sorting raises, is not modelled; report files are not either.
- Portfolio.Select: the default score is one strategy among all, and shuffling is an arbitrary permutation.
- EvidenceGraph.EvidenceGraphBuilder.Refresh: which of a proposal's cited records are usable at a time is an arbitrary function; node and edge limits are fixed for the life of a builder; support and neighbourhood queries are not modelled.
- Promotion.ScoutController.Promote: two records with one timestamp are ordered as they were appended, not by id; concurrent promoters are not modelled, and of the ledger only the promotion rows, plan rows and statuses are, any status the pipeline gives being one value.
- Controller commands that only assemble inputs for the selector and the triager, and their cached results.
- ReleaseMonitor.ReleaseMonitor.RetestCandidate: the record has no patch correlation and no time, and its evidence is as reported, before redaction.
- ReleaseMonitor.ReleaseMonitor.Check: history lines and run artifacts are not modelled, nor is a state file edited from outside.
- ReleaseMonitor.GeneratedLists: the check that the redacted document holds no secret is taken to pass; the fallbacks between a candidate's own expectations and its scenario's are taken as resolved.
- RegressionSpec.RoundTrip: which of several rejection codes is raised for an unreadable document is not distinguished; replaying a specification is not modelled.
- ProgramPolicy.ValidateFixedPoint: strings are their UTF-8 bytes; unknown keys and values of the wrong type are rejected before the model starts.
- ProgramStore.BindsExactly: approval and active files change only through the store's own operations; damaged ones are not modelled.
- ScopeDecision.CheckUrl: a plan with an identity label only, the older plan form without one is not modelled; name resolution at send time is not either.
- StructuralDiff.Compare: numbers are reals, so not-a-number values are not modelled.
- LedgerSchedules.ScheduleExactly: where one batch or sync applies several records, one of which does not fit, the others might make up for it; that the tables then are off track in between is proved (`LedgerSchedules.InTurnExactly`), not when they come back.
- LedgerSchedules.ScheduleAgrees: indexing a record twice live is not modelled.
- ScoutPipeline.ScoutPipeline.Run: what a scout returns is a function of the record, the scout and its allowance; proposal ids issued within a run are fresh and the list is that of one program; the cache is a set of keys, so a hit is not claimed to equal a recomputation; metrics and decision logs are not modelled.
