# PMQA: a verified model of its stateful core

This project models the parts of PMQA in which correctness is hard to see from one function
body, and proves what they promise. Every file is one module; together they cover six
components.

- **Usage aggregation** (`Decimals`, `Amounts`, `Calendar`, `UsageRecords`, `UsageTotals`,
  `UsageSummary`, `UsageLevels`, `UsageRollup`, `UsageAcceptance`, `UsageAggregator`, `UsageOrder`,
  `UsageTree`): canonical decimals, bounded folds over at most 64 records, cost buckets,
  provider/model groups and the roll-up check that derives everything again. The main results: the
  check never rejects a computed summary, overflow of a group is impossible unless the whole
  overflows, and the order of the records does not matter. `SummaryMeaning`, `SummaryOrder`,
  `SummaryContracts`, `RollupMeaning` and `RecordMeaning` say what a record, a summary and the
  roll-up check mean in terms of the fields alone: cardinalities, sums and exact amounts.
- **Workflow engine** (`Workflow`, `SupervisorPolicy`, `Engine`, `EngineRuns`, `Recovery`): the
  reducer, the patch capabilities, the policy that infers the next agent from the history, and the
  two-node graph. A run is a fold of one deterministic step over the replies of the agents, so a
  theorem about all reply sequences is one about all runs. For arbitrary agents: what every run
  keeps. For agents that keep an explicit contract (one artifact and one completed entry, or an
  error and one failed entry): the policy refines a plain counter and every run ends. The recovery
  checks are characterized exactly. `EngineMeaning` and `PolicyMeaning` say in terms of the fields
  when the reducer, a call and the policy accept, refuse and with what.
- **SauceDemo** (`Models`, `Boundary`, `KnowledgeMapping`, `KnowledgeValidation`, `SauceSelection`,
  `SauceAgents`, `ArtifactHandoff`, `SauceRuns`): evidence, candidate, validation and handoff. The
  agents meet the contract, whole workflows end, and the handoff accepts exactly what it should.
  `SauceStored`, `SauceAnswers` and `SauceOutcome` say from the stored data alone what each agent
  answers and how every run ends; `ContractMeaning` and `BoundaryMeaning` say what the contracts
  and the key policy admit.
- **Usage repository** (`RepositoryFiles`, `RepositoryProtocol`, `RepositoryReads`,
  `RepositoryPublication`, `RepositoryVerdicts`, `RepositoryCleanup`, `RepositoryLoneRead`,
  `RepositoryQuery`, `RepositoryScan`): savers and readers as step machines over names, inodes and
  bytes; a run is a fold over any sequence of (thread, event) pairs, where an event can also be a
  failing system call or an interruption. What each outcome of a save says about publication, which
  step decided it, and when its temporary file is gone; a get or a query fails only by its own
  calls, never by what savers do beside it, and otherwise returns what was saved; queries over a
  directory at rest and beside running savers; and what a get makes of any file whatever.
- **Invocation collector** (`InvocationCollector`, `CollectorHandles`, `CollectorAnswers`): the
  locked map as a class, the interleaving of starts, terminal calls, clock samples and altered
  handles, and the answer of a call for every handle, evidence and clock.
- **Boundary walks** (`PlainJson`, `ReasoningScrubber`, `ScrubberReport`): recursions with a shared
  counter, an active set and accumulators, against plain descriptions of trees and positions.

`Wrappers` and `Sequences` hold Option, Result and facts about sequences and sorting. Loops,
dictionaries and objects updated in place in the program are methods and classes here; their
contracts tie them to functions, and the theorems are about those functions.

`dafny verify dfyconfig.toml` checks the whole project.

Five results differ from what the program's own words suggest; the model follows the code.

- Sanitizing can raise after the rejecting check accepted a value: the check accepts every
  enumeration member, while the walk looks into its value
  (`ReasoningScrubber.AcceptedCanRaise`, `AcceptedSanitizesExactly`).
- The SauceDemo Validator reports its failures as results, except that a mapping error raised
  while a candidate is validated or a stored result is rebuilt is not caught
  (`SauceAgents.ValidatorCanRaise`, `ValidatorCanRaiseOnResult`). `ValidatorAbidesExactly` says in
  which states, in terms of the stored evidence, candidates and results. It cannot happen when all
  stored evidence can be mapped (`ValidatorAbides`), nor in a SauceDemo workflow started from its
  empty state (`SauceRuns.SauceRunEnds`).
- A failed terminalization is not always free: a call refused for its evidence or its category
  leaves the handle active, but cost evidence that takes effect after the start of the invocation is
  accepted as evidence, consumes the handle, and is then rejected by the record contract
  (`InvocationCollector.LatePricingLosesHandle`; the exact conditions are `BuildsExactly`,
  `AloneYieldsExactly`, `YieldsExactly` and, over interleavings, `LatePricingConsumes`).
- A save can report a failure although its record is published
  (`RepositoryProtocol.FailureAfterPublication`). `RepositoryPublication.OutcomeAndLink` says which
  outcomes decide the matter: success means published by this save, every failure but a persistence
  failure means not published by it. For a persistence failure or an interruption it depends on
  whether the save had reached the directory synchronization (`LinkedExactly`).
- An aggregate amount is judged on its text before trailing zeros are stripped
  (`Amounts.OverflowOfRepresentableSum`).

## Model

| member | source | states |
|---|---|---|
| `Decimals.TextAdmission` | pmqa/usage/contracts.py:170-211 | A text is admitted exactly when it matches the canonical pattern and has at most 128 characters, and then it prints back as itself. |
| `Decimals.TextFixedPoint` | pmqa/usage/contracts.py:170-219 | Parsing and printing is the identity on every text of the canonical pattern. |
| `Decimals.PrintedReparses` | pmqa/usage/contracts.py:213-219 | Printing any finite amount that is not negative gives a canonical text of the same value, never longer than the length formula and never with more fraction digits. |
| `Decimals.AdmittedRoundTrip` | pmqa/usage/contracts.py:170-219 | Every admitted amount prints to a text that is admitted again with the same value. |
| `Decimals.LengthFormula` | pmqa/usage/contracts.py:196-209 | The three-case length formula counts the characters of the unstripped fixed-point rendering. |
| `Decimals.ZeroText` | pmqa/usage/contracts.py:213-219 | Zero has exactly one canonical text. |
| `Amounts.NoRounding` | pmqa/usage/summary.py:749-756 | At 256 (and 512) digits of precision the context never rounds the sum of two re-read amounts. |
| `Amounts.AddExact` | pmqa/usage/summary.py:749-768 | One bounded addition is exact; it overflows exactly when the exact sum at the finer scale is too long. |
| `Amounts.LengthMonotone` | pmqa/usage/summary.py:749-768 | The unstripped length never shrinks when the value or the number of fraction digits grows. |
| `Amounts.FoldIsSum` | pmqa/usage/summary.py:690-697 | A whole fold of amounts succeeds exactly when the final sum, with the longest fraction met, fits, and is then that sum. |
| `Amounts.FoldOrderFree` | pmqa/usage/summary.py:690-697 | Reordering a fold changes neither value nor overflow; taking a sub-selection never introduces an overflow. |
| `Amounts.NormalizeKeepsUnits` | pmqa/usage/summary.py:785-794 | Reading a stored amount back keeps its exact value. |
| `Amounts.OverflowOfRepresentableSum` | pmqa/usage/summary.py:749-768 | The bound is judged on the unstripped text: certain sums overflow although their stripped value would be admitted. |
| `UsageRecords.SnapshotIsValid` | pmqa/usage/summary.py:636-651 | A snapshot of a valid record is valid, with an amount of the same value and a bounded fraction. |
| `Calendar.DateOfDay` | pmqa/run/models.py:919-920 | The date of a day number and the day number of a date undo each other. |
| `UsageRecords.TimestampTextInjective` | pmqa/run/models.py:919-920 | Distinct instants have distinct canonical texts, of calendar date and time of day. |
| `RecordMeaning.IdentifiersAreSegments` | pmqa/run/models.py:29-36 | An identifier is admitted exactly when it has at most 256 characters and consists of lower-case alphanumeric words joined by single separators. |
| `RecordMeaning.UsageMeans` | pmqa/usage/contracts.py:249-328 | Token evidence is admitted exactly when each of the four fields is counted in range or declared absent, none twice, and its source is unavailable exactly when nothing is counted. |
| `RecordMeaning.CostMeans` | pmqa/usage/contracts.py:331-454 | Cost evidence is admitted exactly by its type: a reported or estimated cost has an amount and a currency, an estimate also its whole price source, other costs neither, and only an unavailable one a reason. |
| `RecordMeaning.RecordMeans` | pmqa/usage/contracts.py:457-570 | A record is admitted exactly when its identifiers, evidence, model or reason, retry or fallback lineage, outcome and error category, and chronology are in order. |
| `UsageTotals.GroupsMakeTotal` | pmqa/usage/summary.py:586-596 | Any measure summed over the provider/model groups equals the measure of all records. |
| `UsageTotals.BucketsMakeTotal` | pmqa/usage/summary.py:682-710 | Any measure summed over the cost buckets equals the measure of all records. |
| `UsageTotals.SubSelectionTotal` | pmqa/usage/summary.py:653-680 | A sub-selection of records, in any order, never has a larger total. |
| `UsageTotals.CountLaws` | pmqa/usage/summary.py:797-835 | Status, predecessor and coverage counts of any records satisfy the rules that metrics are checked against. |
| `UsageSummary.IdentityKeyInjective` | pmqa/usage/summary.py:1011-1027 | Buckets with the same sort key have the same cost identity. |
| `UsageSummary.GroupKeyInjective` | pmqa/usage/summary.py:1040-1052 | Groups with the same sort key have the same provider, model and reason. |
| `Sequences.GroupBy` | pmqa/usage/summary.py:586-596 | Filling a dictionary of lists in one pass holds, per key in first-occurrence order, exactly the values of that key. |
| `Sequences.SortDeterministic` | pmqa/usage/summary.py:794 | Sorting by a key that tells the elements apart depends only on which elements there are. |
| `UsageLevels.LevelAccepted` | pmqa/usage/summary.py:797-835 | The metrics computed for records that do not overflow pass every metric validator and are stored in canonical form. |
| `UsageLevels.GroupSummable` | pmqa/usage/summary.py:600 | When the top-level fold does not overflow, no group's fold overflows. |
| `UsageLevels.GroupsAccepted` | pmqa/usage/summary.py:598-609 | Every computed group passes its contract, and the groups pass the duplicate and bound checks of the array. |
| `UsageLevels.BucketsMeaning` | pmqa/usage/summary.py:785-794 | The stored buckets are exactly those of the records' identities, once each, in key order. |
| `UsageLevels.GroupsMeaning` | pmqa/usage/summary.py:405-527 | The stored groups are exactly those of the records' keys, once each, in key order. |
| `SummaryContracts.MetricsMean` | pmqa/usage/summary.py:797-835 | The metrics of a level are accepted exactly when the counters are in range and add up, each of the four token fields covers every invocation, and the distinct admitted buckets count every invocation once; they are stored in canonical order. |
| `SummaryContracts.GroupMeans` | pmqa/usage/summary.py:293-404 | A group is accepted exactly when it counts something, its metrics are accepted, and it names its provider and its model or the reason for having none. |
| `UsageRollup.BoundedSum` | pmqa/usage/summary.py:847-866 | A running total that raises at the first step past its maximum equals the plain sum, or raises exactly when that exceeds the maximum. |
| `UsageRollup.ValidateTokens` | pmqa/usage/summary.py:868-907 | The loop over groups accepts a token field exactly when totals, coverage and presence roll up. |
| `UsageRollup.DeriveCosts` | pmqa/usage/summary.py:909-935 | The dictionary filled bucket by bucket is the derivation of all buckets in order, or the error. |
| `UsageRollup.ValidateGroupRollup` | pmqa/usage/summary.py:838-942 | The whole check with its loops and early raises decides exactly the declarative roll-up condition. |
| `UsageAcceptance.CountsRollUp` | pmqa/usage/summary.py:847-866 | The groups' counts and durations of a computed summary sum to its own. |
| `UsageAcceptance.TokensRollUp` | pmqa/usage/summary.py:868-907 | The groups' token totals and coverage of a computed summary sum to its own, and a total is absent exactly when no group has one. |
| `UsageAcceptance.DerivationSucceeds` | pmqa/usage/summary.py:909-935 | When every identity's exact sum fits, the cost derivation never raises and holds exact sums and counts. |
| `UsageAcceptance.CostsRollUp` | pmqa/usage/summary.py:909-942 | The derivation from the groups gives exactly the top-level cost buckets. |
| `UsageAcceptance.RollupAcceptsSummary` | pmqa/usage/summary.py:838-942 | The roll-up check never rejects the summary of records that did not overflow. |
| `RollupMeaning.AcceptsWhatAddsUp` | pmqa/usage/summary.py:838-942 | The check accepts a summary exactly when every counter, every token field and, as exact numbers, every cost bucket of the groups adds up to its top level, and no partial sum exceeds its bound. |
| `UsageAggregator.SumDuration` | pmqa/usage/summary.py:657-662 | The duration loop returns the sum, or overflows exactly when the sum exceeds the maximum. |
| `UsageAggregator.SumTokens` | pmqa/usage/summary.py:663-680 | The token loop returns total and coverage of a field, or overflows exactly when the total exceeds the maximum. |
| `UsageAggregator.SumAmounts` | pmqa/usage/summary.py:690-697 | The amount loop is the bounded fold, None on overflow. |
| `UsageAggregator.SumBucket` | pmqa/usage/summary.py:687-710 | One bucket's amount is absent for non-monetary costs and otherwise the exact sum of its evidence, unless that overflows. |
| `UsageAggregator.SumBuckets` | pmqa/usage/summary.py:682-710 | The bucket loop yields one bucket per identity in first-occurrence order, or the overflow. |
| `UsageAggregator.AggregateMetrics` | pmqa/usage/summary.py:653-737 | One level fails exactly when some sum overflows and otherwise holds every count, total and bucket of the records. |
| `UsageAggregator.SummarizeGroups` | pmqa/usage/summary.py:586-609 | For records whose top level does not overflow, the group loop never fails and yields the groups of the records. |
| `UsageAggregator.BuildSummary` | pmqa/usage/summary.py:406-527 | Constructing a summary runs every validator and yields its canonical form or the rejection. |
| `UsageAggregator.StoreSummary` | pmqa/usage/summary.py:610-617 | Constructing a summary and reading it back from its stored form gives the constructed summary or the rejection. |
| `UsageAggregator.SummaryAccepted` | pmqa/usage/summary.py:610-617 | Neither the construction nor the reading back of a computed summary is ever rejected. |
| `UsageAggregator.Summarize` | pmqa/usage/summary.py:548-617 | The whole call returns the first failing request check, the overflow, or the summary of the snapshots, and never a contract violation. |
| `SummaryMeaning.SummaryMeans` | pmqa/usage/summary.py:548-737 | What a returned summary says, at the top level and for each group of exactly the records with its provider, model and reason: the number of records succeeded, failed, cancelled, retried, fallen back and reporting each token field, as cardinalities of index sets; the sums of durations and tokens; and per cost identity the exact sum of the amounts as a real number. |
| `SummaryMeaning.RefusesExactly` | pmqa/usage/summary.py:548-585 | A request is refused exactly for too many records or a malformed scope, an invalid record, a repeated invocation or a record of another scope, the first of these that holds; otherwise it is summarized or overflows. |
| `SummaryMeaning.OverflowMeans` | pmqa/usage/summary.py:653-737 | It overflows exactly when the sum of the durations, of a token field or of the amounts of a cost identity exceeds its bound. |
| `SummaryOrder.SummaryIsOrdered` | pmqa/usage/summary.py:1011-1060 | The groups of a returned summary, and the buckets at each level, stand in the stated field-by-field order. |
| `UsageOrder.OverflowOrderFree` | pmqa/usage/summary.py:653-737 | Reordering records does not change whether a level overflows. |
| `UsageOrder.SummaryOrderFree` | pmqa/usage/summary.py:548-617 | Reordering snapshots does not change the stored summary. |
| `UsageOrder.SummarizeOrderFree` | pmqa/usage/summary.py:548-617 | Reordering the input changes neither the summary nor the error. |
| `PlainJson.Walker.IsPlain` | pmqa/run/models.py:923-974 | The recursion with its shared counter and active set updated in place computes the walk and restores the active set. |
| `PlainJson.WalkSound` | pmqa/run/models.py:923-974 | An accepting walk has visited a finite legal unfolding within the bounds, one count per node. |
| `PlainJson.WalkComplete` | pmqa/run/models.py:923-974 | Every value with a legal unfolding within the bounds is accepted; sharing without a cycle is never rejected. |
| `PlainJson.AcceptsExactly` | pmqa/run/models.py:923-974 | The walk accepts exactly when the value unfolds to a finite legal tree of at most 4096 nodes and depth 32. |
| `PlainJson.ScalarsExactly` | pmqa/run/models.py:938-945 | A value without children is accepted exactly when it is nothing, a boolean, an integer, a finite number or a text of at most 65536 characters; any other object is refused. |
| `PlainJson.AcceptedPaths` | pmqa/run/models.py:923-974 | Everything an accepted value leads to, along any path, is such a scalar or a container with text keys, and the path is at most 32 long. |
| `PlainJson.UnfoldsUnique` | pmqa/run/models.py:923-974 | A value has at most one unfolding. |
| `PlainJson.VisitsBounded` | pmqa/run/models.py:923-974 | The walk makes at most 4097 counted visits on any graph. |
| `UsageTree.SummaryNodes` | pmqa/usage/summary.py:406-442 | The stored tree of a summary of n records has at most 38 + 58 n nodes, hence at most 3750. |
| `UsageTree.SummaryTreeAccepted` | pmqa/run/models.py:181-189 | The canonical-tree check accepts every summary the aggregator returns, however its tree is shared in memory. |
| `Workflow.CollectRequestedFields` | pmqa/workflow/updates.py:106-136 | Adding the requested fields one by one gives exactly the set of operations the patch asks for. |
| `Workflow.AcceptedPatchEvolves` | pmqa/workflow/reducer.py:20-124 | Whatever an accepted patch does, identity stays, collections grow at their end, iteration and time never decrease, and a terminal state stays as it is. |
| `Workflow.AllowedPatchOwnsCollection` | pmqa/workflow/updates.py:159-207 | A patch within an agent role's policy extends only that role's collection and touches no routing. |
| `EngineMeaning.ReducesExactly` | pmqa/workflow/reducer.py:20-124 | The reducer accepts a patch exactly when the state it asks for, field by field, is admissible, and then returns that state. |
| `EngineMeaning.ReducerErrors` | pmqa/workflow/reducer.py:110-124 | A refused patch is refused for the first unmet demand. |
| `ContractMeaning.StateMeans` | pmqa/workflow/models.py:75-182 | A state is admitted exactly when it is named throughout, within its iteration limit, in chronological order, with entries closed exactly when they completed or failed, and without prohibited keys in its payloads. |
| `ContractMeaning.PatchMeans` | pmqa/workflow/updates.py:41-104 | A patch is admitted exactly when it never sets and clears the same field, gives a reason exactly when it ends the workflow, and takes one back only when it reopens it. |
| `SupervisorPolicy.CollectRecoveryRoles` | pmqa/supervisor/policy.py:214-235 | The loop collects the roles of the relevant invocations, or reports the first one that failed or is incomplete. |
| `SupervisorPolicy.DecisionShape` | pmqa/supervisor/policy.py:29-100 | A decision on a running workflow either routes to one executable agent or stops it. |
| `SupervisorPolicy.DecisionsApply` | pmqa/supervisor/policy.py:260-325 | Every decision passes its own contract and the reducer accepts its patch. |
| `PolicyMeaning.DecidesBeforeResults` | pmqa/supervisor/policy.py:29-124 | An ended workflow keeps the action of its own status; contradictory routing is refused, an error fails the workflow, and otherwise the first empty collection decides the agent. |
| `PolicyMeaning.RefusesUnmatchedResults` | pmqa/supervisor/policy.py:140-156 | A result without a completed Validator, or one without a result, is refused. |
| `PolicyMeaning.RefusesResults` | pmqa/supervisor/policy.py:127-174 | The first stored result without a verdict is refused, and so is work continued after a passed one. |
| `PolicyMeaning.CompletesExactly` | pmqa/supervisor/policy.py:140-174 | With the last result passed and all before it failed, the workflow completes exactly when the history up to its last completed Validator consists, after the first, of whole completed cycles; what follows does not matter. |
| `PolicyMeaning.EndedStaysEnded` | pmqa/supervisor/policy.py:29-43 | Running the graph from an ended workflow changes nothing and stops with the action of its status. |
| `Engine.AssembleAgents` | pmqa/orchestration/langgraph.py:158-188 | Assembly succeeds exactly for one agent per executable role registered under its own role, and copies the registrations. |
| `EngineMeaning.AnyCallSucceedsExactly` | pmqa/runtime/runtime.py:46-77 | A call succeeds exactly when the agent's capabilities are for its own role, the answer is from this agent for this workflow and invocation and not dated before the request, its patch is well-formed and within both its role and its declared capabilities, and the reducer accepts it. |
| `EngineMeaning.CallErrors` | pmqa/runtime/runtime.py:46-77 | A refused call is refused for the first of these reasons, each with its own error. |
| `EngineMeaning.ExecutionMeans` | pmqa/orchestration/langgraph.py:61-98 | A node execution that succeeds leaves exactly the answer's patch on top of the state before, with the routing cleared and the iteration advanced only for the Explorer. |
| `Engine.RunGraph` | pmqa/orchestration/langgraph.py:121-134 | The graph cycle over its carried state is the run over the replies. |
| `Engine.ExecuteStepSafe` | pmqa/orchestration/langgraph.py:61-98 | With arbitrary agents an execution that returns changes only the running role's collection and advances the iteration only for the Explorer. |
| `Engine.StepSafe` | pmqa/orchestration/langgraph.py:52-98 | Every node execution, whatever the agent answers, evolves the state and respects ownership. |
| `Engine.RunSafe` | pmqa/orchestration/langgraph.py:121-134 | With arbitrary agents, between any two moments of a run: identity constant, collections append-only, iteration and time never decreasing and within the maximum, and a terminal state never changed again. |
| `Engine.RunOwns` | pmqa/orchestration/langgraph.py:121-134 | Between any two moments of a run a collection changes only if its own role was executed in between, and the iteration rises by exactly the number of Explorer executions. |
| `EngineRuns.PolicyFollowsCounter` | pmqa/supervisor/policy.py:29-257 | After n contract-abiding calls the history-reading policy never raises and decides what the counter n alone determines. |
| `EngineRuns.ExecuteOnChosen` | pmqa/orchestration/langgraph.py:61-98 | An answer within the agent contract passes every check and lands in exactly the state it describes. |
| `EngineRuns.ExecuteStep` | pmqa/runtime/runtime.py:46-77 | A contract-abiding call moves the counter by one, or leaves an error and one failed entry. |
| `EngineRuns.RunsFollowCounter` | pmqa/orchestration/langgraph.py:52-134 | Every run of contract-abiding agents refines the counter: history is the repeated cycle, the collections have the lengths n determines, nothing raises. |
| `EngineRuns.SelectionIsCounter` | pmqa/supervisor/policy.py:29-100 | At every moment of such a run the selected agent is number n mod 3 and the collections have lengths (n+2)/3, (n+1)/3 and n/3. |
| `EngineRuns.RunsTerminate` | pmqa/supervisor/policy.py:282-325 | Every such run ends within 3 max agent calls and 6 max + 1 node executions: COMPLETED exactly when the last result passed, FAILED exactly when an error was reported, TERMINATED only after a whole failed cycle at the limit. |
| `EngineRuns.EndMeans` | pmqa/supervisor/policy.py:44-100 | The final status says exactly what happened in the run. |
| `Recovery.RecoveryAcceptsExactly` | pmqa/supervisor/policy.py:140-257 | With every result failed, the policy decides exactly for histories that, after their first completed Validator, are whole cycles and then a proper prefix of one, all completed. |
| `Recovery.RecoverySelects` | pmqa/supervisor/policy.py:177-211 | On such a history the policy names the role that continues the cycle, or stops at the iteration limit after a whole cycle. |
| `Recovery.RolesMeaning` | pmqa/supervisor/policy.py:214-235 | Collecting roles succeeds exactly when every relevant entry completed, and then yields their roles in order. |
| `Recovery.AcceptedHasForm` | pmqa/supervisor/policy.py:140-174 | Whatever passes the checks between consecutive results has the form described. |
| `Recovery.FormIsAccepted` | pmqa/supervisor/policy.py:140-257 | Every history of the form passes the checks. |
| `KnowledgeMapping.CollectAttributes` | products/demo/knowledge_mapping.py:176-187 | The loop with its dictionary and its set of normalized names succeeds exactly when the names stay apart and none is prohibited. |
| `KnowledgeMapping.MapsExactly` | products/demo/knowledge_mapping.py:176-187 | A successful mapping holds exactly the observed name and value pairs. |
| `KnowledgeMapping.ItemOrderIrrelevant` | products/demo/knowledge_mapping.py:254-261 | Re-checking a mapped dictionary does not depend on the order of its items. |
| `KnowledgeMapping.BuildsExactly` | products/demo/knowledge_mapping.py:100-173 | Mapping valid evidence succeeds exactly when each element's attribute names stay distinct after normalization; the candidate is valid, correlated and parses back to itself. |
| `KnowledgeMapping.MappingLosesNothing` | products/demo/knowledge_mapping.py:100-173 | The evidence can be read off its mapping item by item: every field is kept and every attribute pair is in the dictionary. |
| `KnowledgeMapping.CandidateIsSafe` | products/demo/knowledge_mapping.py:230-282 | A valid candidate has no prohibited mapping key. |
| `ContractMeaning.EvidenceMeans` | pmqa/models/exploration.py:40-181 | Evidence is admitted exactly when it is named and sourced, no list repeats an identifier, every element, locator and interaction refers to items of the batch, and attribute names are neither empty, repeated nor prohibited. |
| `ContractMeaning.CandidateMeans` | products/demo/knowledge_mapping.py:34-282 | A candidate is admitted exactly when it is named after its sources and holds sound, unverified knowledge of its own scope. |
| `ContractMeaning.ResultMeans` | products/demo/validation.py:45-342 | A result is admitted exactly when it is named after its sources, has one check of its own status, and holds knowledge verified at its own instant exactly when it passed. |
| `ContractMeaning.NamesAre` | products/demo/knowledge_mapping.py:317-345 | Candidate, artifact and validation identifiers are made of version, kind and sources in this order. |
| `BoundaryMeaning.NormalizeMeans` | pmqa/security/boundary_policy.py:86-95 | A key is compared as its lower-case words joined by single underscores. |
| `BoundaryMeaning.SameWordsAlike` | pmqa/security/boundary_policy.py:86-95 | Keys with the same words, whatever their case and separators, are prohibited alike. |
| `KnowledgeValidation.ParseChecks` | products/demo/validation.py:304-323 | With one supported code and no duplicates, parsing succeeds exactly for a single supported check. |
| `KnowledgeValidation.SnapshotRoundTrip` | products/demo/validation.py:208-301 | Erasing a verified snapshot's lifecycles restores the candidate knowledge, and verifying that restores the snapshot. |
| `KnowledgeValidation.BuiltResultParses` | products/demo/validation.py:82-150 | Every built result parses back to itself and may be stored. |
| `KnowledgeValidation.PassesExactly` | products/demo/validation.py:153-205 | Validation passes exactly when the candidate is the deterministic mapping of its evidence; the snapshot is then that mapping, VERIFIED at one instant. |
| `KnowledgeValidation.FreshCandidatePasses` | products/demo/validation.py:153-205 | A freshly built candidate always passes against its own evidence. |
| `KnowledgeValidation.MappingEscapesExactly` | products/demo/validation.py:177-183 | A mapping error leaves the validation unconverted exactly for valid, correlated inputs whose evidence cannot be mapped. |
| `SauceSelection.ParseStoredEvidence` | products/demo/artifact_handoff.py:214-233 | The loop and its dictionary test return all stored evidence exactly when each item is valid and correlated and identifiers are distinct. |
| `SauceSelection.ParseStoredCandidates` | products/demo/validator_agent.py:213-245 | The loop with its two identifier sets returns all stored candidates exactly when each is valid and correlated and no identifier repeats. |
| `SauceSelection.ParseStoredResults` | products/demo/validator_agent.py:133-175 | The loop with its two identifier sets checks every stored result against its rebuild, in order, up to the first refusal. |
| `SauceSelection.CheckedExactly` | products/demo/artifact_handoff.py:266-312 | The results are accepted exactly when each checks on its own and no identifier repeats. |
| `SauceSelection.ByIdSize` | products/demo/artifact_handoff.py:228-232 | A dictionary by identifier has as many entries as items exactly when the identifiers are distinct. |
| `SauceSelection.AcceptsStanding` | products/demo/validator_agent.py:133-175 | The stored results are accepted exactly when each is well-formed, names a stored candidate and its evidence, and equals its rebuild at its own instant, and no identifier repeats. |
| `SauceSelection.LetsEscape` | products/demo/validator_agent.py:133-163 | A mapping error leaves the check of stored results exactly when some well-formed, correlated result rests on evidence that cannot be mapped, and all results before it stand. |
| `SauceSelection.SelectsCandidateExactly` | products/demo/validator_agent.py:126-186 | The Validator selects a candidate exactly when what is stored reads back, all results stand and it is the only stored candidate without a result. |
| `SauceSelection.SelectsExactly` | products/demo/knowledge_agent.py:120-173 | The Knowledge agent selects a batch exactly when what is stored reads back and it is the only stored batch that no candidate names. |
| `SauceSelection.SelectedEvidence` | products/demo/knowledge_agent.py:120-173 | The selected evidence is stored, valid and correlated, and no stored candidate names it. |
| `SauceStored.ReadableMeans` | products/demo/knowledge_agent.py:120-173 | What is stored reads back exactly when there is evidence, every evidence and candidate payload is valid, of this workflow and product, every candidate is for a stored batch, and no identifier is used twice. |
| `SauceStored.OpenEvidenceMeans` | products/demo/knowledge_agent.py:155-173 | The open batch is the only stored one without a candidate. |
| `SauceStored.OpenCandidateMeans` | products/demo/validator_agent.py:164-186 | The open candidate is the only stored one without a result, with the stored batch it is for. |
| `SauceStored.ResultsStandMeans` | products/demo/validator_agent.py:133-175 | The stored results stand exactly when each equals its rebuild from the stored candidate and batch it names, at its own instant, and no identifier repeats. |
| `SauceAgents.ExplorerAbides` | products/demo/explorer_agent.py:53-166 | The Explorer keeps the agent contract in every state and for every behaviour of its tool. |
| `SauceAnswers.ExplorerAnswers` | products/demo/explorer_agent.py:53-166 | The Explorer answers with exactly the delivered evidence, one completed entry and the tool's instant when the tool returned valid evidence attributed to this very request, and with one error and one failed entry in every other case. |
| `SauceAgents.KnowledgeAbides` | products/demo/knowledge_agent.py:50-117 | The Knowledge agent keeps the agent contract in every state. |
| `SauceAnswers.KnowledgeAnswers` | products/demo/knowledge_agent.py:50-117 | The Knowledge agent answers with exactly the deterministic mapping of the one open mappable batch, and with one error and one failed entry exactly when there is none. |
| `SauceAgents.ValidatorAbidesExactly` | products/demo/validator_agent.py:54-186 | The Validator keeps the agent contract in every state but these: what is stored reads back, and either a stored result rests on evidence that cannot be mapped while all before it stand, or all stand and the one open candidate has such evidence. |
| `SauceAgents.ValidatorAbides` | products/demo/validator_agent.py:54-186 | When the attribute names of all stored evidence stay apart after normalization, the Validator keeps the agent contract. |
| `SauceAnswers.ValidatorAnswersExactly` | products/demo/validator_agent.py:54-186 | The Validator answers with exactly the verdict on the one open candidate and its evidence, lets an error escape exactly in the states above, and answers with one error in every other case. |
| `SauceAgents.ValidatorCanRaise` | products/demo/validator_agent.py:57-63 | A concrete state in which it raises: evidence whose attribute names differ only in separators, with a foreign candidate for it. |
| `SauceAgents.ValidatorCanRaiseOnResult` | products/demo/validator_agent.py:156-161 | It also raises when that candidate already has a valid stored result, of any instant, that is re-validated. |
| `ArtifactHandoff.ExtractsExactly` | products/demo/artifact_handoff.py:103-166 | The handoff accepts exactly completed workflows whose evidence, candidates and results are aligned index by index under distinct identifiers, with the last result passed. |
| `ArtifactHandoff.ExtractionIsSound` | products/demo/artifact_handoff.py:103-166 | A returned artifact is the deterministic mapping of a stored evidence item with every lifecycle VERIFIED at one instant. |
| `ArtifactHandoff.AcceptedIsAligned` | products/demo/artifact_handoff.py:315-340 | The append-order check together with the rebuild of every result forces alignment index by index. |
| `SauceRuns.SauceRunEnds` | products/demo/workflow.py:103-123 | From the empty initial state a SauceDemo workflow needs at most three agent calls and seven node executions, and ends COMPLETED or FAILED. |
| `SauceOutcome.WorkflowOutcome` | products/demo/workflow.py:103-123 | After seven node executions a SauceDemo workflow is COMPLETED, with the delivered evidence, its mapping and one passed result, exactly when the tool delivered evidence that can be mapped; without a delivery it has FAILED in the Explorer, with unmappable evidence in the Knowledge agent. |
| `SauceOutcome.HandsOffExactly` | products/demo/artifact_handoff.py:103-211 | A state of a SauceDemo run is handed off exactly when the run has ended COMPLETED and its own product is asked for. |
| `SauceOutcome.DemoCompletes` | products/demo/workflow.py:103-123 | Every empty SauceDemo workflow has a delivery with which it completes and is handed off. |
| `SauceRuns.CompletedIsAccepted` | products/demo/artifact_handoff.py:103-166 | Every COMPLETED state that the SauceDemo agents reach is accepted by the handoff, which returns the verified mapping of the captured evidence. |
| `RepositoryFiles.OpenFile.WriteAll` | pmqa/usage/repository.py:701-712 | Whatever the system calls return, the file holds what it held and a prefix of the payload, all of it exactly on success. |
| `RepositoryFiles.OpenFile.ReadExact` | pmqa/usage/repository.py:638-650 | Reading succeeds exactly when the file has the announced size, with its whole content. |
| `RepositoryFiles.ParsesExactly` | pmqa/usage/repository.py:652-686 | Parsing accepts exactly the canonical bytes of the record the file's name stands for. |
| `RepositoryFiles.SnapshotIsCanonical` | pmqa/usage/repository.py:376-392 | Taking a snapshot of a snapshot changes nothing. |
| `RepositoryProtocol.StepSafe` | pmqa/usage/repository.py:156-228 | Every single step of any saver or reader, successful, failing or interrupted, keeps the invariant and every record entry. |
| `RepositoryProtocol.RunSafe` | pmqa/usage/repository.py:156-228 | Over every interleaving a record name refers, once it exists, to the same inode and bytes: the complete canonical bytes of one record. |
| `RepositoryProtocol.SavesOnce` | pmqa/usage/repository.py:190-206 | At most one save per invocation identifier succeeds, and it has published exactly its own record. |
| `RepositoryProtocol.DuplicateIsReal` | pmqa/usage/repository.py:192-193 | A duplicate verdict means a complete record of that name exists. |
| `RepositoryReads.GetIsTraced` | pmqa/usage/repository.py:321-340 | Under every interleaving a get of a valid identifier ends as a read failure exactly when one of its own calls failed and as interrupted exactly when it was; it never meets a corrupt, vanished, shrunk or grown record, reports a missing one only if the name did not exist when it began, and ends after a bounded number of its own steps. |
| `RepositoryReads.SavedIsRead` | pmqa/usage/repository.py:321-340 | A get that starts after a successful save returns that very record exactly when, before it ended, none of its own calls failed and it was not interrupted, whatever runs beside it. |
| `RepositoryReads.SavedIsFound` | pmqa/usage/repository.py:321-340 | A later get that is left undisturbed and takes its steps always returns the saved record. |
| `RepositoryReads.SaveThenGet` | pmqa/usage/repository.py:156-340 | A save of any acceptable record in an empty directory does succeed, and a get after it does return the record. |
| `RepositoryReads.ReadsAgree` | pmqa/usage/repository.py:592-636 | Two reads of one identifier never find different records. |
| `RepositoryLoneRead.LoneReadAnswers` | pmqa/usage/repository.py:321-340 | Over any directory, foreign, oversized and altered files included, an undisturbed get refuses a malformed identifier, reports a missing record as missing, and returns a record exactly when the file is within the limit and is the canonical text of the record it is named after; any other file is corrupt. |
| `RepositoryLoneRead.ScanReadsAlike` | pmqa/usage/repository.py:570-590 | A query reads each listed record file as a get of its identifier would. |
| `RepositoryPublication.LinkedExactly` | pmqa/usage/repository.py:170-206 | Over every schedule a save's own step created its record's name exactly when the save reached the directory synchronization. |
| `RepositoryPublication.OutcomeAndLink` | pmqa/usage/repository.py:170-221 | A save that succeeded has linked; a save that failed with any code but a persistence failure, an unsupported publication above all, never linked. |
| `RepositoryPublication.UntroubledSave` | pmqa/usage/repository.py:156-221 | Under every interleaving a save without failing calls, empty writes and interruptions is refused exactly for an unacceptable record, saved exactly when it has linked, and otherwise a duplicate of an existing complete record. |
| `RepositoryVerdicts.OutcomeIsDecided` | pmqa/usage/repository.py:156-228 | Over every schedule a finished save reports an interruption exactly when it was interrupted, and otherwise exactly the outcome that one of its own steps decided, by the table of its phases and faults. |
| `RepositoryVerdicts.AcceptableMeans` | pmqa/usage/repository.py:377-418 | A record is accepted for saving exactly when it is valid and its canonical bytes are within 1048576. |
| `RepositoryCleanup.TemporaryNames` | pmqa/usage/repository.py:211-219 | Over every schedule a temporary name exists exactly when it did at the start, or a running save still has to remove it, or a save has abandoned it. |
| `RepositoryCleanup.ReleasedExactly` | pmqa/usage/repository.py:735-751 | Whatever its outcome, a finished save has removed the temporary name it created, exactly unless identifying the file or a step of its own release failed or was interrupted. |
| `RepositoryCleanup.NothingLeftBehind` | pmqa/usage/repository.py:211-219 | When every save is done and met no trouble, duplicates and refusals included, the directory holds exactly the temporary names it started with. |
| `RepositoryPublication.LinkedIsPublishedForGood` | pmqa/usage/repository.py:190-221 | A save that linked has its own complete record published from then on, whatever it reports. |
| `RepositoryPublication.NameHasLinker` | pmqa/usage/repository.py:189-206 | Every record name that a run adds was linked by a save of that identifier. |
| `RepositoryPublication.OneLinker` | pmqa/usage/repository.py:189-206 | At most one save of an identifier ever links, even among those that report a failure. |
| `RepositoryProtocol.FailureAfterPublication` | pmqa/usage/repository.py:204-216 | When synchronizing the directory fails after the link, the save reports a failure for a record that is already published. |
| `RepositoryProtocol.LinkIsReachable` | pmqa/usage/repository.py:172-206 | A save of any acceptable record in an empty directory, beside calls that have not opened a file, does reach the published state. |
| `RepositoryQuery.Query` | pmqa/usage/repository.py:558-590 | The scan loop, the two sorts and the limit compute the query result, the first read failure, or the refusal of a limit out of range. |
| `RepositoryQuery.SortsCompose` | pmqa/usage/repository.py:585-586 | The two stable sorts compose to the order by completion time descending, then identifier ascending. |
| `RepositoryQuery.QueryExactly` | pmqa/usage/repository.py:558-590 | When every record can be read, a query returns the first records of the one ordered listing of exactly the stored records that match. |
| `RepositoryQuery.ScanOrderIrrelevant` | pmqa/usage/repository.py:570-590 | The order of the directory scan does not change the result. |
| `RepositoryQuery.FailsExactly` | pmqa/usage/repository.py:579-584 | A query fails exactly when some record entry cannot be read. |
| `RepositoryQuery.AnswersInOrder` | pmqa/usage/repository.py:436-445 | A limit is accepted exactly from 1 to 1000; at most so many records are returned, the most recently completed first and records of one instant by identifier. |
| `RepositoryQuery.QueryAfterRun` | pmqa/usage/repository.py:558-590 | After any interleaving of savers a query over the directory succeeds and ranges over exactly the published records. |
| `RepositoryScan.ListedRead` | pmqa/usage/repository.py:579-636 | The read of a listed record, beside running savers, gives its complete record exactly when none of its own calls failed and it was not interrupted. |
| `RepositoryScan.QueryBesideSavers` | pmqa/usage/repository.py:558-590 | A query whose scan and reads interleave with savers, when no call of its reads fails, returns the first records of the ordered listing of exactly the listed matching records; each is complete, and every one complete before the scan is considered. |
| `RepositoryScan.QueryCompletes` | pmqa/usage/repository.py:558-590 | Whatever savers do beside it, a query whose reads are undisturbed and take their steps is answered in full. |
| `RepositoryScan.QueryFailure` | pmqa/usage/repository.py:570-636 | Beside running savers a query fails exactly when a call of one of its own reads has failed, and always as a read failure: no partial, corrupt or vanished record is met. |
| `InvocationCollector.Collector.StartInvocation` | pmqa/usage/collector.py:214-258 | A start with valid metadata and clocks adds exactly one entry; any failure leaves the map unchanged. |
| `InvocationCollector.Collector.InspectHandle` | pmqa/usage/collector.py:455-491 | Inspection finds an intact entry, and removes the entry of a handle whose binding was altered. |
| `InvocationCollector.Collector.Terminalize` | pmqa/usage/collector.py:387-453 | An uninterrupted call returns and leaves the map exactly as specified, on every success and failure path. |
| `InvocationCollector.AloneIsOnce` | pmqa/usage/collector.py:387-453 | A call that yields a record, or fails after consuming, removes its entry; rejected evidence or category changes nothing. |
| `InvocationCollector.GoneIsRefused` | pmqa/usage/collector.py:401-405 | A call on a handle without an entry is refused and changes nothing. |
| `CollectorAnswers.AnswersExactly` | pmqa/usage/collector.py:387-453 | One terminal call, for every handle, evidence and clock: the first reason that refuses it and what happens to the entry, or the record it yields, field by field. |
| `CollectorHandles.AlteredIsRefused` | pmqa/usage/collector.py:475-490 | A call on a handle whose binding was altered is refused as an invalid handle and the entry is gone. |
| `CollectorHandles.RefusedExactly` | pmqa/usage/collector.py:455-491 | A call is refused for its handle exactly when it has none, it is not active, or its binding was altered; an intact binding never is. |
| `CollectorHandles.AlteredNeverYields` | pmqa/usage/collector.py:455-491 | Under every interleaving a call that looks up an altered handle takes its entry and is refused, and from then on no call yields a record for it. |
| `CollectorHandles.YieldFoundIntact` | pmqa/usage/collector.py:455-491 | Every call that yields a record for a handle has looked it up while its binding was intact. |
| `InvocationCollector.DurationIsNearest` | pmqa/usage/collector.py:570-593 | The duration is the nearest integer of milliseconds, halves up, exactly when time did not run backwards and it is in range. |
| `InvocationCollector.BuiltRecordSays` | pmqa/usage/collector.py:418-453 | A yielded record is valid and carries the start's whole metadata and instant, the call's status, category and evidence, and the rounded duration. |
| `InvocationCollector.YieldsOnce` | pmqa/usage/collector.py:387-453 | Under every interleaving, with handles altered at will, each handle yields at most one record, built from its own start and the call's evidence. |
| `InvocationCollector.ActiveExactly` | pmqa/usage/collector.py:399-406 | A created handle is active exactly while no call has taken it; calls refused for evidence or category have not. |
| `InvocationCollector.NeverAgain` | pmqa/usage/collector.py:401-417 | Once a call has taken a handle, even if a clock then fails, no other call ever yields a record for it. |
| `InvocationCollector.BuildsExactly` | pmqa/usage/collector.py:410-453 | For valid metadata, category and evidence the record is built exactly when the clocks ran forward, the duration fits and the cost is not priced after the start; each failure has its own error. |
| `InvocationCollector.AloneYieldsExactly` | pmqa/usage/collector.py:387-453 | Uninterrupted, a call with accepted evidence takes its entry, and yields the record exactly under that guard; evidence priced after the start consumes the handle without a record. |
| `InvocationCollector.AloneIsSteps` | pmqa/usage/collector.py:387-453 | The steps of one caller in a row, with any clock samples, end with the result and leave the map of the uninterrupted call. |
| `InvocationCollector.LatePricingConsumes` | pmqa/usage/contracts.py:556-562 | Under every interleaving a call that ends as a failed terminalization has taken its handle, its cost evidence is priced after the start of that handle, and no call yields a record for it. |
| `InvocationCollector.LatePricingNeverYields` | pmqa/usage/contracts.py:556-562 | Under every interleaving a call whose cost evidence is priced after the start of its handle yields no record. |
| `InvocationCollector.YieldsExactly` | pmqa/usage/collector.py:387-453 | A start and then a call with accepted evidence and clock samples end with the handle taken, and with the record exactly when the clocks ran forward and the cost is not priced after the start. |
| `InvocationCollector.LatePricingLosesHandle` | pmqa/usage/collector.py:401-406 | A concrete run in which accepted evidence, priced one second after the start, loses its handle without a record. |
| `InvocationCollector.StepSafe` | pmqa/usage/collector.py:387-491 | Every step of every start, call, exception or alteration keeps the accounting of active and taken handles. |
| `ReasoningScrubber.Walker.Sanitize` | pmqa/reasoning/scrubber.py:146-184 | The recursion raises exactly on unsupported values, and otherwise returns the cleaned value and extends the three accumulators by exactly its removals, redactions and rules. |
| `ReasoningScrubber.CleanAt` | pmqa/reasoning/scrubber.py:146-184 | No position below a prohibited key survives; every other position does, with the same content except rewritten strings. |
| `ReasoningScrubber.ReportsExactly` | pmqa/reasoning/scrubber.py:171-174 | A position is reported as removed exactly when it is a topmost prohibited field. |
| `ReasoningScrubber.ReportedOnce` | pmqa/reasoning/scrubber.py:171-174 | No removed field is reported twice. |
| `ScrubberReport.RedactsExactly` | pmqa/reasoning/scrubber.py:210-244 | A redaction is reported exactly when, at a position below no prohibited field, the redactor applies its rule to the string there; the path names that position. |
| `ScrubberReport.RulesMean` | pmqa/reasoning/scrubber.py:146-184 | The removal rule is reported exactly when a topmost prohibited field exists, and any other rule exactly when some surviving string triggers it. |
| `ScrubberReport.PathGrows` | pmqa/reasoning/scrubber.py:164-184 | Paths are dotted keys and bracketed indices, read from the left; only the first key has no dot. |
| `ReasoningScrubber.AcceptedSanitizesExactly` | pmqa/reasoning/scrubber.py:187-207 | After the rejecting check, sanitizing raises exactly when an enumeration member it meets holds an unsupported value. |
| `ReasoningScrubber.AcceptedCanRaise` | pmqa/reasoning/scrubber.py:161-162 | A concrete accepted input on which sanitizing raises. |

## Left out

- Digests, JSON text and byte encoding: a digest is kept as its joined preimage, and records are
  encoded by any codec that decodes its own canonical encodings. Collisions are not modelled.
- Boundary.NormalizeKey: folds ASCII letters only; other characters of a key count as separators,
  where the program folds case by Unicode rules first.
- UsageRecords.TimestampText: usage instants are UTC, whole seconds since year 1 and microseconds;
  workflow instants are integers. Conversion from other time zones is not modelled.
- Amounts.ContextAdd: the exponent of a sum with a zero operand follows the general rule of the
  decimal context only for amounts read from canonical text, which every snapshot is.
- UsageAggregator.Summarize: a contract violation stands for the validation error a constructor
  would raise; scope and error are values, and messages and exception chaining are not modelled.
- KnowledgeMapping.ValidEvidence: describes already typed fields; the lenient conversions of the
  validation library and the text form of instants are not modelled.
- Models.Payload: a stored mapping is one of the three known envelopes or any other mapping, of
  which only the status entry and the absence of prohibited keys are kept; missing or unexpected
  keys, canonical-form comparison and freezing of payloads are therefore not visible.
- Engine.ExecuteNode: the step limit of the graph library and its scheduling are not modelled; an
  invocation identifier is the triple its text is made of.
- EngineRuns.RunsTerminate: termination needs the agent contract, because the iteration limit
  gates only the Explorer.
- SauceSelection.ParseStoredEvidence: one method stands for the same loop in the Knowledge agent,
  the Validator agent and the handoff, whose error messages differ; the same holds for
  ParseStoredCandidates and ParseStoredResults.
- RepositoryProtocol.Step: crashes that lose unsynchronized data, foreign processes that change
  the directory, permissions and symbolic links are not modelled; directory checks are single
  steps that succeed or fail.
- RepositoryQuery.Query: takes the listed names and the outcome of each read as parameters; how they
  arise beside running savers is the subject of RepositoryScan.
- RepositoryScan.QueryRun: the reads of a query are threads that may take their steps in any order;
  one after the other, as in the program, is one of these orders. An interrupted query has no result.
- InvocationCollector.DurationMilliseconds: clock differences are exact reals; the rounding of the
  default 28-digit decimal context for extreme clock values is not modelled.
- InvocationCollector.Step: each critical section is one step, as the lock makes it.
- PlainJson.Walk: one description of a key as accepted or not stands for the plain-text test here
  and for the stricter key tests of the otherwise identical payload walk; comparison and freezing
  of plain JSON are not modelled.
- ReasoningScrubber.Walker.RedactString: the three redaction patterns are one abstract function from a
  string to its rewriting and the rules of its replacements; dictionaries list their entries in
  key order.
- Browser capture, the TypeScript bridge, subprocesses, the command line, registries, the runner
  and service layers, pack loading and packaging: input, output and glue around foreign code, or
  chains of equality checks that would add only easy members.
