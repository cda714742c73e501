# Open Kritt engine: a verified model

Open Kritt scans a repository with a workflow of prompts, then deduplicates, ranks and enriches what it
finds. This project models the parts of the engine that decide something, and proves what they promise:

* **The workflow scheduler** (`WorkflowQueue`, `QueueProperties`, `QueueContexts`, `QueueOffers`, `QueueRuns`). The walk that
  offers jobs depth by depth, with fan-out, repeats, bound routing and the batch barrier, is a method proved
  against the specification functions `FrontAt` and `Pending`. Over them: barriers, drain, termination, order
  independence, soundness of the returned list, claims from stale snapshots by many workers, and every value
  that reaches a prompt, described by the rows of the job's lineage.
* **The static scope checker of generated workflows** (`WorkflowScope`) and its soundness: in every state of
  every run, each job sees exactly the names the checker computed for its depth, with the values they stand for.
* **The dedupe and rank pipeline** (`Findings`, `DedupePayloads`, `DedupePartition`, `RankPayloads`,
  `RankLedger`, `JobLedger`, `Database`, `PostProcessRuns`, `PostProcessSafety`, `PostProcessProgress`,
  `PostProcessEnds`). Any number of workers, each database transaction one step, the model's answers arbitrary. The validators and the
  merging code are methods with loops; `Database` holds the rows and updates them in place; `PostProcessRuns`
  is the transition system, built from the same specification functions the methods are proved against. Every
  run is safe, and every run with room under its job limit can be continued to a completed scan.
* **Output formats** (`OutputSchema`, `OutputFormats`). The descriptor checker, the normalization of a format with
  its legacy wrappers, the compiler to JSON Schema, a small evaluator for the schemas it emits (Draft 2020-12
  Validation sections 6.1.1, 6.1.2, 6.1.3, 6.4.1, 6.5.3 and Core sections 10.3.1.2, 10.3.2.1, 10.3.2.3), and
  compiler correctness against the meaning of a definition as it is written.
* **The readiness gate** (`ReadinessPolicies`, `EvidencePaths`, `ImpactEvidence`, `Lifecycles`, `ImpactGate`,
  `ReadinessFields`, `ReadinessWitness`, `PipelineStages`). The rules accumulate lists of reasons: each list is proved to hold
  exactly the reasons that are true of the finding, an empty list of blocking reasons to mean the end-to-end
  guarantee, and the SQL gate to select what the stated gate admits.
* **Rate limits** (`RateLimits`), **the SQL splitter** (`SqlSplitter`, `SqlPrinting`, `SqlSemicolons`), **the
  repair of truncated JSON** (`JsonRepair`, `JsonPatches`, `JsonBrackets`) and **the runtime env file**
  (`RuntimeConfig`, `RuntimeSync`, `EnvFiles`).

`Wrappers`, `JsonValues`, `Text` and `Sorting` are shared: optional values, JSON values, Python's whitespace
and numerals, and stable sorting.

Code that works step by step is a method or a class, and its contract ties it to a specification function;
the lemmas are about those functions. Strings that only name a fault are constructors of a fault datatype.

Four places where the code does not do what one might read into it, each with an input and the exact condition:

* `normalize_evidence_path` is not idempotent on every input (`EvidencePaths.NormalizeTwiceDiffers`: `a /.`).
  `EvidencePaths.NormalizeTwiceIff` says when it is, by the components of the given path: no blank before the
  first one or after the last one. `EvidencePaths.NormalizeTwiceIffText` says it of the text: no blank at an end
  of the stripped path once its outer separators and single dots are taken off.
* The comment over the D5 SQL predicate says it mirrors `d5_eligible`. On stored JSON it accepts more
  (`ImpactEvidence.D5SqlDiffers`: a completeness flag that is the text `true`, a blank directory, a list as the
  directory). By `ImpactEvidence.D5SqlMirrors` the two agree on a row exactly when it is not selected or stores a
  Boolean flag and a directory that is text and not blank; they agree on every block the engine itself writes.
* A ready finding need not pass `d5_eligible`: the gate takes a status the evidence does not state from the D4
  result, the predicate reads the evidence alone. `ReadinessWitness.ReadyAndRefused` is such a finding, key by
  key, and `ImpactGate.ReadyWithoutStatuses` makes one of any ready finding whose D4 result states both;
  `ImpactGate.ReadyIsEligible` gives the condition: both statuses are stated in the evidence. The one caller
  (post_processing.py, lines 1123 to 1132) evaluates rows the candidate query has selected, whose evidence states
  both, and for those ready implies eligible (`ImpactGate.SelectedReadyIsEligible`).
* The draft checker accepts an output key `fields` or `options` whose definition is an object without a type,
  and the normalization before compilation takes it for a legacy wrapper (`WorkflowScope.DraftedOptionsAreLost`).
  By `WorkflowScope.DraftedRowsAreDeclaredIff` rows carry the drafted keys exactly when the `fields` wrapper, if
  any, wraps every wrapper's key and only declared ones. A saved format is normalized key by key and has no wrapper
  (`WorkflowScope.ValidatedRowsAreDeclared`).

Two more conditions are exact in the same way. A synced env file gives the updated values back exactly when
no value it takes has a line break (`RuntimeSync.SyncRefinesUpdateIff`). And by `RateLimits.CutOffIff` the
retry delay departs from its doubling formula exactly when eight or more doublings are due and neither they
nor the provider's hint reach the maximum, which never happens at the two maxima the engine uses.

## Model

| member | source | states |
|---|---|---|
| `WorkflowQueue.ValidateWorkflowBindings` | engine/open_kritt_engine/queue.py:99-124 | accepts a workflow exactly when every depth with a binding is bound completely, not a batch, and its sources are the ids of the previous depth, one to one |
| `WorkflowQueue.ValidateBinding` | engine/open_kritt_engine/queue.py:99-124 | accepts one depth exactly when it is unbound or bound one to one onto the depth before it |
| `WorkflowQueue.Depths` | engine/open_kritt_engine/queue.py:170-186 | the depths walked are exactly those some step has, strictly ascending |
| `WorkflowQueue.NextStates` | engine/open_kritt_engine/queue.py:127-143 | one state per result row, in row order, none after the last step; `EveryContextIs` says what its context holds |
| `WorkflowQueue.Missing` | engine/open_kritt_engine/queue.py:211-222 | the first repeat that is not finished: all repeats before it are, and it is one past the last exactly when all are |
| `WorkflowQueue.RunTask` | engine/open_kritt_engine/queue.py:209-226 | the repeat loop of one task: whether it is done, the at most one job it offers, and its outputs, as the specification of the task says |
| `WorkflowQueue.RunTasks` | engine/open_kritt_engine/queue.py:206-226 | the loop over the routed states: complete exactly when every task is, with the offers and the outputs in order |
| `WorkflowQueue.RunDepth` | engine/open_kritt_engine/queue.py:199-226 | one depth of the walk over all its steps refines the specification of the depth |
| `WorkflowQueue.WalkDepth` | engine/open_kritt_engine/queue.py:186-229 | barrier and walk of one depth give the next front and the jobs offered at it |
| `WorkflowQueue.Walk` | engine/open_kritt_engine/queue.py:183-229 | the loop over the depths gives the specified pending jobs, in walk order |
| `WorkflowQueue.BuildPendingJobs` | engine/open_kritt_engine/queue.py:170-242 | refuses exactly the workflows with a binding fault; otherwise returns the pending jobs of the specification, sorted by priority; `PendingJobIs` and `EveryContextIs` say what each is given |
| `QueueContexts.EveryContextIs` | engine/open_kritt_engine/queue.py:127-167 | in every state of every run, a task's context holds the answers of one row of each depth since the last barrier, each row following from the one before and the latest winning, the arrays formed at the barriers so far, and the scan's settings; nothing else |
| `QueueContexts.RootReaches` | engine/open_kritt_engine/queue.py:170-205 | every step of the first depth runs on the scan's own settings |
| `QueueContexts.RowReaches` | engine/open_kritt_engine/queue.py:127-205 | every row of every repeat of a finished task reaches every step of the next depth that takes it |
| `QueueContexts.BatchReaches` | engine/open_kritt_engine/queue.py:186-197 | once every earlier task is finished and a row came in, a depth that consumes all runs each of its steps |
| `QueueContexts.PendingJobIs` | engine/open_kritt_engine/queue.py:209-226 | a pending job is a visited task, with its context and lineage, at the first repeat that is not finished, which nobody holds |
| `QueueContexts.TasksInOrder` | engine/open_kritt_engine/queue.py:199-210 | the tasks of a depth are every routed pair of step and state once, step by step and state by state |
| `QueueProperties.PendingIsReady` | engine/open_kritt_engine/queue.py:199-226 | a job is pending exactly when it is the first unfinished repeat of a visited task and nobody holds it |
| `QueueProperties.OfferIsReady` | engine/open_kritt_engine/queue.py:211-222 | a task offers exactly the repeat whose predecessors are all finished, unless it is claimed |
| `QueueProperties.CompleteMeansDone` | engine/open_kritt_engine/queue.py:186-232 | the barrier flag of a depth is set exactly when every task of every earlier depth has finished every repeat |
| `QueueProperties.BarrierHolds` | engine/open_kritt_engine/queue.py:186-197 | a consume-all job exists only when all earlier depths are finished; its array is all previous payloads in order |
| `QueueProperties.BarrierStable` | engine/open_kritt_engine/queue.py:186-197 | once a consume-all depth has a job, its front and its tasks are the same in every later state of the run |
| `QueueProperties.TasksPersist` | engine/open_kritt_engine/queue.py:183-232 | a task once visited is visited in every later state, so no job vanishes from a run |
| `QueueProperties.DrainedIff` | engine/open_kritt_engine/queue.py:183-242 | nothing is pending for an idle engine exactly when every visited task at every depth has finished every repeat |
| `QueueOffers.PendingListSound` | engine/open_kritt_engine/queue.py:199-242 | the returned list has no task twice, is exactly the ready jobs, and is ordered: deepest first, then the earliest repeat, then the first step, then by the given value |
| `QueueOffers.TiesKeepOrder` | engine/open_kritt_engine/queue.py:233-242 | jobs of equal priority keep the order in which the walk found them |
| `QueueOffers.BindingIsBijective` | engine/open_kritt_engine/queue.py:99-124 | an accepted binding is a bijection of the depth's sources onto the previous depth's steps (pigeonhole) |
| `QueueOffers.BoundRoutingIsExact` | engine/open_kritt_engine/queue.py:199-205 | at a bound depth every incoming state goes to exactly one step: the tasks carry the same states with the same multiplicity, and are as many |
| `QueueRuns.StaleClaimIsExact` | engine/open_kritt_engine/db.py:1752-1850 | a granted claim made from an outdated snapshot is of a job the scheduler would offer in the current state, with the same context |
| `QueueRuns.KeysStayPlain` | engine/open_kritt_engine/queue.py:170-242 | in every interleaving no key is both running and finished, and only keys of the plain depth-by-depth reading of the workflow ever are |
| `QueueRuns.DrainedIsPlain` | engine/open_kritt_engine/queue.py:183-242 | a drained run has finished every job of the workflow and nothing else |
| `QueueRuns.OrderDoesNotMatter` | engine/open_kritt_engine/queue.py:183-242 | two drained runs, however their completions were ordered, have finished the same jobs |
| `QueueRuns.CompletionsBounded` | engine/open_kritt_engine/queue.py:183-242 | a run completes at most one job per key of the workflow, so it stops |
| `QueueRuns.DrainedStays` | engine/open_kritt_engine/queue.py:183-242 | a drained run never starts a job again, whichever snapshot a worker holds |
| `QueueRuns.EveryRunCanDrain` | engine/open_kritt_engine/queue.py:170-242 | whatever has happened, a run can be continued until it is drained; with the order independence, to the one moment all drained runs end in |
| `QueueRuns.HandOverIsSafe` | engine/open_kritt_engine/worker.py:1456-1506 | when a worker finds no job and equal claimed and completed keys, read at different moments and with any attempted keys added to the claimed ones, no job is in flight then or later and all are finished |
| `QueueRuns.HoldingBackOffersLess` | engine/open_kritt_engine/worker.py:1462-1473 | with attempted keys added to the claimed ones a worker is offered a part of the same jobs, and none of those keys |
| `QueueRuns.DatabaseViewAgrees` | engine/open_kritt_engine/queue.py:170-186 | rows of unfinished jobs in the result tables do not change the pending list |
| `WorkflowScope.ValidateWorkflowArtifact` | engine/open_kritt_engine/generation.py:367-520 | reports exactly the faults a draft has, each at its depth, step and key, and none exactly for the drafts that are named, have contiguous unique depths, declare valid unreserved keys once, mention only names in scope, and end in the required keys |
| `WorkflowScope.AcceptedEndsInRequiredKeys` | engine/open_kritt_engine/generation.py:494-517 | the terminal check passes over a null definition, yet the last level of an accepted draft has every required key at its required type |
| `WorkflowScope.ValidateDepths` | engine/open_kritt_engine/generation.py:384-423 | reports exactly the faults of the depths, each missing depth by its number, and none exactly when they are 0 up to the greatest, each once |
| `WorkflowScope.AvailableAt` | engine/open_kritt_engine/generation.py:448-459 | the loop that collects the available names computes the recursive scope of the depth |
| `WorkflowScope.CountKeys` | engine/open_kritt_engine/generation.py:426-429 | how many levels declare each key |
| `WorkflowScope.KeyCountIs` | engine/open_kritt_engine/generation.py:426-429 | a key is counted once exactly when one level declares it, and zero times when none does |
| `WorkflowScope.ValidateFormat` | engine/open_kritt_engine/generation.py:431-445 | reports exactly the faults of the keys, each with its key and a definition's with their paths, and none exactly for a nonempty format of valid, unreserved, unique keys with valid definitions |
| `WorkflowScope.ValidateStep` | engine/open_kritt_engine/generation.py:460-492 | reports exactly the faults of a step, with the set of its undefined references, and none exactly for a named step whose references are well formed and in scope or under `extra` |
| `WorkflowScope.ScopeSound` | engine/open_kritt_engine/generation.py:449-492 | in every state of every run, each visited job's context has exactly the computed names and `extra`, across any number of batch barriers |
| `WorkflowScope.PromptValues` | engine/open_kritt_engine/generation.py:449-492 | in every state of every run of an accepted draft, the built-in names and `extra` carry the scan's values, a key declared since the last barrier the answer of the lineage's row at that depth, and a batch name the array formed at its own barrier, later barriers or not |
| `WorkflowScope.ReferencesResolve` | engine/open_kritt_engine/prompting.py:39-68 | every reference of an accepted prompt resolves at run time to the value of a present key, or to what the scan's extra settings hold for it, nothing where they hold nothing |
| `WorkflowScope.ValidatedRowsAreDeclared` | engine/open_kritt_engine/schema.py:262-277 | rows that pass the payload validator against a saved format, its keys in any order, carry exactly the keys of the draft, as scope soundness assumes |
| `WorkflowScope.DraftedRowsAreDeclaredIff` | engine/open_kritt_engine/schema.py:70-88 | against the drafted format itself, rows carry the declared keys exactly when the `fields` wrapper wraps every wrapper's key and only declared ones |
| `WorkflowScope.DraftedOptionsAreLost` | engine/open_kritt_engine/generation.py:431-445 | an accepted format whose one key is taken for a wrapper and dropped |
| `OutputSchema.NormalizeIdempotent` | engine/open_kritt_engine/schema.py:41-88 | normalizing a descriptor twice is normalizing it once |
| `OutputSchema.CountDefinitions` | engine/open_kritt_engine/schema.py:91-101 | the counting loop computes the number of declared fields, nested ones included |
| `OutputSchema.ValidateFieldDefinition` | engine/open_kritt_engine/schema.py:104-116 | reports exactly the faults of a key and its definition, each at its path, and none exactly for the descriptors that are valid, within depth four and sixty-four fields |
| `OutputSchema.ValidateDefinition` | engine/open_kritt_engine/schema.py:119-186 | reports exactly the faults a definition has, in itself, its items or its fields, each at the path of its descriptor, and none exactly for a valid one |
| `OutputSchema.RenormalizingIsIdentity` | engine/open_kritt_engine/schema.py:194-216 | in a normalized definition, normalizing the items or a field again changes nothing |
| `OutputSchema.CompilesIff` | engine/open_kritt_engine/schema.py:194-216 | the compiler as it recurs, normalizing at every level, gives exactly the schema of normalizing once at the top, for every definition |
| `OutputSchema.CompilerCorrect` | engine/open_kritt_engine/schema.py:194-216 | the compiled schema of every accepted definition accepts exactly the JSON values the definition, as written, means: a type name, a sample value, or a descriptor's own type, items, fields, required and enum |
| `OutputSchema.AcceptedIff` | engine/open_kritt_engine/schema.py:104-186 | exactly the definitions are accepted that, as written, are a type name or an object with valid parts, among them a list of different texts as enum and required names that are declared, within the limits |
| `OutputSchema.RowSchemaCorrect` | engine/open_kritt_engine/schema.py:219-245 | the row schema accepts exactly the objects with all declared keys, no others, and values of their meaning |
| `OutputSchema.PayloadAcceptedIff` | engine/open_kritt_engine/schema.py:262-277 | the payload validator passes exactly the well-formed stubs and the nonempty lists of declared rows, and returns the rows |
| `OutputSchema.StripIsIdentity` | engine/open_kritt_engine/schema.py:248-259 | stripping reserved keys changes no payload that is valid for an accepted format |
| `OutputSchema.StripRemovesReserved` | engine/open_kritt_engine/schema.py:248-259 | whatever the model returned, no reserved key survives stripping, at the top or in a row |
| `OutputSchema.StripKeepsRest` | engine/open_kritt_engine/schema.py:248-259 | every other key of the payload and of its rows keeps its value, and every row its place |
| `OutputSchema.AcceptedRowKeys` | engine/open_kritt_engine/schema.py:262-277 | accepted rows carry exactly the keys of the format, valid or not |
| `OutputFormats.NormalizeOutputFormat` | engine/open_kritt_engine/schema.py:70-88 | the loop over the entries, with the loop over what the `fields` wrapper wraps, gives the specified format |
| `OutputFormats.FormatIs` | engine/open_kritt_engine/schema.py:70-88 | every key of the format has an entry that supplies it and carries its definition in normal form; every supplied key is there |
| `OutputFormats.LastSupplierDecides` | engine/open_kritt_engine/schema.py:79-87 | of several entries that supply a key, plain or wrapped, the last decides |
| `OutputFormats.FormatTwice` | engine/open_kritt_engine/schema.py:70-88 | normalizing a format again, its keys in any order, changes nothing, whatever the first one held |
| `OutputFormats.DeclaredKeysIff` | engine/open_kritt_engine/schema.py:37-38 | the declared keys survive exactly when the `fields` wrapper, if any, wraps every wrapper's key and only declared ones |
| `OutputFormats.ValidAfterNormalizing` | engine/open_kritt_engine/schema.py:219-245 | a format of valid definitions without a `fields` wrapper is compiled from a valid format |
| `Findings.BatchInFits` | engine/open_kritt_engine/post_processing.py:222-238 | a batch holds exactly the anchors and at most fifty waiting findings, none only when none waits |
| `Findings.DedupeTakesFirst` | engine/open_kritt_engine/post_processing.py:222-227 | a dedupe batch takes the unprocessed findings first in loading order; one left out means a full batch of earlier ones |
| `Findings.RankerTakesFirst` | engine/open_kritt_engine/post_processing.py:230-238 | a ranker batch takes the unranked canonicals first by old rank and id, against anchors in rank order |
| `DedupePayloads.ValidateDedupePayload` | engine/open_kritt_engine/post_processing.py:295-331 | accepts exactly the clusters that partition the targets, each with a target and at most one anchor; each refusal names a fault the payload has |
| `DedupePayloads.ScanIds` | engine/open_kritt_engine/post_processing.py:312-320 | the inner loop accepts exactly allowed ids that have not been seen, and names the offending id otherwise |
| `DedupePayloads.FaultMeansRefusal` | engine/open_kritt_engine/post_processing.py:295-331 | a payload with any of the faults is not an accepted one |
| `DedupePayloads.DedupeMapping` | engine/open_kritt_engine/post_processing.py:334-353 | the nested loops compute the specified mapping |
| `DedupePayloads.MappingIs` | engine/open_kritt_engine/post_processing.py:334-353 | the mapping covers exactly the clustered targets, each assigned its cluster's anchor, else its least target, with that cluster id and reason |
| `DedupePayloads.ClusterIdInjective` | engine/open_kritt_engine/post_processing.py:347-351 | within a scan, equal cluster ids mean equal canonicals |
| `DedupePayloads.ClusterIdIs` | engine/open_kritt_engine/post_processing.py:347-351 | a cluster id is the decimal numerals of the scan and of the canonical with a colon between them |
| `DedupePartition.BatchKeepsPartition` | engine/open_kritt_engine/post_processing.py:334-353 | an accepted batch keeps: every processed finding points to a canonical that is its own canonical |
| `DedupePartition.BatchOnlyFilesTargets` | engine/open_kritt_engine/db.py:1517-1550 | an accepted batch leaves every processed finding as it was and processes exactly its targets |
| `DedupePartition.SameClusterIff` | engine/open_kritt_engine/post_processing.py:334-353 | two processed findings share a cluster id exactly when they share a canonical |
| `DedupePartition.CanonicalPointsToItself` | engine/open_kritt_engine/post_processing.py:334-353 | the canonical of a processed finding is canonical, points to itself and has the same cluster id |
| `RankPayloads.ValidateRankerPayload` | engine/open_kritt_engine/post_processing.py:356-377 | accepts exactly the rankings that list every target once with no reward range upside down; each refusal names a fault the payload has, and missing targets exactly |
| `RankPayloads.FaultMeansRefusal` | engine/open_kritt_engine/post_processing.py:356-377 | a payload with any of the faults is not an accepted one |
| `RankPayloads.RankUpdates` | engine/open_kritt_engine/post_processing.py:380-456 | the loops and the sort compute the specified updates |
| `RankPayloads.ApplyRanksIs` | engine/open_kritt_engine/db.py:1552-1597 | applying updates with distinct ids writes each id its own rank and total and touches nothing else |
| `RankPayloads.MergedIs` | engine/open_kritt_engine/post_processing.py:393-412 | the merged order holds every anchor and target once, sorted by position, targets before anchors at the same one |
| `RankLedger.BatchKeepsLedger` | engine/open_kritt_engine/post_processing.py:380-456 | after an accepted batch the ranks are again a bijection onto 1..n with every total n, over the old ranked findings and the targets |
| `RankLedger.RankedOrderKept` | engine/open_kritt_engine/post_processing.py:380-456 | whatever real positions the model returns, findings ranked before keep their relative order |
| `RankLedger.RanksFollowPositions` | engine/open_kritt_engine/post_processing.py:409-412 | of two merged entries the one at the smaller position gets the smaller rank |
| `RankLedger.TargetBeforeAnchorIff` | engine/open_kritt_engine/post_processing.py:409-412 | a target is ranked before a ranked finding exactly when the position the model gave it is at most that finding's old rank |
| `RankLedger.TargetBeforeTargetIff` | engine/open_kritt_engine/post_processing.py:409-412 | of two targets the one at the smaller position is ranked first, at equal positions the one with the smaller id |
| `RankLedger.RanksOnly` | engine/open_kritt_engine/db.py:1552-1597 | a ranker batch writes rank columns only, and only in ranked findings and targets |
| `JobLedger.ClaimPays` | engine/open_kritt_engine/db.py:407-453 | a successful claim consumes one slot for a new job and none for a retry; a refused claim consumes none |
| `JobLedger.ClaimSucceedsIff` | engine/open_kritt_engine/db.py:1191-1347 | a claim succeeds exactly when the scan is active, no row stands in the way, the claim is eligible, and the job was started before or fewer jobs than the limit are; it then adds one running row |
| `JobLedger.ClaimStopsIff` | engine/open_kritt_engine/db.py:419-444 | a claim changes the status exactly when it would start a job beyond the limit and nothing is running; the scan is then stopped |
| `JobLedger.ClaimKeeps` | engine/open_kritt_engine/db.py:1191-1307 | a claim keeps: jobs started are the distinct jobs with a row and within the limit, no job has two rows running or completed, no kind two running batches |
| `JobLedger.SettleKeeps` | engine/open_kritt_engine/db.py:1451-1515 | ending a row keeps the ledger and the set of started jobs |
| `JobLedger.SettleIs` | engine/open_kritt_engine/db.py:1451-1515 | an ended row is completed or abandoned as told; its job, all other rows and the counters stay |
| `JobLedger.LedgerHolds` | engine/open_kritt_engine/db.py:407-453 | in every run of claims, ends and status changes, jobs started is the number of distinct jobs, never above the fixed limit |
| `JobLedger.LimitHolds` | engine/open_kritt_engine/db.py:419-444 | at the limit a claim succeeds exactly for a retry, and a refused new job stops the scan exactly when nothing is running |
| `Database.Database.ClaimLogicalJobSlot` | engine/open_kritt_engine/db.py:407-453 | updates the scan row as the ledger's slot transaction says |
| `Database.Database.ClaimStepMetadata` | engine/open_kritt_engine/db.py:1752-1850 | updates the rows as a step claim of the ledger says, findings unchanged |
| `Database.Database.ClaimPostProcessMetadata` | engine/open_kritt_engine/db.py:1191-1347 | updates the rows as a batch or script claim says; a batch is eligible exactly when all its distinct targets are still waiting |
| `Database.WaitingCount` | engine/open_kritt_engine/db.py:1266-1286 | the count of eligible targets equals the number of targets exactly when every target is waiting |
| `Database.Database.EndMetadata` | engine/open_kritt_engine/db.py:1451-1515 | ends a running row as the ledger says |
| `Database.Database.ApplyDedupeMapping` | engine/open_kritt_engine/db.py:1517-1550 | writes the mapping's columns into the mapped findings and no others |
| `Database.Database.ApplyRankUpdates` | engine/open_kritt_engine/db.py:1552-1597 | the row by row loop writes the specified ranks |
| `Database.Database.SetScanStatusIfCurrent` | engine/open_kritt_engine/db.py:682-710 | changes the status exactly when it is the expected one |
| `PostProcessSafety.ClaimIsExact` | engine/open_kritt_engine/db.py:1214-1286 | a batch claim that succeeds was chosen from the findings as they are now, while no worker is in a batch |
| `PostProcessSafety.EveryClaimIsExact` | engine/open_kritt_engine/post_processing.py:921-1044 | the same in every interleaving of any number of workers: snapshot, anchors and targets are the current ones |
| `PostProcessSafety.StepKeeps` | engine/open_kritt_engine/post_processing.py:500-528 | every transaction of every worker, every death and every clean-up keeps the invariant of post-processing |
| `PostProcessSafety.CompletionIsFinished` | engine/open_kritt_engine/post_processing.py:1151-1228 | the completion transaction of any reachable state sets the scan to completed and finds everything deduplicated, ranked, enriched or gated out, and nothing running |
| `PostProcessSafety.EveryCompletionIsFinished` | engine/open_kritt_engine/post_processing.py:1151-1228 | in every run a worker completes the scan by a permission from an earlier look, at findings all deduplicated and ranked, which it has held since; the scan is then finished |
| `PostProcessSafety.EveryRunIsSafe` | engine/open_kritt_engine/post_processing.py:500-528 | in every reachable state: dedupe partition, rank bijection, job ledger; and a completed scan is finished in that sense |
| `PostProcessProgress.DedupeShrinks` | engine/open_kritt_engine/post_processing.py:921-985 | a finished dedupe batch shrinks the unprocessed findings by exactly its targets |
| `PostProcessProgress.RanksShrink` | engine/open_kritt_engine/post_processing.py:1010-1100 | a finished ranker batch shrinks the unranked findings by exactly its targets |
| `PostProcessProgress.RunEvolves` | engine/open_kritt_engine/post_processing.py:500-528 | over any stretch of a run no canonical is demoted, replaced or merged, and ranked findings keep their relative order |
| `PostProcessProgress.BatchesEnd` | engine/open_kritt_engine/post_processing.py:500-528 | a run finishes at most as many batches of a kind as there are findings |
| `PostProcessEnds.EveryRunCanEnd` | engine/open_kritt_engine/post_processing.py:500-528 | never stuck: from every state of every run with a worker, and room under the job limit for what is left, the run can be continued to a completed scan, finished in the sense above |
| `PostProcessProgress.EndsItsRow` | engine/open_kritt_engine/db.py:1451-1515 | apart from claims, an event touches no row but the one it ends, and completes it exactly when a batch or script finished, abandons it otherwise |
| `PostProcessProgress.WritesItsPair` | engine/open_kritt_engine/post_processing.py:1299-1374 | only a finished or blocked script writes an enrichment, and only that of its own finding and script |
| `PostProcessProgress.BeatenGoesOn` | engine/open_kritt_engine/post_processing.py:500-528 | a worker that is beaten to a ranker batch goes on to the scripts, without leave to complete the scan |
| `EvidencePaths.NormalizedIsRelative` | engine/open_kritt_engine/impact_gate.py:81-91 | a normalized path is relative, without empty, dot or parent components and without backslashes |
| `EvidencePaths.NormalizeIs` | engine/open_kritt_engine/impact_gate.py:81-91 | by the stripped text and the parts between its slashes of either kind: refused exactly when blank, absolute, with a step up or naming nothing; else the parts that name something, joined in order |
| `EvidencePaths.CleanInOrder` | engine/open_kritt_engine/impact_gate.py:88-91 | of a path exactly its empty parts and single dots are left out, and the others keep their places |
| `EvidencePaths.NormalizeTwiceIff` | engine/open_kritt_engine/impact_gate.py:81-91 | normalizing twice is normalizing once exactly when the first component of the given path does not begin with a blank and the last does not end with one |
| `EvidencePaths.NormalizeTwiceIffText` | engine/open_kritt_engine/impact_gate.py:81-91 | the same on the text: no blank at an end of the stripped path without its outer separators and single dots |
| `EvidencePaths.NormalizeTwiceDiffers` | engine/open_kritt_engine/impact_gate.py:81-91 | `a /.` normalizes to `a ` with a blank, and that to `a` |
| `ReadinessPolicies.FamilyDimensions` | engine/open_kritt_engine/readiness_policies.py:101-163 | a known family has its table and then, once, the terminal outcome; exactly other versions and families are refused, each with its own error |
| `ReadinessPolicies.LabelIs` | engine/open_kritt_engine/readiness_policies.py:61-99 | novelty is required, and the label is that of a submission, exactly for the two kinds that submit to others; scope for those and private audits |
| `ImpactEvidence.FirstDeclarations` | engine/open_kritt_engine/impact_gate.py:94-114 | the loop keeps each declared path once, at its first declaration |
| `ImpactEvidence.FirstOfEachKeyIs` | engine/open_kritt_engine/impact_gate.py:94-114 | the kept texts are exactly those that state their key first, every key has one, and they are as many as the keys |
| `ImpactEvidence.KeptInOrder` | engine/open_kritt_engine/impact_gate.py:94-114 | the kept texts stand in the order in which their keys are first stated |
| `ImpactEvidence.SplitDeclared` | engine/open_kritt_engine/impact_gate.py:187-229 | the loop splits the declarations into captured and unresolved, in order |
| `ImpactEvidence.DeclaredAreSplit` | engine/open_kritt_engine/impact_gate.py:187-229 | every declared path is either captured, in canonical form, or unresolved, exactly by the manifest, and the two lists are together as long as the declarations |
| `ImpactEvidence.CapturedOnce` | engine/open_kritt_engine/impact_gate.py:94-114 | however often and in whatever spelling a path is declared, its canonical form is captured once |
| `ImpactEvidence.EvidenceBlock` | engine/open_kritt_engine/impact_gate.py:187-229 | the evidence block of a D4 result and a capture is the specified one, whose fields `BlockStates`, `BlockTexts` and `BlockCaptures` describe from the D4 result |
| `ImpactEvidence.BlockStates` | engine/open_kritt_engine/impact_gate.py:187-206 | a block states each bug status exactly when `bug_status` is it, or is none of the four and `poc_status` maps to it; the impact status is the claimed one, except that an incomplete capture of a reproduced bug turns the three eligible ones into blocked |
| `ImpactEvidence.BlockTexts` | engine/open_kritt_engine/impact_gate.py:202-222 | directory and blocker are the given texts without outer blanks; a missing or blank blocker is none |
| `ImpactEvidence.BlockCaptures` | engine/open_kritt_engine/impact_gate.py:207-215 | a path is captured exactly when it is the canonical form both of a path the D4 result declares, anywhere, and of a name in the manifest |
| `ImpactEvidence.CapturedInOrder` | engine/open_kritt_engine/impact_gate.py:207-215 | the captured paths are the captured declarations in canonical form, each once, in their order |
| `ImpactEvidence.BlockLeaves` | engine/open_kritt_engine/impact_gate.py:207-215 | what is left unresolved are declared texts without outer blanks that no name in the manifest stands for, and every such text is there in some spelling with the same key |
| `ImpactEvidence.BlockIsEligible` | engine/open_kritt_engine/impact_gate.py:232-239 | an engine block is eligible for D5 exactly when the bug is reproduced, the capture complete, the directory not blank and the claim one of the three |
| `ImpactEvidence.D5SqlMirrors` | engine/open_kritt_engine/v27_pipeline.py:83-91 | the SQL gate selects all the predicate accepts, and they agree on a row exactly when it is not selected or stores a Boolean flag and a directory that is text and not blank |
| `ImpactEvidence.D5SqlDiffers` | engine/open_kritt_engine/v27_pipeline.py:83-91 | three rows the SQL gate selects and the predicate refuses: flag as text, blank directory, directory that is a list |
| `ImpactEvidence.SqlAgreesOnBlocks` | engine/open_kritt_engine/v27_pipeline.py:83-91 | on every block the engine writes the SQL gate and the predicate agree |
| `Lifecycles.LifecycleIs` | engine/open_kritt_engine/impact_gate.py:147-180 | when a finding stands at each of the sixteen places, each described on its own: by readiness, else by the statuses and the blocker of its evidence, else by the D3 verdict |
| `Lifecycles.BlockLifecycle` | engine/open_kritt_engine/impact_gate.py:187-229 | the lifecycle written into an engine block, from the fields of the D4 result alone |
| `ReadinessFields.SettingsAre` | engine/open_kritt_engine/impact_gate.py:117-134 | kind and version without outer blanks when both are given, else internal research under the legacy policy; not legacy exactly when both are given and the source is the user |
| `ReadinessFields.MissingRequirementsAre` | engine/open_kritt_engine/impact_gate.py:137-144 | nothing is missing exactly for null, a blank text and the empty list; malformed exactly for other values and lists with an item that is no text |
| `ReadinessFields.CitedPathsAre` | engine/open_kritt_engine/impact_gate.py:428-434 | the cited paths are exactly those of the chain and of the mapping |
| `ReadinessFields.RowsInOrder` | engine/open_kritt_engine/impact_gate.py:73-74 | of a list exactly the objects are read, in their order |
| `ImpactGate.ChainReasons` | engine/open_kritt_engine/impact_gate.py:246-277 | the reasons are exactly the faults of the chain; none exactly when every planned hop is in the chain, hop ids are unique, and every hop is proven with evidence or assessed |
| `ImpactGate.ProvenanceReasons` | engine/open_kritt_engine/impact_gate.py:280-294 | the reasons are, once each, exactly the cited paths that are not relative or not captured; none exactly when every cited path normalizes into the captured set, as when none is cited |
| `ImpactGate.DimensionReasons` | engine/open_kritt_engine/impact_gate.py:297-331 | an unsupported version is the error the source raises; otherwise the reasons are exactly the faults of the rows and the tags without a row, none exactly when every dimension row is allowed, covered by a proven hop or excused with a rationale, and none of the family is missing |
| `ImpactGate.MergeAssumptions` | engine/open_kritt_engine/impact_gate.py:334-338 | the dictionary loop keeps the last row of each assumption key |
| `ImpactGate.OpenAssumptions` | engine/open_kritt_engine/impact_gate.py:334-338 | the assumptions named are exactly those that are, at their last mention, material and open |
| `ReadinessFields.OpenAtIs` | engine/open_kritt_engine/impact_gate.py:334-338 | an assumption is open exactly when the last row that goes by its trimmed id, or by its position where it has none, is material and open |
| `ImpactGate.EvaluateChecks` | engine/open_kritt_engine/impact_gate.py:341-470 | each of the nine lists holds exactly the reasons of its rule that are true of the finding; all are empty exactly when every rule holds |
| `ImpactGate.EachInOrder` | engine/open_kritt_engine/impact_gate.py:258-276 | the reasons of several rows come in the order of the rows |
| `ImpactGate.UniqueIs` | engine/open_kritt_engine/impact_gate.py:480-485 | keeping first occurrences loses no reason, repeats none, and of a longer list only adds at the end, which fixes the order |
| `ImpactGate.BlockingReasons` | engine/open_kritt_engine/impact_gate.py:480-485 | the blocking reasons are those of the nine checks in order, each at its first occurrence, and none exactly when all pass |
| `ImpactGate.EvaluateReadiness` | engine/open_kritt_engine/impact_gate.py:341-498 | the blocking reasons are exactly the reasons that are true of the finding, in the order of the checks, without repetition; ready exactly when there is none, which is when every rule holds; lifecycle, label, kind and version are of that verdict and of the settings |
| `ImpactGate.ReadyIsEligible` | engine/open_kritt_engine/impact_gate.py:232-240 | a ready finding passes the D5 eligibility predicate exactly when its evidence states both statuses itself |
| `ImpactGate.SelectedReadyIsEligible` | engine/open_kritt_engine/post_processing.py:1123-1132 | a row the candidate query selects is eligible when it is ready |
| `ImpactGate.ReadyWithoutStatuses` | engine/open_kritt_engine/impact_gate.py:394-395 | when D4 states both statuses, a ready finding stays ready without them in its evidence, and is then not eligible |
| `ReadinessWitness.ReadyAndRefused` | engine/open_kritt_engine/impact_gate.py:232-240 | a concrete finding that is ready and not eligible |
| `ImpactGate.ReadinessSound` | engine/open_kritt_engine/impact_gate.py:341-498 | with a block the engine wrote, ready implies eligibility, no dropped hop, every family dimension covered or excused, a proven terminal outcome with evidence, and every cited path captured |
| `ImpactGate.CitedPathsAreInManifest` | engine/open_kritt_engine/impact_gate.py:280-294 | when the manifest lists canonical names, every path a ready finding cites is one of them |
| `PipelineStages.PipelineIds` | engine/open_kritt_engine/v27_pipeline.py:24-35 | a pipeline is returned exactly for three positive, pairwise different ids, and then with them |
| `PipelineStages.QueryAdmits` | engine/open_kritt_engine/v27_pipeline.py:50-91 | the query admits D4 exactly after a D3 row, no stub, with a passing verdict, D5 exactly after a D4 row, no stub, whose evidence demonstrates the bug, and every other script always |
| `PipelineStages.GatesAgree` | engine/open_kritt_engine/v27_pipeline.py:50-91 | the candidate query's gate admits a stage exactly when the stated gate does on the results that are not stubs, when all evidence is the engine's |
| `RateLimits.DelayInRange` | engine/open_kritt_engine/db.py:20-34 | every delay lies between the base and the maximum |
| `RateLimits.DelayMonotone` | engine/open_kritt_engine/db.py:20-34 | more retries, a longer hint or a larger maximum never shorten the delay |
| `RateLimits.CutOffIff` | engine/open_kritt_engine/db.py:20-34 | the delay is the clipped doubling formula exactly when fewer than eight doublings are due, or the maximum is reached by them or by the hint |
| `RateLimits.DelayIsDoubling` | engine/open_kritt_engine/db.py:16-34 | at the two maxima the engine uses the delay is the clipped doubling formula |
| `RateLimits.DelayDoubles` | engine/open_kritt_engine/db.py:16-34 | a minute at first, doubled by every further retry up to the maximum; a hint only lengthens, up to the maximum |
| `RateLimits.ScanRow.Defer` | engine/open_kritt_engine/db.py:592-680 | defers exactly the deferrable scans, to be resumed where they were, with the counted retry, the delay of that count, and the lowered cap; all else stays |
| `RateLimits.DeferredIs` | engine/open_kritt_engine/db.py:616-657 | every deferral counts one retry; one that lowers a cap above one takes one worker away and counts one event, the first such cap kept as the initial one; nothing else changes |
| `RateLimits.DelayOfIs` | engine/open_kritt_engine/db.py:643-664 | the delay is that of the counted retry, with the longer maximum for account quotas and subagent limits |
| `RateLimits.DeferralsAddUp` | engine/open_kritt_engine/db.py:616-664 | along any run of deferrals the cap stays at least one and never rises, initial less current cap is the event count, each deferral is counted once |
| `RateLimits.DelaysNeverShrink` | engine/open_kritt_engine/db.py:616-664 | along any run a later deferral of no shorter hint and no smaller maximum waits no shorter |
| `SqlSplitter.SplitStatements` | backend/prisma/migrate.js:38-144 | the statements are the texts the scan pushes that have a non-blank character, each once, in order, without their outer blanks |
| `SqlSplitter.TrimIs` | backend/prisma/migrate.js:130-142 | a trimmed text is the text without blanks at its ends: a blank prefix and suffix are gone, and what is left is nothing or has no blank at an end |
| `SqlSplitter.ReadMove` | backend/prisma/migrate.js:48-133 | the branches of the loop body make the move of the scanner |
| `SqlPrinting.SplitInvertsPrint` | backend/prisma/migrate.js:38-144 | for every list of tokens that do not fuse, splitting what is printed gives the comment-free texts between the semicolons that have a non-blank character, each once, in order, without their outer blanks |
| `SqlPrinting.EveryFileIsPrinted` | backend/prisma/migrate.js:38-144 | every file is printed from such tokens, so its statements are described in these terms |
| `SqlPrinting.TokenScans` | backend/prisma/migrate.js:48-133 | each token is scanned as a whole: quoted text is kept, comments leave at most their line end, a semicolon ends the statement |
| `SqlSemicolons.SemicolonsAreQuoted` | backend/prisma/migrate.js:38-144 | on every input the statements are characters of the file in order, and each semicolon in one was passed inside a quoted region |
| `JsonRepair.RepairTruncatedJson` | engine/open_kritt_engine/harnesses.py:2270-2315 | the scan with its stack computes the specified repair |
| `JsonPatches.RepairIff` | engine/open_kritt_engine/harnesses.py:2270-2315 | a text is repaired into another exactly when that is a different, balanced text made of it by closers at the end, and by closers of the other kind before closers that nothing but closers and blanks follow |
| `JsonBrackets.BalancedIff` | engine/open_kritt_engine/harnesses.py:2270-2315 | balanced texts are exactly those written of strings with escapes, other characters, and braces and brackets around balanced texts |
| `JsonRepair.PopUntil` | engine/open_kritt_engine/harnesses.py:2305-2311 | the inner loop pops to the wanted opener and collects the closers of what it pops, innermost first |
| `JsonRepair.RepairedIsBalanced` | engine/open_kritt_engine/harnesses.py:2270-2315 | on every input a returned text is balanced outside strings, differs from the input, and is the input with only closing brackets put in |
| `JsonRepair.StrictRepair` | engine/open_kritt_engine/harnesses.py:2270-2315 | a text without a wrong closer is repaired exactly when it ends outside strings with containers open, by their closers at its end |
| `JsonRepair.RepairUndoesTruncation` | engine/open_kritt_engine/harnesses.py:2270-2315 | deleting closers from the end of a balanced text is undone exactly |
| `RuntimeConfig.UnquoteInvertsQuote` | engine/open_kritt_engine/runtime_config.py:252-265 | every value is given back by the two ordered replacements |
| `RuntimeConfig.QuoteIs` | engine/open_kritt_engine/runtime_config.py:252-256 | a value is written bare exactly when it is not empty and has no blank, quote or hash; else in double quotes, a backslash before each quote and backslash |
| `RuntimeConfig.LinesOfJoined` | engine/open_kritt_engine/runtime_config.py:155-160 | splitting what was joined and ended gives the lines back |
| `RuntimeConfig.ParseEnvText` | engine/open_kritt_engine/runtime_config.py:234-249 | the loop computes the values of the lines, a later assignment winning |
| `EnvFiles.FileGives` | engine/open_kritt_engine/runtime_config.py:234-249 | a file gives a key the value of the last of its lines that assigns the key |
| `EnvFiles.LinesIs` | engine/open_kritt_engine/runtime_config.py:234-236 | the lines of a text are the one way to split it at its line boundaries, a carriage return and a line feed being one |
| `EnvFiles.LineAssigns` | engine/open_kritt_engine/runtime_config.py:236-249 | a line assigns a key and a value exactly when, blanks and `export` aside, it is no comment and reads key, first equals sign, value as written; said without the scan |
| `EnvFiles.UnquoteIs` | engine/open_kritt_engine/runtime_config.py:259-265 | a value in single quotes stands for its inside, one in double quotes for its inside with escaped quotes and then doubled backslashes freed from the left, any other for itself |
| `RuntimeConfig.SyncRuntimeConfig` | engine/open_kritt_engine/runtime_config.py:132-161 | the rewriting loop and the appended lines give the specified text |
| `RuntimeSync.WrittenIsRead` | engine/open_kritt_engine/runtime_config.py:151-152 | a line the engine writes is read back as its key and value, by the parser and by the next sync |
| `RuntimeSync.SameKey` | engine/open_kritt_engine/runtime_config.py:143-149 | parser and sync see the same clean key in every line, though they look for comments at different points |
| `RuntimeSync.SyncRefinesUpdateIff` | engine/open_kritt_engine/runtime_config.py:115-161 | parsing the synced file gives the old values overridden by the updates, except account homes the file has, exactly when no value that is taken has a line break |
| `RuntimeSync.ReadValuesAreOneLine` | engine/open_kritt_engine/runtime_config.py:234-265 | whatever a file holds, no value read from it has a line break |
| `RuntimeSync.SyncTwice` | engine/open_kritt_engine/runtime_config.py:115-161 | a second sync gives the identical text, when no value that is taken has a line break |
| `EnvFiles.SyncKeepsLines` | engine/open_kritt_engine/runtime_config.py:139-161 | a sync writes each line that assigns a key it takes anew and leaves every other line as it is and where it is |
| `EnvFiles.SyncAppends` | engine/open_kritt_engine/runtime_config.py:153-160 | after its own lines, and a blank one if they end otherwise, a file gets a line for each update no line assigns, in the order of the updates |

## Left out

- Effects the model takes as inputs or leaves out: Docker, Git, subprocesses, HTTP, the file system, credentials, clocks, the SQL language and isolation below the transaction; the model's answers are arbitrary payloads filtered only by the validators.
- WorkflowQueue.BuildPendingJobs: the last components of the sort key (configured lineage order and the hash-based shuffle) are a parameter, an arbitrary function of the job; the depth-first components are modelled.
- WorkflowScope.ValidateWorkflowArtifact: drafts are typed records, so the checks that a field is a string, an integer or an object are not modelled; a prompt arrives with its references already extracted, because the regular expressions are not modelled; faults are named, with depth, step and key, without their message texts, and malformed references are not listed.
- WorkflowScope.ScopeSound: assumes the lowering of `backend/src/lib/defaultWorkflows.js` lines 31 to 49, that siblings share format and consume-all, and that rows carry the declared keys, which `ValidatedRowsAreDeclared` derives from the payload validator for saved formats.
- QueueOffers.PendingListSound: assumes distinct step ids and distinct row ids, as database keys are.
- OutputSchema.CompilerCorrect: numbers are reals.
- OutputSchema.ValidateDefinition: a fault of a descriptor's keys is at the descriptor's path, without the key that ends the source's path, and once however many keys have it.
- OutputFormats.NormalizeOutputFormat: the parsing of a format's JSON text and its form as a list of keys and types are not modelled; the key by key normalization on saving is the engine's own, not `backend/src/lib/fieldDefinitions.js`, which differs on descriptors without a type.
- OutputSchema.PayloadAcceptedIff: faults are named without the validator's message texts.
- PostProcessRuns: the findings of the scan are fixed during post-processing, which `QueueRuns.HandOverIsSafe` justifies; supplemental post-script runs, the retries inside one harness call and the setting of a completed scan back to work are not modelled. A worker may give up at any point before its claim, which covers the early returns on a running batch or a changed status.
- PostProcessSafety.EveryRunIsSafe: the candidate query and the running counts of completion are one atomic step; under the database's weaker isolation between statements nothing is claimed. A worker writes only the row it claimed, and clean-up touches only rows no worker owns.
- RankPayloads.RankUpdates: positions are reals, not floating point numbers; the texts copied into the response columns are not modelled.
- Database.Database: the columns that no decision reads (prompts, token counts, models, time stamps) are not fields.
- RateLimits.ScanRow.Defer: the retry time is the delay from now; the message texts, flags and time stamps stored beside it are not modelled.
- ImpactGate.EvaluateReadiness: reasons are constructors of a datatype instead of sentences; the check that two reasons are the same sentence becomes equality of constructors and arguments (the id, tag, status or path the sentence names).
- ImpactGate.EvaluateChecks: a verdict or a repeatability status that is a list or an object fails its rule, and in `Lifecycles.LifecycleIs` such a bug status is an unknown one; the source asks a set or a dictionary for it, which raises a type error.
- PostProcessEnds.EveryRunCanEnd: says that completion stays possible, not that a scheduler that is unfair or a model that never answers well gets there; with a limit below what is left the scan is stopped, as `JobLedger.ClaimStopsIff` says.
- Lifecycles.LifecycleStatus: the sixteen places are constructors instead of their names.
- ImpactGate: blocks synthesized at read time for historical rows are not modelled.
- PipelineStages.PipelineIds: the conversion of configured texts to numbers is not modelled.
- SqlSplitter.SplitStatements: characters are Unicode characters, not UTF-16 units; no branch of the scanner depends on the difference.
- SqlPrinting.EveryFileIsPrinted: a block comment ends at its first end mark, as the scanner reads it; PostgreSQL would nest comments.
- JsonRepair.RepairTruncatedJson: JSON decoding and the extraction of the candidate text before the repair are not modelled.
- RuntimeSync.SyncRefinesUpdateIff: each updated name occurs once and is a clean key (no blank, no equals sign, no comment sign in front), as all names of the engine's table are.
- RuntimeConfig.SyncRuntimeConfig: works on the text of the file; reading it, replacing it and creating the first version are file operations and are not modelled.
- Easy members are left out: pagination, memory capacity, catalog trimming, account preferences, the command-line gate.
