# Harbor scanner adapter for Clair: a verified model

The adapter accepts scan requests from Harbor, stores one expiring record per scan job in Redis,
runs one goroutine per job against a registry and Clair, and answers pollers from the stored
record. Beside it the repository keeps a report generator for govulncheck streams and a Helm
chart with two checking scripts. This project models the four parts where behaviour spans
several functions and proves what they promise.

**Scan jobs as a concurrent system.** `Redis` gives the meaning of `GET`, `SET NX EX` and
`SET XX EX` on one key, each atomic, in milliseconds. A command is delivered, refused (an error,
nothing applied) or unheard (an error, although it was applied). `Worker` is the code of one
worker statement by statement, over a class `Outside` that lets time pass and every other key
change before each call; a ghost monitor in that class walks the automaton of `Protocol` in step,
so the code makes exactly the automaton's calls. `Pool` is the hand-off to the dispatcher.
`Lifecycle` interleaves any number of requests, workers, pollers, ticks, failed commands, a
shutdown and the death of the process, one call at a time, with `GET` and `SET` of an update as
separate steps. `LifecycleInvariant` holds the inductive invariant, `LifecycleTheorems` and
`LifecycleProgress` the theorems over whole runs, `LifecycleOutcomes` what a worker comes to, `LifecycleWitnesses` runs that reach their bounds. A nil dereference or an index out of range in a
worker ends the whole process, so it loses every other job in flight too; both are explicit
outcomes. The next process starts with the same Redis and an empty pool.

**Layer chain and report.** `Transformer` has the loops of the transformer against specification
functions, with SHA-256 as an arbitrary function from text to bytes; a result about equal names
reads "equal prefixes, or these two texts collide". `Harbor` has the severity tables and the
stored form of a job.

**The govulncheck report.** `Govulncheck` states the group-by the one-pass merge has to amount to;
`VulnSummary` is `analyze` over a map of mutable cells, walked in an unknown order and sorted by
any correct sort; `Shorten` is the white-space normal form.

**The chart's environment.** `Values` is a tree of values in some order of its keys, `KeyOrder` that tree
sorted or reordered, `Passthrough` the flattening (a template ranges over a map by sorted key), the
guards and the precedence rules of the chart, `Doctor` the second implementation in Python with its
budget arithmetic, `Drift` the comparison of a values tree with a schema.

Points where the code and its own comments differ, or where an expected property needs a
condition; the model follows the code:

- `UpdateStatus` and `UpdateReport` dereference the job they read without a nil check, so a scan
  slower than the expiry takes the process down (`LateUpdateKillsTheProcess`, `SlowScanIsTooLate`,
  `LateStartCrashes`).
- A manifest without a layer and a Clair reply without one end the process as well
  (`CrashesExactlyWhen`).
- A `SET NX` or `SET XX` that does not apply is not an error in this code.
- When the `SET` of Finished reports an error but was applied, and only then, a poller can be told 200
  and later 500, a fifth write can land and a record can last a fifth expiry period (`PollsAreOrderly`,
  `WritesAreBounded`, `RecordsExpire`; `FiveWritesHappen` is a run in which all three happen).
- `Shutdown` says it waits for the goroutines; it only closes a channel (`ShutdownDoesNotWait`). The
  dispatcher may still receive a waiting worker after it (`ReceiveAfterShutdown`), and a submitter that
  is waiting when the dispatcher leaves blocks until the process dies (`LeftBehind`).
- Digests with a dash make different chains share a name (`DashedDigestsShareAName`); IDs with a NUL
  make different findings share a key (`NulConfusesKeys`).
- The doctor flattens in the order of the file, the chart in the order of the keys: the two agree for
  every order exactly when leaves of one name share their text (`OrderShowsExactly`), as on every tree the
  collision guard accepts.
- The doctor says it mirrors the chart's precedence; it takes the first literal `extraEnv` entry of a
  name where the container gets the last entry (`JudgesTheDeployment` says exactly when the two agree).

## Model

| member | source | states |
|---|---|---|
| Redis.JobKeyInjective | pkg/persistence/redis/store.go:135-137 | two jobs never share a Redis key |
| Redis.ExpiryIsInSeconds | pkg/persistence/redis/store.go:46-72 | the expiry is the whole seconds of the configured time, and a time below one second is none |
| Redis.SetThenGet | pkg/persistence/redis/store.go:46-100 | a SET NX applies exactly at an absent key, a SET XX at a present one, and what it sets is read until its expiry has passed and no longer |
| Redis.FailedCommands | pkg/persistence/redis/store.go:46-75 | a failed command answers its error and leaves what was there, or what it would have left had it been delivered |
| Worker.Create | pkg/persistence/redis/store.go:28-52 | errs exactly when the command was not delivered or the expiry is not positive; a present key is left alone without an error, and success on an absent one means the record is there with a fresh expiry |
| Worker.Get | pkg/persistence/redis/store.go:80-100 | returns the live record at the key, nil only when the key is absent, and changes nothing |
| Worker.Save | pkg/persistence/redis/store.go:54-78 | writes at the key of the ID inside the record: either nothing changes at the job's key or its live entry is replaced by the record with a fresh expiry, and success on a live entry of the same ID means it was |
| Worker.UpdateStatus | pkg/persistence/redis/store.go:102-119 | leaves the old record or that record with just the status (and error) changed; panics only on an absent record; calls in the automaton's order |
| Worker.UpdateReport | pkg/persistence/redis/store.go:121-133 | the same for the report field |
| Worker.PrepareLayers | pkg/scanner/adapter.go:55-61 | asks the registry once and returns the chain of the manifest, or its error |
| Worker.PostLayers | pkg/scanner/adapter.go:39-50 | posts every layer in order, or every layer up to the first that is refused, with that error |
| Worker.GetReport | pkg/scanner/adapter.go:63-70 | asks Clair once and returns the report of its layer, its error, or a panic on a missing layer |
| Worker.Scan | pkg/scanner/adapter.go:33-53 | the calls made and their answers: the manifest, every layer in order up to the first refused, and after all of them the last layer; the outcome is the report when all succeed, and otherwise the first error; the record is never touched |
| Worker.ScanJobOnce | pkg/scanner/worker.go:30-48 | Running, scan, report, Finished, each only after the one before succeeded; any error leaves the worker at the failure update with that error |
| Worker.Task | pkg/scanner/worker.go:17-28 | makes exactly the calls of the automaton, from its start to its end or to a panic |
| Worker.Outside.Send | pkg/persistence/redis/store.go:46-72 | one atomic command on any key after others may have moved; the job's own entry changes only by a command on its key |
| Protocol.CrashesExactlyWhen | pkg/persistence/redis/store.go:108-132 | a worker panics exactly on an absent record, on a manifest of configurations only, or on a Clair reply without layer |
| Protocol.NoDigestsIff | pkg/scanner/transformer.go:46-49 | the chain is empty exactly when all references are image configurations |
| Pool.StepConserves | pkg/work/work.go:26-53 | every step keeps the submitted workers equal, as a multiset, to those waiting, held, running and done |
| LifecycleInvariant.CallStaysFaithful | pkg/persistence/redis/store.go:102-133 | while the record lives, a worker's read-modify-write moves record and worker together, whatever lands in between |
| LifecycleInvariant.StepKeepsInv | pkg/scanner/worker.go:17-48 | every step of the whole system keeps the invariant of records, workers, callers, pool and Clair |
| LifecycleInvariant.RunKeepsInv | pkg/scanner/enqueuer.go:33-50 | the invariant holds in every state of every run |
| LifecycleTheorems.FinishedHoldsItsOwnReport | pkg/scanner/worker.go:30-48 | in every state of every run, a readable Finished record is exactly the report of Clair's answer for that job's own request, its chain accepted |
| LifecycleTheorems.OnlyOwnKeyChanges | pkg/persistence/redis/store.go:54-78 | no step changes a key other than the one of the job that creates or updates |
| LifecycleTheorems.UpdatesGoToOwnKey | pkg/persistence/redis/store.go:63-72 | in every run the key taken from the ID inside a record, like the key read from, is the job's own |
| LifecycleTheorems.RecordsOnlyAdvance | pkg/persistence/redis/store.go:102-133 | along a run a record's status never goes back, its report stays, a terminal record stays, an expired record never returns; Finished turns Failed only when the SET of Finished was applied although it reported an error |
| LifecycleTheorems.PollsAreOrderly | pkg/http/api/v1/handler.go:141-184 | the polled answers of an accepted job are 302s, then only 200s with one body or only 500s with one message, then 404s; both only after such a SET of Finished |
| LifecycleTheorems.PollTellsTheRecord | pkg/http/api/v1/handler.go:141-184 | in every reachable state a poll is told 404 exactly without a live record, 302 exactly while it is pending or running, the report exactly when finished and the job's error exactly when failed |
| LifecycleTheorems.ForwardFollows | pkg/http/api/v1/handler.go:150-184 | a record that only moved forward gives answers that only move forward |
| LifecycleTheorems.WritesAreBounded | pkg/scanner/worker.go:17-48 | at most four writes land on a job's key in any run, five only after such a SET of Finished |
| LifecycleTheorems.RecordsExpire | pkg/persistence/redis/store.go:46-72 | a live record is never older than four expiry periods since its creation, five only after such a SET of Finished |
| LifecycleWitnesses.UnheardFinishShowsTheReport | pkg/persistence/redis/store.go:72-75 | in any reachable state with a live record, a SET of Finished that is applied and reports an error makes a poll answer the report and sends the worker to its failure update |
| LifecycleWitnesses.FailureIsShown | pkg/scanner/worker.go:21-23 | a failure update that gets through on a live record makes a poll answer its message |
| LifecycleWitnesses.FourWritesHappen | pkg/scanner/worker.go:30-48 | a run in which four writes land and the record is live four expiry periods after its creation |
| LifecycleWitnesses.FiveWritesHappen | pkg/scanner/worker.go:17-48 | a run in which a poller is told the report and later the error, five writes land and the record is live five expiry periods after its creation |
| LifecycleWitnesses.LateStartCrashes | pkg/persistence/redis/store.go:108-115 | a run in which a worker started more than one expiry period after its job was created takes the process down |
| LifecycleTheorems.ParentsBeforeChildren | pkg/scanner/adapter.go:39-52 | with all scans interleaved, a layer is posted only when Clair has its parent, Clair stays closed under parents, and the report is asked for the last layer of an accepted chain |
| LifecycleTheorems.PoolConserves | pkg/work/work.go:26-53 | in every reachable state submitted workers are waiting, held, running or done, each once |
| LifecycleTheorems.TasksStartOnce | pkg/work/work.go:31-36 | no worker's goroutine is started twice |
| LifecycleTheorems.AnsweredAfterCreateAndReceive | pkg/scanner/enqueuer.go:33-50 | when an ID has been returned, its record had been created readable and after that its worker received, shutdown or not |
| LifecycleTheorems.ShutdownDoesNotWait | pkg/work/work.go:49-53 | a shutdown is possible whoever runs or waits, and changes nothing but the closed channel |
| LifecycleTheorems.ReceiveAfterShutdown | pkg/work/work.go:30-40 | after it a worker can be received exactly when it waits, the dispatcher holds none and has not left |
| LifecycleTheorems.LeftBehind | pkg/work/work.go:37-47 | a submitter waiting when the dispatcher leaves stays blocked in every run until the process dies, and exactly then is gone without an answer |
| LifecycleTheorems.NobodyReceived | pkg/work/work.go:37-40 | between the dispatcher's leaving and the next death of the process no worker is received |
| LifecycleProgress.CallsAreBounded | pkg/scanner/worker.go:17-48 | a worker makes at most ten calls beside one per layer in any run |
| LifecycleProgress.CallsRunOut | pkg/scanner/worker.go:17-48 | a worker that has made that many is done and makes no other, so every worker that keeps being scheduled ends |
| LifecycleProgress.NeverStuck | pkg/scanner/worker.go:17-48 | a worker that is not done can always make its next call |
| LifecycleProgress.WorkersSettle | pkg/scanner/worker.go:17-48 | in runs without failed commands, empty manifests, missing layers or store accesses later than one expiry after the last write, no worker panics and every ended one has settled |
| LifecycleProgress.EndedMeansSettled | pkg/scanner/worker.go:17-48 | then the readable record of an ended worker is Finished with its own report or Failed with its own failure |
| LifecycleOutcomes.FailuresHaveCauses | pkg/scanner/worker.go:20-26 | in every run a worker fails only after a call of its own was answered with an error, and with the message made of that error |
| LifecycleOutcomes.FailedTellsItsCause | pkg/http/api/v1/handler.go:166-171 | a readable Failed record tells of an error its own worker was answered with |
| LifecycleOutcomes.UnhinderedWorkersFinish | pkg/scanner/worker.go:30-48 | a worker that meets no error and is never late ends with its record Finished, its own report in it and its whole chain accepted, after exactly eight calls beside one per layer, for chains of any length |
| LifecycleOutcomes.DeliveredIsNoError | pkg/persistence/redis/store.go:80-100 | in a reachable state a delivered command of a worker is answered neither with an error nor with bytes that are no job |
| LifecycleProgress.LateUpdateKillsTheProcess | pkg/persistence/redis/store.go:108-115 | an update that finds its record expired crashes the process and loses every job waiting or running |
| LifecycleProgress.SlowScanIsTooLate | pkg/scanner/worker.go:35-43 | once one expiry period has passed since the last write, every reply of registry or Clair to a scanning worker panics, lets the scan go on just as late, or brings it to an update of an expired record |
| Handler.GetScanReport | pkg/http/api/v1/handler.go:127-185 | writes exactly the status, location and body that the stored record, read once, calls for, and leaves the record alone; without an ID it reads nothing |
| Harbor.SeverityRoundTrip | pkg/harbor/model.go:28-46 | the two name tables undo each other exactly on 0 to 7 |
| Harbor.SeverityNamesAre | pkg/harbor/model.go:10-46 | the seven names in the order of their severities; no other severity has one |
| Harbor.JobRoundTrip | pkg/harbor/model.go:49-65 | storing a job and reading it back is lossless exactly when every severity in it is one of 0 to 7, the seven named ones or the zero value |
| Transformer.ToClairLayers | pkg/scanner/transformer.go:40-66 | the growing-chain loop yields one layer per non-config digest, each hashing all digests up to it, with the layer before as parent |
| Transformer.LayerAt | pkg/scanner/transformer.go:45-64 | layer i is determined by the first i + 1 digests alone |
| Transformer.ConfigChangesNothing | pkg/scanner/transformer.go:46-49 | a config descriptor anywhere in the list changes nothing |
| Transformer.DigestsAreExact | pkg/scanner/transformer.go:46-50 | the digests of a list are those of its parts; one reference gives its digest unless it is an image configuration |
| Transformer.LayersFetchTheirDigests | pkg/scanner/transformer.go:50-70 | layer i is named by the hash of the first i + 1 digests joined and ended by dashes, and is fetched at its own digest's blob with the request's token |
| Transformer.LayersAreChained | pkg/scanner/transformer.go:60-62 | each layer's parent is the layer before it, the first has none |
| Transformer.SharedBaseSharesNames | pkg/scanner/transformer.go:43-52 | an image built on another reuses the names and parents of all its layers |
| Transformer.NamesIdentifyParts | pkg/scanner/transformer.go:45-52 | for any digests, two names are equal exactly when the digest prefixes cut at dashes agree or the hash collides |
| Transformer.NamesIdentifyPrefixes | pkg/scanner/transformer.go:45-52 | for dash-free digests, name i equals name j exactly when i = j and the prefixes agree, or the hash collides |
| Transformer.DashedDigestsShareAName | pkg/scanner/transformer.go:50-52 | a digest with a dash takes the name of two layers under any hash |
| Transformer.HexInjective | pkg/scanner/transformer.go:52 | the hexadecimal form loses nothing of the hash |
| Transformer.ToComponentsOverview | pkg/scanner/transformer.go:83-103 | the two-stage maximum through a map, in any map order, is the worst severity of the item list |
| Transformer.FeatureSeverity | pkg/scanner/transformer.go:87-93 | the inner loop is the worst severity of one feature's items |
| Transformer.LargestKey | pkg/scanner/transformer.go:96-101 | the largest key of a map whose keys reach but do not exceed the worst severity, in any order |
| Transformer.ToVulnerabilityItems | pkg/scanner/transformer.go:106-134 | the nested loops list every vulnerability of every feature in order |
| Transformer.ToHarborScanReport | pkg/scanner/transformer.go:72-80 | the report is the one the specification gives for this artifact, layer and clock reading |
| Transformer.WorstIsMaximum | pkg/scanner/transformer.go:96-102 | the worst severity bounds every item and is None or attained by one |
| Transformer.OverallAgreesWithItems | pkg/scanner/transformer.go:72-134 | a report's overall severity is the maximum of its items, None exactly when there are none, and every severity in it has a name |
| Transformer.ReportListsEveryVulnerability | pkg/scanner/transformer.go:72-141 | the report lists, in order, one item for each vulnerability of each feature, with that feature's package and version and that vulnerability's name, fix, description, link and rating |
| Transformer.OverallIsTheWorstVulnerability | pkg/scanner/transformer.go:83-103 | no vulnerability of the layer is rated worse than the report, and one is rated just so, or there is none and the report says None |
| Transformer.SeverityIsRated | pkg/scanner/transformer.go:145-163 | a Clair name stands for one of the five ratings in any case, and for unknown otherwise |
| Transformer.OverallIgnoresFeatureOrder | pkg/scanner/transformer.go:83-103 | the overall severity does not depend on the order of features |
| Govulncheck.FindFallbackModule | tools/govulncheck-report/report.go:256-263 | finds the first named affected package, or says unknown when none has a name |
| Govulncheck.DescribesExactly | tools/govulncheck-report/report.go:217-254 | a finding is Called when its first frame has a function, Imported when that has only a package, Required otherwise; module, version and label come from that frame, the module else from the entry |
| Govulncheck.ModuleIsDetermined | tools/govulncheck-report/report.go:217-225 | the module of a description is the only one that is the frame's own or else the first named affected package |
| Govulncheck.SummarizesExactly | tools/govulncheck-report/report.go:265-279 | the summary, or without one the details, in at most 200 characters, with all its words when they fit |
| Govulncheck.RoutingIsExact | tools/govulncheck-report/report.go:122-130 | each kind of message is kept in order, and a message counts as the first kind it qualifies for |
| Govulncheck.EntryIsTheLast | tools/govulncheck-report/report.go:126-127 | a finding is described with the last entry of its ID, or with none |
| Govulncheck.TraceExactlyWhenCalled | tools/govulncheck-report/report.go:217-247 | a description has a trace exactly when its level is Called |
| Govulncheck.KeysEqualIffPiecesEqual | tools/govulncheck-report/report.go:137 | two merge keys are equal exactly when ID and module cut at NULs give the same pieces |
| Govulncheck.KeysSeparatePairs | tools/govulncheck-report/report.go:137 | with NUL-free IDs, equal keys mean equal ID and module |
| Govulncheck.NulConfusesKeys | tools/govulncheck-report/report.go:137 | an ID with a NUL shares its key with another pair |
| Govulncheck.MergeRefinesGroupBy | tools/govulncheck-report/report.go:133-163 | each entry of the one-pass merge has its group's maximum level, the trace of the first finding at it, and the first non-empty fix and version |
| Govulncheck.EntryReflectsItsFindings | tools/govulncheck-report/report.go:133-163 | a merged entry is Called when some finding of its group calls the symbol, else Imported when some imports the package, else Required; it has the label of the first that calls and the first version and fix there is |
| Govulncheck.MergedKeys | tools/govulncheck-report/report.go:133-151 | there is an entry for each key that occurs and no other |
| Govulncheck.EntryTraceExactlyWhenCalled | tools/govulncheck-report/report.go:152-156 | a merged entry has a trace exactly when its level is Called |
| Govulncheck.EntriesAreDistinct | tools/govulncheck-report/report.go:137-150 | every entry stands under the key of its own ID and module |
| VulnSummary.Route | tools/govulncheck-report/report.go:112-131 | the routing loop splits the stream by kind, each kind in its own order, the last OSV entry of an ID staying |
| VulnSummary.Cell.Absorb | tools/govulncheck-report/report.go:152-162 | an in-place update of one entry is one step of the merge specification |
| VulnSummary.MergeOne | tools/govulncheck-report/report.go:134-163 | one finding adds a cell or changes only the cell of its key |
| VulnSummary.Merge | tools/govulncheck-report/report.go:133-163 | the map of pointers holds the merge of all findings, no two keys sharing a cell |
| VulnSummary.Collect | tools/govulncheck-report/report.go:165-168 | walking the map in any order lists every entry once |
| VulnSummary.AnyCorrectSortLists | tools/govulncheck-report/report.go:165-178 | any map order and any correct sort of it, stable or not, give the strictly sorted list of the entries |
| VulnSummary.ListedIsUnique | tools/govulncheck-report/report.go:170-178 | there is only one such list |
| VulnSummary.BeforeIsStrictOrder | tools/govulncheck-report/report.go:170-178 | the comparison handed to the sort is a strict weak order that separates distinct ID and module |
| VulnSummary.Analyze | tools/govulncheck-report/report.go:103-211 | the summary lists the merged entries sorted, counts all, fixable and called ones, and marks a scanner error in exactly the four cases |
| VulnSummary.SummaryIsDetermined | tools/govulncheck-report/report.go:103-211 | streams that agree kind by kind have one and the same summary |
| VulnSummary.CountsAreOfGroups | tools/govulncheck-report/report.go:190-198 | the three counts are the numbers of merge keys, of keys with a fix and of keys with a called finding |
| VulnSummary.CountsAreOfPairs | tools/govulncheck-report/report.go:190-198 | with NUL-free IDs they are the numbers of (vulnerability, module) pairs, of pairs with a fix and of pairs with a called finding |
| VulnSummary.PairsAreOfFindings | tools/govulncheck-report/report.go:135-138 | the pairs counted are those some finding of the stream is about, has a fix for, or calls, told from the finding's own frame |
| VulnSummary.SummaryIsOrdered | tools/govulncheck-report/report.go:169-178 | of two findings the earlier one is more reachable, else has the smaller ID, else the smaller module, by the first character that differs |
| StringOrder.LessIsEarlier | tools/govulncheck-report/report.go:174-177 | the order of strings is decided by the first difference, a prefix coming first |
| VulnSummary.FixableOnly | tools/govulncheck-report/render.go:107-115 | the loop keeps exactly the findings with a fix, in order |
| VulnSummary.FixableKeepsOrder | tools/govulncheck-report/render.go:107-115 | filtering a sorted list gives the sorted list of its fixable members |
| VulnSummary.CountCalled | tools/govulncheck-report/render.go:117-125 | counts the findings at level Called |
| VulnSummary.RowsAreTheFirst | tools/govulncheck-report/render.go:21-24 | a mode shows all findings or exactly those with a fix, and a positive limit keeps the first so many rows |
| VulnSummary.CutKeepsTheMostActionable | tools/govulncheck-report/render.go:77-84 | in both modes, when a cut row is Called every shown row is |
| Shorten.ShortenIsNormalForm | tools/govulncheck-report/report.go:273-279 | with a limit of at least 3 the result fits it, has only single interior spaces and is its own shortening |
| Shorten.ShortenKeepsTheWords | tools/govulncheck-report/report.go:273-279 | all words are kept when they fit with single spaces, else as much of that text as leaves room for three dots |
| Shorten.FieldsDivideAtSpace | tools/govulncheck-report/report.go:274 | at any white space a text falls into the words before and those after |
| Shorten.WordIsField | tools/govulncheck-report/report.go:274 | a text without white space is one word |
| Shorten.SpacesAre | tools/govulncheck-report/report.go:274 | the characters that count as white space |
| Shorten.ShortenPanicsExactlyWhen | tools/govulncheck-report/report.go:273-279 | slicing fails exactly for a limit below 3 that the collapsed text exceeds |
| Values.LeavesAreLookups | deploy/chart/templates/_helpers.tpl:186-198 | walking a values tree meets exactly the leaves a key-by-key lookup finds |
| Values.LeavesAreDistinct | deploy/chart/templates/_helpers.tpl:397-407 | and each of them once |
| Passthrough.LinesFollowLeaves | deploy/chart/templates/_helpers.tpl:186-198 | the recursive flattening writes one line per leaf, named by its path alone |
| Passthrough.CountLeaves | deploy/chart/templates/_helpers.tpl:397-407 | the recursive count is the number of leaves |
| Passthrough.YamlSize | deploy/chart/templates/validate-values.yaml:139-146 | a map has as many keys as lines were written exactly when no two lines share a name |
| Passthrough.CollisionGuardIsExact | deploy/chart/templates/validate-values.yaml:139-146 | the guard accepts a tree exactly when no two distinct leaf paths flatten to one name, case folding included |
| KeyOrder.SortKeepsTheTree | deploy/chart/templates/_helpers.tpl:189 | ranging by sorted key meets the same tree with as many leaves |
| KeyOrder.SortedLeavesAreDetermined | deploy/chart/templates/_helpers.tpl:189 | however a tree was written, ranging by sorted key meets the same leaves in the same order |
| Passthrough.ChartIgnoresOrder | deploy/chart/templates/_helpers.tpl:186-198 | the chart's variables depend on the tree alone, for every tree, colliding names or not |
| Passthrough.ChartHasEveryLeaf | deploy/chart/templates/_helpers.tpl:186-198 | every leaf's name is a variable, and on a tree the collision guard accepts it has that leaf's text |
| Passthrough.NameIsJoined | deploy/chart/templates/_helpers.tpl:186-198 | the name of a leaf is its keys joined by underscores, in upper case |
| Passthrough.UpperFolds | deploy/chart/templates/_helpers.tpl:188-195 | upper case leaves no lower-case letter and changes letters by their case alone |
| Passthrough.SyntaxGuardByKeys | deploy/chart/templates/validate-values.yaml:116-122 | the guard accepts a tree exactly when the keys on the way to each leaf are ASCII letters, digits and underscores and the first of these is no digit |
| Passthrough.SyntaxGuardIsExact | deploy/chart/templates/validate-values.yaml:110-122 | the guard accepts a tree exactly when every leaf flattens to a name the kubelet takes |
| Passthrough.EnvVarNamesArePlain | deploy/chart/templates/validate-values.yaml:110-115 | the kubelet takes names of letters, digits and underscores that do not start with a digit |
| Passthrough.ClaimedEnvNames | deploy/chart/templates/_helpers.tpl:208-216 | lists the names of config and of secret, each as often as it is claimed |
| Passthrough.Env | deploy/chart/templates/_helpers.tpl:226-238 | the chart's entries without the claimed names, then extraEnv, in order |
| Passthrough.Precedence | deploy/chart/templates/_helpers.tpl:200-238 | every name resolves to its last extraEnv entry, else to its claimed value from the sources, else to the chart's own entry, else to the sources, which give nothing for a name the kubelet drops |
| Passthrough.LastEntryIsLast | deploy/chart/templates/_helpers.tpl:234-236 | of entries with one name the last is the one in force |
| Passthrough.LastSourceIsLast | deploy/chart/templates/deployment.yaml:85-98 | of sources with one name the last is the one read, if the kubelet takes the name |
| Passthrough.SourcesResolve | deploy/chart/templates/deployment.yaml:85-98 | among the sources extraEnvFrom beats secret and secret beats config |
| Passthrough.SettingsArrive | deploy/chart/templates/validate-values.yaml:103-146 | on trees that the overlap, name-syntax and collision guards accept, every leaf of config and secret reaches the container unless extraEnv or extraEnvFrom names it |
| Passthrough.FilterMattersExactly | deploy/chart/templates/_helpers.tpl:229-233 | keeping claimed entries would change exactly the names that chart and user both set, differently, and extraEnv does not |
| Doctor.Get | deploy/chart/tools/values-doctor.py:19-25 | the value at a dotted path, or the default when a key is missing or the value is null |
| Doctor.NothingIsFound | deploy/chart/tools/values-doctor.py:19-25 | the lookup goes on key by key, and a null, like a missing key, is nothing |
| Doctor.LeavesAreFound | deploy/chart/tools/values-doctor.py:45-58 | what flattening takes for a leaf is what the lookup finds there: a scalar, or a slice joined by commas |
| Doctor.SameName | deploy/chart/tools/values-doctor.py:51 | uppercasing the joined name gives the chart's joined uppercase parts |
| Doctor.Flatten | deploy/chart/tools/values-doctor.py:45-58 | filling the dict gives the lines of the tree in the file's own order, a later one of a name replacing an earlier one, under any prefix |
| Doctor.SameTreeSameVariables | deploy/chart/tools/values-doctor.py:45-58 | when leaves of one name share their text, the result is the chart's variables under any order of keys |
| Doctor.LastWriterWins | deploy/chart/tools/values-doctor.py:50-57 | any leaf can be made the one its name gets by writing it last in the file |
| Doctor.OrderShowsExactly | deploy/chart/tools/values-doctor.py:45-58 | the result is the chart's variables under every order of keys exactly when leaves of one name share their text |
| Doctor.FlattenAnyOrder | deploy/chart/tools/values-doctor.py:45-58 | on a tree the collision guard accepts, the result is the chart's under any order of keys |
| Doctor.Effective | deploy/chart/tools/values-doctor.py:31-42 | the first literal extraEnv entry, else config, else secret, else the typed value or its default |
| Doctor.BelievesExactly | deploy/chart/tools/values-doctor.py:31-42 | the literal entry no other precedes; without one config, then secret, then the typed value, then the default |
| Doctor.JudgesTheDeployment | deploy/chart/tools/values-doctor.py:31-42 | on accepted trees, for a user-set name without extraEnvFrom source, the doctor judges the deployed text exactly when the last extraEnv entry for it, if any, shows it that text |
| Doctor.OneLiteralShows | deploy/chart/tools/values-doctor.py:35-37 | at most one extraEnv entry for the name, a literal one, is enough for that |
| Doctor.MinPercentBlocksExactly | deploy/chart/tools/values-doctor.py:77-78 | a minAvailable of p percent blocks exactly when (100 - p) times replicas is below 100 |
| Doctor.MaxPercentBlocksExactly | deploy/chart/tools/values-doctor.py:79 | a maxUnavailable of p percent blocks exactly when p times replicas is below 100 |
| Doctor.BlocksExactlyWhenNoneMayGo | deploy/chart/tools/values-doctor.py:61-84 | a minimum blocks exactly when keeping all replicas but one does not suffice, a maximum when letting one go is not permitted, counts and percentages alike; an absent or unreadable budget never blocks |
| Doctor.MinAndMaxAgree | deploy/chart/tools/values-doctor.py:74-79 | min p percent and max (100 - p) percent always agree |
| Doctor.MoreReplicasNeverBlock | deploy/chart/tools/values-doctor.py:61-84 | for p from 0 to 100 a replica count that is not blocked stays so at every larger count |
| Drift.Unwrap | deploy/chart/tools/schema-drift.py:47-64 | the loops give the specified node: itself, else the merged conjunction, else the first object alternative, else itself |
| Drift.UnwrapsExactly | deploy/chart/tools/schema-drift.py:47-64 | a node with properties stays; any other is the conjunction of its allOf branches when these declare anything, each property as the last of them says it, else the first anyOf branch with properties, else the first such oneOf branch, else itself |
| Drift.MergeKeepsEveryProperty | deploy/chart/tools/schema-drift.py:50-57 | the merge declares exactly the properties of all branches, a later declaration replacing an earlier one |
| Drift.UnwrapIsNoLarger | deploy/chart/tools/schema-drift.py:47-64 | unwrapping never makes a schema larger, so the walk ends on decreasing schema size |
| Drift.Walk | deploy/chart/tools/schema-drift.py:26-43 | appends to the shared list exactly the specified findings of the subtree, in order, under its dotted path |
| Drift.FindingsAreDifferences | deploy/chart/tools/schema-drift.py:26-43 | a finding is reported exactly when its last key is on one side only at the node its other keys reach on both sides |
| Drift.ReachGoesOn | deploy/chart/tools/schema-drift.py:32-37 | from a node it came to, the walk goes on along every key both sides have there, into the unwrapped schema, and along no other |
| Drift.FindingsAreDistinct | deploy/chart/tools/schema-drift.py:26-43 | no kind and key path is reported twice |
| Drift.SilentExactlyWhenEqual | deploy/chart/tools/schema-drift.py:26-43 | nothing is reported exactly when every node reached on both sides has equal key sets |
| Drift.PrintedPathsAreKeys | deploy/chart/tools/schema-drift.py:33-40 | a dotted path of non-empty, dot-free keys can be cut back into them |
| Drift.PrintedOnce | deploy/chart/tools/schema-drift.py:33-42 | so with such keys no line is printed twice |

## Left out

- Enqueuer, pool and dispatcher as code: `Enqueue`, `Start`, `Run` and `Shutdown` block, loop forever or spawn goroutines; they are the steps Request, Create, Receive, Spawn, Shutdown and Exit of the state machine, not methods.
- Harbor.JobRoundTrip: text that is not valid UTF-8, and the monotonic part of a clock reading, which JSON drops, are not modelled; a time is one number.
- LifecycleTheorems.PollsAreOrderly: polls whose own store command fails are not among the answers; such a poll gets a 500 at any point and changes nothing.
- LifecycleTheorems.ParentsBeforeChildren: assumes that Clair starts closed under parents and deletes no layer; an unheard post may or may not have been kept.
- Fresh UUIDs are an assumption: a new ID belongs to no job and its key is not in Redis.
- An expiry in whole seconds; a record is readable up to and including its last millisecond. Eviction, replication and failover of Redis are not modelled.
- The crash of a process outside a worker's own panics appears as the step Die, possible at any time; two adapter processes at once on one Redis are not modelled.
- AcceptScanRequest: decoding and validating the request are single checks; the Request step stands for a request that passed them.
- Wording of error messages beyond their distinguishing part (the text after "unexpected status" and after a JSON error).
- Lower and upper case are ASCII only, in severities and variable names.
- Passthrough.CollisionGuardIsExact: a flattened name is taken to stay itself when the lines are read as YAML; names that YAML reads as booleans, numbers or null are not modelled.
- Passthrough.SyntaxGuardIsExact: the kubelet takes C identifiers, as the chart's comment has it; clusters that relax that rule are not modelled.
- Passthrough.Env: the conditions under which the chart writes each of its own entries; they are an arbitrary list here.
- Scalars have one rendering, where the chart and the doctor print booleans and numbers each in their own way; base64 of secrets is undone by Kubernetes and not modelled, nor is `$(NAME)` expansion in values.
- Doctor.MinPercentBlocksExactly: exact rationals instead of floating point, and parsing a budget into a number or percentage is given.
- `check` and `truthy` of the doctor, and the remaining guards of the chart, are one-branch conditions.
- Drift.Unwrap: a `properties` member that is no object, and a property whose schema is a boolean, on which the script raises an error, are not modelled.
- The allow list and exit status of the drift check; its findings are modelled in the order they are found.
- Shorten.ShortenIsNormalForm: a character stands for a rune; invalid UTF-8 input is not modelled.
- writeHeadline, writeFootnotes and the Markdown text around the rows, and the JSON decoding of the stream, which is given as messages and at most one error.
- HTTP, TLS, SQL, the Redis connection pool, configuration, metadata, probes, metrics, logging and the other Helm templates.
