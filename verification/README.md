# Verified model of the Relentless Bookworm crawler

Relentless Bookworm crawls Open Library: an API posts seeds to a Kafka frontier topic,
workers deduplicate and fetch URLs and publish results, edges and new frontier jobs, and
graph writers merge results and edges into Neo4j. This project models the parts whose
correctness is not obvious from the code and proves properties of them in Dafny:

- the **commit coordinator** of a worker, which receives completed messages out of order and
  commits them per partition in offset order, re-queueing refused commits
  (`PartitionCommits`, `CommitTheorems`, `CommitCoordinator`);
- the **worker process** as a step system: dispatch loop, semaphore, job goroutines, bounded
  commit channel and coordinator under every interleaving (`Pipeline`, `PipelineInvariants`,
  `PipelineTheorems`, `PipelineProgress`, `PipelineShutdown`, `PipelineRefinement`);
- the **crawl** of all workers together as a graph search over a shared visited set
  (`Frontier`, `FrontierBounds`, `FrontierFifo`), with the expand loops and URL forms it
  rests on (`Expansion`, `Urls`, `CrawlUrls`);
- the **graph writer**: MERGE and coalesce as updates of a graph value, the two consume
  loops, confluence and replay (`Registers`, `Graph`, `GraphTheorems`, `GraphReplay`,
  `GraphWriter`);
- three smaller loops: **retry backoff** (`Retry`), the **robots.txt** parser, what it makes of
  raw text and where it is asked (`Robots`, `RobotsText`, `RobotsGate`) and the **latency histograms** (`Histogram`).

`dafny verify dfyconfig.toml` checks everything.

## How the model relates to the code

External answers are parameters: whether the k-th commit of a partition succeeds, whether a
Kafka or Neo4j write succeeds, what page a URL leads to, how a query string is escaped. The
crawl takes its dedupe key as a parameter; `CrawlKeysInjective` supplies the injectivity that
the closure and exactness theorems ask of it for the key the worker uses.
Cancellation and timeouts are steps that may happen at any time. Where goroutines interleave,
the model is a state, a set of events and a run; where one goroutine changes fields in a loop,
it is a class with methods proved against functions.

Some results are about what the code does *not* guarantee, each with the exact condition:

- The coordinator seeds a partition's expected offset from the first message *completed*, not
  the first fetched. `CommitSafety` says exactly which fetched messages a commit can pass
  while they are still being worked on; `DuplicatePassesRunningJob` shows that a duplicate is
  enough to cause it, even with one slot.
- A message received behind the expected offset is buffered and never committed:
  `StrandedExactly` says that these and no others are left behind, for every sequence of
  completions and failures, and `StrandedForever` that it is for good. Whether a repeated
  offset is one of them depends on failures (`RepeatedOffsetIsVisible`); everything else about
  the outcome does not (`OffsetsInvisible`).
- The pending gauge counts a message that replaces a buffered one twice; `Coordinator.Run`
  says by how much it is off, `DistinctNeverReplace` when it is not, and
  `RepeatBehindGapReplaces` gives three messages for which it is, whatever the broker answers.
- The wait group is left before the send on the commit channel, so waiting for it does not
  wait for the sends (`WaitGroupEmpty`, `SendCanOutliveWait`).
- Outside FIFO order a failure-free crawl with a depth limit can miss a URL within the limit
  (`OutOfOrderMisses`). `ExactUnlessLinksLost` gives the condition under any schedule: nothing
  is missed if and only if every link of a URL claimed too late to be expanded was visited.
- Two graph messages commute if and only if no field of a node is written by both with
  different values (`CommuteExactly`); two titles of one work are an example (`TitlesConflict`).
- Redelivery gives the graph of some clean pass (`ReplayIsSomeCleanPass`), and of every clean
  pass if and only if the last writes of a field in different partitions agree
  (`ExactlyOnceExactly`). The worker's results writer balances by bytes and ignores the message
  key, so results about one node can lie in different partitions; then the graph can depend
  on which partition is consumed last (`PartitionsDisagree`).
- Once the coordinator no longer serves, a full commit channel blocks the dispatch loop for
  ever, and only then (`StuckExactly`); a shutdown with undecodable messages waiting is enough
  (`ShutdownCanHang`).
- A graph message whose write fails for good is skipped by the next commit:
  `ReplayWithLosses` says which graph is left.
- `ParseRobots` is documented to use the first matching user-agent block. The code flips a
  flag on every matching user-agent line, so a second matching group right after the first is
  ignored and a third is used again, and a block headed by two matching lines is dropped
  (`DoubleHeaderIgnored`). It also keeps the rules of a `*` group when the file has a group of
  our own (`StarGroupKept`), which section 2.2.1 of RFC 9309 does not, and it compares with the
  whole User-Agent header where the standard compares with its product token, so that a group
  for the token is dropped (`TokenGroupDropped`). `FirstBlockReadingHolds`,
  `StandardReadingHolds`, `MergedReadingHolds` and `NearestReadingHolds` say exactly when the
  code agrees with the documented reading, with the standard's, with all matching blocks
  together and with the nearest user-agent line. For the first two this is about rule lines;
  it is about the collected paths as well unless a path is written twice (`ReadingsAgree`).
- A URL that robots.txt refuses is still requested if it is a search URL, by the expansion
  that follows the refused handler, and only then (`ProcessJob`). Under the rule
  "Disallow: /search" that is every search URL (`SearchRefused`).
- Doubling the retry delay overflows once a wait reaches 2^62 ns; the remaining retries then
  follow without waiting (`EveryRetryWaits`); a base of 2^62 ns without a cap waits once
  (`OverflowWaitsOnce`).

The flow chart in results/WORKER_V2_README.md places the semaphore before deduplication; the
code deduplicates first and so does the model.

## Model

| member | source | states |
|---|---|---|
| PartitionCommits.EnqueueTracks | cmd/worker/commit_coordinator.go:58-71 | receiving a message keeps the partition invariant: log is f, f+1, .., next-1 and log with buffer covers exactly the completions |
| PartitionCommits.CommitTracks | cmd/worker/commit_coordinator.go:77-100 | one commit attempt, accepted or refused, keeps that invariant |
| PartitionCommits.DrainTracks | cmd/worker/commit_coordinator.go:104-109 | so does a whole drain |
| CommitTheorems.RunTracks | cmd/worker/commit_coordinator.go:58-109 | for every completion sequence and failure pattern the commits are exactly f .. next-1 in order, and commits plus buffer are exactly the completions, disjointly if offsets are distinct |
| CommitTheorems.FlushReachesGap | cmd/worker/commit_coordinator.go:104-120 | after a flush without refusals, next is the least offset from f on that never completed, repeated offsets included |
| CommitTheorems.StreamingRefinesBatch | cmd/worker/commit_coordinator.go:58-120 | with distinct offsets the final next, log and buffer are those of committing the whole batch at once |
| CommitTheorems.FailuresAndOrderInvisible | cmd/worker/commit_coordinator.go:77-120 | two runs over the same completions with the same first one end alike, whatever failed and whatever the order |
| CommitTheorems.OffsetsInvisible | cmd/worker/commit_coordinator.go:77-120 | with repeated offsets: same next, same committed offsets, same buffered offsets outside f .. next-1, and inside exactly those received late in each run |
| CommitTheorems.StrandedExactly | cmd/worker/commit_coordinator.go:63-82 | for every completion sequence and failure pattern, before and after the flush, an offset is buffered below next if and only if a message with it was received below next |
| CommitTheorems.StrandedForever | cmd/worker/commit_coordinator.go:68-82 | a message received below next stays there in every continuation, and all later commits are of higher offsets |
| CommitTheorems.RepeatedOffsetIsVisible | cmd/worker/commit_coordinator.go:63-66 | witness: the same three completions strand a repeated offset or not, depending on earlier failures |
| CommitTheorems.HeadOfLineBlocks | cmd/worker/commit_coordinator.go:77-100 | while an offset at or above next is missing, nothing from it on is committed in any continuation |
| CommitTheorems.StaleStaysBuffered | cmd/worker/commit_coordinator.go:68-82 | an offset below the first completion is never committed and stays buffered |
| CommitTheorems.DueWaitsExactly | cmd/worker/commit_coordinator.go:46-52 | after each message everything due is committed: the expected offset stays buffered if and only if a commit was refused in the drain after that message |
| CommitTheorems.RunExtends | cmd/worker/commit_coordinator.go:38-54 | later messages only extend the commit log |
| CommitCoordinator.Coordinator.constructor | cmd/worker/commit_coordinator.go:26-33 | every partition starts fresh |
| CommitCoordinator.Coordinator.Enqueue | cmd/worker/commit_coordinator.go:58-71 | the message's partition changes as specified and no other; the gauge stays exact up to the replaced messages, which are counted |
| CommitCoordinator.Coordinator.CommitNext | cmd/worker/commit_coordinator.go:77-100 | one attempt on one partition as specified, other partitions untouched, the gauge exact and the error counter equal to the number of attempts the broker refused |
| CommitCoordinator.Coordinator.Drain | cmd/worker/commit_coordinator.go:104-109 | the loop computes the specified drain of that partition alone and terminates, with gauge and error counter exact |
| CommitCoordinator.Coordinator.Flush | cmd/worker/commit_coordinator.go:113-120 | every partition is drained, in whatever order the map yields them, with gauge and error counter exact |
| CommitCoordinator.Coordinator.Run | cmd/worker/commit_coordinator.go:38-54 | partition independence: each partition ends as if its messages and outcomes had been alone; the gauge is the number of buffered messages plus the number of messages that found their offset buffered, and the error counter is the number of attempts the broker refused |
| CommitCoordinator.RefusalsGrow | cmd/worker/commit_coordinator.go:86-94 | each answered attempt adds one to the refused attempts of all partitions, or none |
| CommitCoordinator.RepeatBehindGapReplaces | cmd/worker/commit_coordinator.go:63-66 | witness: a repeated offset behind a gap is counted twice by the gauge, whatever the broker answers |
| CommitCoordinator.DistinctNeverReplace | cmd/worker/commit_coordinator.go:63-66 | with distinct offsets that second number is zero, whatever fails |
| PipelineInvariants.ConservedStep | cmd/worker/main.go:366-413 | every step keeps each fetched message in exactly one place |
| PipelineInvariants.AccountedStep | cmd/worker/main.go:374-435 | every step keeps gauge, semaphore, wait group, channel bound and job counters exact |
| PipelineInvariants.CoordinatedStep | cmd/worker/commit_coordinator.go:58-120 | every step keeps every partition tracking what the coordinator received, also in the middle of a commit |
| PipelineInvariants.InvReaches | cmd/worker/main.go:347-455 | all invariants hold after every run |
| PipelineTheorems.Conservation | cmd/worker/main.go:366-413 | in every reachable state a fetched message is in exactly one of dispatcher, goroutine, channel, buffer, commit under way, committed, dropped |
| PipelineTheorems.SlotsAndCounters | cmd/worker/main.go:374-435 | in-flight gauge <= slots held <= concurrentJobs, channel within capacity, received jobs equal skipped, succeeded, failed, dedupe errors, cancelled and not yet counted, and nothing is dropped except by a dedupe error or a cancelled wait |
| PipelineTheorems.CommittedJobsWereClaimed | cmd/worker/main.go:374-396 | every decodable message handed to the commit channel has its dedupe key claimed |
| PipelineTheorems.OneSpawnPerKey | cmd/worker/main.go:375-394 | over a whole run at most one message per dedupe key gets a goroutine, so no two goroutines share a key |
| PipelineProgress.NoDeadlock | cmd/worker/main.go:387-413 | with at least one slot and whatever waits on channel and semaphore, while the coordinator serves and a message is under way some step is enabled that is neither a fetch nor a failure nor the shutdown |
| PipelineProgress.SteadyRunRests | cmd/worker/main.go:366-413 | from every reachable state in which the coordinator serves every run without a fetch, another worker's claim or the shutdown is bounded by the work at hand whatever fails, cannot be continued exactly when nothing is under way, and then every fetched message is committed, buffered or dropped |
| PipelineShutdown.HungForever | cmd/worker/main.go:366-385 | when the channel is full and the coordinator no longer serves, the dispatch loop stays at its send in every continuation and fetches nothing more |
| PipelineShutdown.StuckExactly | cmd/worker/main.go:366-385 | a reachable send of the dispatch loop blocks for ever if and only if the channel is full and the coordinator is in its final flush or stopped |
| PipelineShutdown.ShutdownCanHang | cmd/worker/commit_coordinator.go:38-54 | witness: with any number of slots, one undecodable message more than the channel holds and a shutdown before the coordinator received any |
| PipelineProgress.SlotsCanBeFilled | cmd/worker/main.go:387-394 | as many jobs as there are slots can be handled at the same time |
| PipelineRefinement.SomeAnswers | cmd/worker/commit_coordinator.go:77-100 | every run of the process is a run against some answers of the broker |
| PipelineRefinement.CoordinatorRefined | cmd/worker/commit_coordinator.go:38-120 | under every interleaving, whenever the coordinator is ready to receive each partition stands where one drain after each received message puts it against the same answers, and when it has stopped where the flush puts it |
| PipelineRefinement.DueIsCommitted | cmd/worker/commit_coordinator.go:46-109 | while no commit is refused, whenever the coordinator is ready to receive no expected offset is buffered and each partition stands where one batch commit of what was received puts it |
| PipelineRefinement.AtRest | cmd/worker/commit_coordinator.go:38-109 | with nothing under way and no commit refused so far, every fetched message is committed or dropped, or waits behind an offset never received, or was received below the first one received |
| PipelineTheorems.CountersCount | cmd/worker/main.go:374-435 | over every run each job counter grows by the number of steps of its own kind |
| PipelineTheorems.CommitSafety | cmd/worker/main.go:366-413 | a commit has passed a fetched message not yet handed over if and only if something was committed and its offset is below the first received one |
| PipelineTheorems.CommitSafetyInOrderStart | cmd/worker/main.go:366-413 | if the first message received of a partition is the first one fetched, no commit passes a message not yet handed over |
| PipelineTheorems.HeadOfLineBlocking | cmd/worker/main.go:376-391 | in every continuation, while an expected offset has not reached the coordinator nothing from it on is committed |
| PipelineTheorems.StaleForever | cmd/worker/commit_coordinator.go:68-82 | a message received below the first received offset stays buffered in every continuation |
| PipelineTheorems.DuplicatePassesRunningJob | cmd/worker/main.go:380-385 | with any number of slots a duplicate can be committed past a job still running |
| PipelineTheorems.WaitGroupEmpty | cmd/worker/main.go:408-413 | the wait group is empty exactly when every goroutine left has only its send to do |
| PipelineTheorems.SendCanOutliveWait | cmd/worker/main.go:339-342 | the wait group can be empty while a goroutine still has to send |
| PipelineTheorems.CleanFlushIsBatch | cmd/worker/commit_coordinator.go:113-120 | whatever the interleaving, a final flush without refusals leaves every partition where the batch commit of what was received would |
| Frontier.ClaimedStep | cmd/worker/main.go:374-396 | every step keeps one claim per dedupe key, and the visited keys exactly the claimed ones |
| Frontier.CrawlIsSound | cmd/worker/main.go:588-717 | any order, number of workers, failures and redeliveries keep every job descending from its seed |
| FrontierBounds.SoundCrawl | cmd/worker/main.go:693-717 | every frontier job has depth 0 .. maxDepth, its seed's session and URL, is reached over exactly depth links, and no dedupe key is claimed twice |
| FrontierBounds.CrawlTerminates | cmd/worker/main.go:697-699 | with a depth limit no schedule takes more steps than a bound computed from the frontier |
| FrontierBounds.MaximalRunRests | cmd/worker/main.go:347-396 | with a depth limit a failure-free run is bounded, and cannot be continued exactly when the crawl is at rest |
| FrontierBounds.ComesToRest | cmd/worker/main.go:347-396 | every crawl with a depth limit can be brought to rest without a failure |
| FrontierBounds.CrawlIsClosed | cmd/worker/main.go:374-396 | without a depth limit and failures a crawl at rest has visited exactly the URLs reachable from its seeds, under any schedule |
| FrontierFifo.FifoCrawlIsExact | cmd/worker/main.go:374-396 | a FIFO crawl at rest has processed exactly the URLs within maxDepth links of a seed |
| FrontierFifo.FifoDepthIsShortest | cmd/worker/main.go:700-706 | each of them once, at its shortest link distance from any seed |
| FrontierFifo.FifoCrawlRests | cmd/worker/main.go:347-396 | after any seeding there is a FIFO crawl at rest, to which the two results above apply |
| FrontierFifo.OutOfOrderMisses | cmd/worker/main.go:697-699 | witness: without FIFO order a URL within the limit can be missed although nothing failed |
| FrontierFifo.ExactUnlessLinksLost | cmd/worker/main.go:697-699 | under any schedule a failure-free crawl at rest has visited exactly the URLs within maxDepth links if and only if every link of a URL claimed at the limit, though closer to a seed, was visited |
| Urls.EnsureJsonUrlIsFixed | internal/ol/client.go:12-18 | the result ends in .json and is a fixed point |
| Urls.SearchUrlIsSearch | internal/ol/client.go:20-33 | search URLs are recognised as such |
| Urls.NormalizeSeedCanonical | cmd/api/main.go:176-181 | every seed URL is a search URL or a fixed point |
| Urls.EnsureJsonUrlKeepsPath | internal/ol/client.go:12-18 | a URL that ends in .json is kept, any other loses nothing but trailing slashes before the suffix |
| Urls.SeedKinds | cmd/api/main.go:176-181 | a seed that is a URL is kept up to the suffix, any other becomes the query of a search URL |
| Urls.FetchKinds | cmd/worker/main.go:457-463 | a search URL is requested as it is, any other up to the suffix |
| Urls.AuthorKey | cmd/worker/main.go:745-748 | author URLs are claimed under author keys |
| Urls.BookKey | cmd/worker/main.go:749-751 | book URLs are claimed under book keys |
| Urls.CanonicalIsFetched | cmd/worker/main.go:457-463 | for such URLs the URL fetched is the URL of the job |
| Urls.DedupeKeyInjective | cmd/worker/main.go:745-753 | different URLs have different dedupe keys |
| Expansion.Publisher.EnqueueUrl | cmd/worker/main.go:693-717 | tries to write the child job at depth+1, or nothing at the depth limit; fails exactly when the broker refuses |
| Expansion.Publisher.PublishEdge | cmd/worker/main.go:719-739 | tries to write the edge and fails exactly when the broker refuses |
| Expansion.Publisher.PublishItem | cmd/worker/main.go:617-656 | writes both halves of a discovery in order, up to the first refused write, and fails exactly when there is one |
| Expansion.Publisher.PublishKeys | cmd/worker/main.go:633-648 | author and work loops: all edges and jobs in order, up to the first refused write, and fails exactly when there is one |
| Expansion.Publisher.PublishSubjects | cmd/worker/main.go:649-657 | subject loops: the same, link before edge |
| Expansion.Publisher.ExpandSearch | cmd/worker/main.go:608-630 | search results with a key, in order, up to the first refused write, and fails exactly when there is one |
| Expansion.Publisher.Expand | cmd/worker/main.go:588-691 | dispatch on URL and node type: succeeds if and only if the broker accepts as many writes as the page calls for, and otherwise stops at the first refused one; the writes are those that the page calls for, in order; a search page that cannot be fetched is an error and writes nothing |
| Expansion.CalledExactly | cmd/worker/main.go:608-691 | a page calls for the edge and, below the limit, the job of each author, work, subject or keyed search result, with the relation and URL of its kind, and for nothing else |
| Expansion.ScriptIsCalled | cmd/worker/main.go:608-691 | what the loops write is what the page calls for, in order |
| CrawlUrls.ScriptJobs | cmd/worker/main.go:608-691 | the jobs of a whole expansion are the children over all links in order, or none at the depth limit |
| CrawlUrls.ExpansionRefinesCrawl | cmd/worker/main.go:588-717 | whatever an expansion wrote before failing, the frontier grew as by publish steps of the crawl |
| CrawlUrls.LinksCanonical | cmd/worker/main.go:617-683 | every discovered URL is a search URL or a fixed point of EnsureJSONURL |
| CrawlUrls.CrawlKeysInjective | cmd/worker/main.go:745-753 | the key under which the workers claim a URL tells it from every other URL |
| CrawlUrls.OneClaimPerUrl | cmd/worker/main.go:374-396 | across all workers no two claims share a requested URL or a dedupe key, and the URL requested is the URL claimed |
| Registers.WalkKeepsLast | cmd/graph-writer/main.go:162-186 | redelivering from any earlier position, any number of times, leaves the last written value |
| Graph.NodeLabelInjective | cmd/graph-writer/main.go:376-389 | different endpoint strings name different nodes |
| Graph.LabelsAgree | cmd/graph-writer/main.go:318-389 | results and edges name the same node for /books/, /works/ and /authors/ keys |
| Graph.LabelKinds | cmd/graph-writer/main.go:376-389 | which node an endpoint with a known prefix names |
| Graph.OtherLabel | cmd/graph-writer/main.go:376-389 | every other endpoint is an external node |
| Graph.RelationIsUpperCase | cmd/graph-writer/main.go:391-409 | every relation, the named ones included, is written in upper case with underscores |
| Graph.ResultStored | cmd/graph-writer/main.go:318-374 | which property of which node each field of a book, work or author sets, empty fields keeping the old value, and that nothing else changes |
| Graph.EdgeIsStored | cmd/graph-writer/main.go:296-316 | an edge joins its two end nodes in its direction, creates them if missing, and changes no property |
| GraphTheorems.RunMembers | cmd/graph-writer/main.go:296-374 | nodes and edges after a log are those before it and those its messages mention |
| GraphTheorems.RunField | cmd/graph-writer/main.go:318-374 | each field holds the last non-empty value written to its node, or its old value |
| GraphTheorems.EffectsDecide | cmd/graph-writer/main.go:296-374 | two logs build the same graph from every graph if and only if they mention the same nodes, add the same edges and end on the same last write of each field |
| GraphTheorems.LastWritesDecide | cmd/graph-writer/main.go:296-374 | logs with the same messages and the same last writes build the same graph |
| GraphTheorems.Confluence | cmd/graph-writer/main.go:104-105 | every interleaving of a results log with an edges log builds the same graph |
| GraphTheorems.OnlyNodeOrderMatters | cmd/graph-writer/main.go:296-374 | with any number of writers only the order of results about one node counts |
| GraphTheorems.AtLeastOnceIsExactlyOnce | cmd/graph-writer/main.go:162-212 | with one partition per topic and no failed writes, restarts of either consumer at or before where it was, interleaved in any way, build the graph of one clean pass |
| GraphReplay.ReplayIsSomeCleanPass | cmd/graph-writer/main.go:162-212 | over any number of partitions of both topics, with restarts and failed writes, as long as the last delivery of each message is written, the graph is that of a clean pass in partition order |
| GraphReplay.ExactlyOnceExactly | cmd/graph-writer/main.go:162-212 | all such runs build the graph of every clean pass, on every graph, if and only if for each field the last writes of different partitions agree |
| GraphReplay.CleanPassesAgreeExactly | cmd/graph-writer/main.go:162-212 | under exactly that condition all clean passes build one graph |
| GraphReplay.PartitionedExactlyOnce | cmd/graph-writer/main.go:162-212 | under that condition each such run builds the graph of each clean pass |
| GraphReplay.TogetherSuffices | cmd/graph-writer/main.go:162-212 | the condition holds when the results about each node share a partition |
| GraphReplay.PartitionsDisagree | cmd/worker/main.go:243-247 | witness: two partitions with different titles of one work, where on every graph the order of the partitions decides |
| GraphReplay.ReplayWithLosses | cmd/graph-writer/main.go:162-212 | whatever is delivered and fails, the graph is that of the last successful deliveries: it lacks exactly the messages that never succeeded, and is in partition order if and only if no later message of a partition last succeeded before an earlier one |
| GraphReplay.LastOnlyInOrder | cmd/graph-writer/main.go:162-212 | the last deliveries come once each and in partition order if and only if every message comes again after each earlier one of its partition |
| GraphTheorems.ReplayIsHarmless | cmd/graph-writer/main.go:175-184 | writing a stretch of the log twice changes nothing |
| GraphTheorems.NothingIsLost | cmd/graph-writer/main.go:318-374 | nodes, edges and set fields never disappear |
| GraphTheorems.CommuteExactly | cmd/graph-writer/main.go:296-374 | on every graph two messages commute if and only if no field of a node is written by both with different values |
| GraphTheorems.TitlesConflict | cmd/graph-writer/main.go:346-359 | witness: two different titles of one work do not commute on any graph |
| GraphWriter.CleanPassWritesAll | cmd/graph-writer/main.go:162-186 | a pass without malformed payloads and database errors writes the whole log |
| GraphWriter.Writer.WriteResult | cmd/graph-writer/main.go:214-251 | success exactly when the payload decodes and no needed query fails; then the properties of the one node are the message's non-empty fields, by name, over the old values, and otherwise the graph is unchanged |
| GraphWriter.Writer.WriteEdge | cmd/graph-writer/main.go:253-264 | the same for edges |
| GraphWriter.Writer.ConsumeResults | cmd/graph-writer/main.go:162-186 | the graph is that of the written messages, an offset is committed exactly when its message was written and the broker took the commit, and the three counters are exact |
| GraphWriter.Writer.ConsumeEdges | cmd/graph-writer/main.go:188-212 | the same for edges |
| Retry.HandleWithRetry | cmd/worker/main.go:516-545 | at most retryMax+1 calls, all but the last failed, and the timers set are exactly the intended backoff as long as doubling fits in int64, and a cancellation ends the retries at once |
| Retry.DelayStep | cmd/worker/main.go:531-543 | the delay is the capped doubled base, or negative once a wait of 2^62 or more was doubled |
| Retry.BackoffClosedForm | cmd/worker/main.go:520-543 | with a cap below 2^62 the i-th wait is min(base * 2^i, maxDelay) for any number of retries |
| Retry.TotalWaitBounded | cmd/worker/main.go:520-543 | n retries wait at most n times the cap |
| Retry.EveryRetryWaits | cmd/worker/main.go:531-543 | each of n retries waits if and only if the intended wait before the last is below 2^62 |
| Retry.OverflowWaitsOnce | cmd/worker/main.go:531-543 | witness: a base of 2^62 without a cap waits before the first retry only |
| Robots.ParseRobots | internal/ol/robots.go:90-118 | the rules are the normalised non-empty Disallow paths after an odd run of matching user-agent lines |
| RobotsText.RulesOnRawLines | internal/ol/robots.go:94-116 | a Disallow line with a path is a rule in any letter case and spacing; Allow lines, empty Disallow lines, comments and blank lines never are |
| RobotsText.AgentsOnRawLines | internal/ol/robots.go:99-101 | a user-agent line matches for `*` and for the header in any letter case, and misses otherwise |
| RobotsText.OneGroupRules | internal/ol/robots.go:90-118 | for a file with one group that matches, the parser keeps exactly its disallowed paths, with a leading slash |
| RobotsText.PathForms | internal/ol/robots.go:40-49 | paths are compared without surrounding space and with a leading slash |
| Robots.NearestReadingHolds | internal/ol/robots.go:99-108 | they are those under the nearest user-agent line if and only if no rule follows an even, non-empty run |
| Robots.NoSuccessiveMatchesSuffice | internal/ol/robots.go:99-108 | in particular when no two successive user-agent lines both match |
| Robots.MergedReadingHolds | internal/ol/robots.go:99-108 | they are those of all matching blocks, a block being a run of user-agent lines and the rules after it, if and only if no rule of a matching block follows an even run |
| Robots.StandardReadingHolds | internal/ol/robots.go:99-108 | the rule lines kept are those the standard obeys (all groups for our product token, or those for `*` if there is none) if and only if those are the rules after an odd run; so too the collected paths, unless a path written twice stands in for a dropped one |
| Robots.StandardWithoutOurs | internal/ol/robots.go:99-108 | in a file that names us neither by token nor by header the paths collected are the standard's if and only if no rule of a `*` group follows an even run |
| Robots.ReadingsAgree | internal/ol/robots.go:90-118 | two readings keep the same lines if and only if they agree on every rule, and collect the same paths exactly then if rule paths are distinct or one reading is stricter |
| Robots.StarGroupKept | internal/ol/robots.go:99-108 | witness: the rules of a `*` group are kept beside those of our own, where the standard drops them |
| Robots.TokenGroupDropped | internal/ol/robots.go:99-108 | witness: for every header that goes on after its product token a group for the token is dropped, where the standard obeys it |
| Robots.FirstBlockReadingHolds | internal/ol/robots.go:87-108 | the rule lines kept are those of the first matching block if and only if those are the rules after an odd run; so too the collected paths, unless a path written twice stands in for a dropped one |
| Robots.DoubleHeaderIgnored | internal/ol/robots.go:99-108 | witness: a block headed by two matching lines is dropped |
| Robots.SecondMatchingGroupIgnored | internal/ol/robots.go:99-108 | the second of two matching groups in a row is ignored |
| RobotsGate.ProcessJob | cmd/worker/main.go:415-613 | a job requests only its own URL; a refused URL is requested if and only if it is a search URL and the expansion is reached, then once; any other URL is requested, until a request succeeds, the wait after it is cancelled or retryMax retries are used up, and once more for a search |
| RobotsGate.SearchRefused | cmd/worker/main.go:457-475 | witness: under the rule /search every search URL is refused |
| Robots.Allowed | internal/ol/robots.go:27-38 | refused exactly when a rule is a prefix of the normalised path |
| Robots.NormalizeMonotone | internal/ol/robots.go:40-49 | extending a path extends its normal form |
| Robots.RefusalIsPrefixClosed | internal/ol/robots.go:23-38 | every extension of a refused path is refused |
| Histogram.CumulativeCounts | cmd/worker/worker_metrics.go:133-138 | with increasing bounds the first i+1 buckets hold exactly the observations up to bound i |
| Histogram.InfinityCounts | cmd/worker/worker_metrics.go:139-143 | the +Inf bucket holds every observation |
| Histogram.BoundsSorted | cmd/worker/worker_metrics.go:25-40 | both bucket lists are increasing |
| Histogram.Histogram.Observe | cmd/worker/worker_metrics.go:159-174 | a positive duration is counted once, in its bucket, sum and count; others are ignored |
| Histogram.Histogram.Append | cmd/worker/worker_metrics.go:133-144 | each printed bucket is the number of observations up to its bound, and +Inf equals the count |
| Histogram.BucketInNanoseconds | cmd/worker/worker_metrics.go:163-170 | the bucket is the first whose bound, in seconds, is at least the duration in nanoseconds |
| Histogram.BucketsLeadCount | cmd/worker/worker_metrics.go:171-173 | at every step of every interleaving of observers the bucket total exceeds the count by exactly the observers between first and third add |
| Histogram.FreshBucketsLeadCount | cmd/worker/worker_metrics.go:159-174 | so on every histogram that starts at zero, with the sum behind by the observers between first and second add |

## Left out

- Kafka, Redis, Neo4j and HTTP clients, JSON encoding, contexts and timers: they appear only as answers and as steps that may happen at any time.
- Duplicate nodes from concurrent MERGE transactions without uniqueness constraints: a MERGE is one atomic update here.
- AtLeastOnceIsExactlyOnce: one partition per topic and no failed writes, as the special case without side conditions; `PartitionedExactlyOnce`, `ReplayIsSomeCleanPass` and `ReplayWithLosses` cover partitions and failures.
- Consumer-group rebalances and the expiry of dedupe keys.
- What closing the commit channel does to a goroutine that still has to send, beyond showing that the situation exists.
- CONCURRENT_JOBS below 1, where the channel capacity is not twice the number of slots.
- 64-bit wrap-around of offsets and counters, and float64 rounding of latencies and bucket bounds (the model compares exact reals).
- Unicode case folding and white space, and the line-length limit of the robots.txt scanner: strings are treated as ASCII.
- Allow rules and the longest-match rule of section 2.2.2 of RFC 9309: the robots.txt readings are about which Disallow lines apply.
- The JSON node parsers, the API handlers, proxy selection, metrics text, loadgen and kafka-check: field copying and I/O, with only easy claims to make.
- newWorker defaults and the nil-writer cases used by tests.
