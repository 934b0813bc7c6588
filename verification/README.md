# GoProxy: a verified model

GoProxy takes targets in, drops duplicates, checks each target as a proxy, scores the ones
that work, stores them, writes them to files, and rechecks them from a daemon. This project
models the parts of it that keep state and proves what they promise. Every probe, clock
reading and provider answer is an arbitrary input.

| file | models |
|---|---|
| `Rows.dfy` | the proxies table, the upsert and the purge |
| `Store.dfy` | the store as a class: batches, fallback, flush, committer, drain |
| `StoreProtocol.dfy`, `StoreRun.dfy` | the same store as a step system with all its goroutines interleaved, and the class's methods as runs of it |
| `Dedup.dfy` | the 64-shard duplicate filter and its cleanup |
| `Text.dfy`, `Ingest.dfy` | lines, addresses and URLs; reading targets; the round trip through the exported files |
| `Worker.dfy` | one job from check to counters, files and store |
| `PipelineRun.dfy`, `Stats.dfy` | workers, bounded queue, counters bumped one at a time; the history ring |
| `RecheckPool.dfy` | one recheck cycle of the daemon |
| `Exporter.dfy`, `FileSets.dfy` | appends, the bulk rewrite, and which proxies each file lists |
| `GeoIP.dfy`, `Resolver.dfy`, `LookupRun.dfy` | the two-level cache, the concurrent lookups and the batch worker; the flush and the lookup as runs of their steps |
| `Socks.dfy` | SOCKS4 and SOCKS5 messages over a connection with arbitrary chunks |
| `Judge.dfy`, `Score.dfy`, `Checker.dfy` | judge latencies and choice, the score, detection and the result of a check |

Code that changes state in place is a class whose methods are proved against specification
functions. Where goroutines interleave, each channel operation, transaction, counter
increment or cache access is one step of a state machine, and the theorems hold in every
state reachable by any sequence of steps. `dafny verify dfyconfig.toml` verifies everything.

Names to read first: `StoreProtocol.ExactlyOnePlace`, `Rows.RowIsItsHistory`,
`Dedup.ShardingIsInvisible`, `Ingest.AliveUrlRoundTrip`, `FileSets.BulkEqualsIncremental`,
`PipelineRun.CountersLayered`, `GeoIP.CachingIsInvisible`, `GeoIP.OneReplyEach`,
`Socks.CheckSocks5`, `Judge.PoolSettles`.

## Where the code differs from what is said about it

The model follows the code.

- README.md:16 and :44 describe protocol detection as a race; the code tries one protocol
  after the other in a fixed order (`Checker.DetectionIgnoresSpeed`).
- README.md:109 and the comment at pkg/storage/exporter.go:100 give fast.txt as below 500 ms;
  the code takes 1 to 500 ms inclusive.
- README.md:20 gives the GeoIP window as 50 ms; the code has 40 ms. The model has no duration.
- pkg/storage/sqlite.go:211 says Flush commits all buffered items; it does not reach the
  committer's own buffer (`StoreProtocol.FlushLeavesBuffers`, `StoreProtocol.FlushMissesTheCommitter`).
- pkg/model/stats.go:126 says the history is oldest to newest; that is so from the 119th push
  on (`Stats.ChronologicalIff`).
- Stop (pkg/pipeline/pipeline.go:246-249) cancels before it waits, so it can leave counted
  jobs unchecked in the queue (`PipelineRun.StopAbandonsAJob`, `PipelineRun.StopScansAllIff`).
- A proxy sent while the store closes can stay uncommitted (`StoreProtocol.LateSendIsStranded`,
  `StoreProtocol.StrandedForGood`).
- The duplicate filter reads the clock before it takes the lock, so a cleanup may overtake
  a check (`Dedup.ShardingIsInvisibleIff`, `Dedup.StaleReadingDiffers`) and two acceptances of
  one key may be less than the window apart (`Dedup.AcceptancesAreApartIff`).
- The comment at pkg/storage/exporter.go:170 says that the rewrite leaves only living proxies in
  the output files; a file in which no living proxy belongs keeps its old lines
  (`FileSets.RewriteIsRebuildIff`, `FileSets.StaleLineStays`).
- The fallback provider may put "XX" into the subnet cache (`GeoIP.SubnetCacheCleanIff`,
  `GeoIP.FreshAnswerCleanIff`, `GeoIP.FallbackPoisonsSubnet`).
- The SOCKS check accepts a user-name method it never completes (`Socks.MethodIsNotLookedAt`)
  and fails on an answer split after four bytes (`Socks.ChunkingDecides`).
- A custom judge without configured ones is dropped (`Judge.BuildList`).
- A third check that succeeds can lower the score (`Score.SuccessHelpsIff`).
- Auto-detected HTTP proxies are called elite (pkg/checker/checker.go:90-96), although the
  comment there speaks of a conservative assignment (`Checker.CheckIPPort`).

## Model

| member | source | states |
|---|---|---|
| `Rows.RowIsItsHistory` | pkg/storage/sqlite.go:243-261 | after any run of upserts and purges a key is stored exactly if it was committed since its last purge, and every column equals its closed form over those commits: counters, length of the trailing dead run, latest alive time, rounded rate |
| `Rows.MergeSummarizes` | pkg/storage/sqlite.go:254-261 | one more commit keeps the closed form |
| `Rows.UptimeBounds` | pkg/storage/sqlite.go:257-258 | rounding gives two places, stays in 0..100 and within half a hundredth of the exact percentage |
| `Rows.UptimeIsSuccessRate` | pkg/storage/sqlite.go:257-258 | after at least one update the denominator is positive and the stored uptime is the success percentage to two places; a fresh insert is exempt, since its uptime is never computed |
| `Rows.AliveIffNoFailures` | pkg/storage/sqlite.go:255-256 | over any run that binds consistent rows, every stored row is alive exactly when it has no consecutive failure |
| `Rows.PurgeKeepsAlive` | pkg/storage/sqlite.go:490 | a purge keeps a row exactly if it is alive, or has failed less often in a row than the bound and was last alive no earlier than the cutoff, and changes none it keeps |
| `Rows.StampedUpsert` | pkg/storage/sqlite.go:268-298 | one commit at a clock reading, column by column: last_checked is the reading, dead or alive, last_alive is the reading exactly if alive, first_seen the one there, the bound one or the reading; no other row changes |
| `Rows.PurgedByFailures` | pkg/storage/sqlite.go:490 | a dead row inserted alive and over the failure bound, whatever its age, had that many dead commits in a row just before |
| `Rows.ExistingRowCounts` | pkg/storage/sqlite.go:254-255 | an existing row's counters are their start plus its alive and dead commits, whatever else is in the log |
| `Rows.InsertedRowCounts` | pkg/storage/sqlite.go:238-242 | a row first inserted by the log is off from its commit counts by exactly what the insert bound in excess |
| `Rows.ExistingRowIgnoresOrder` | pkg/storage/sqlite.go:254-255 | two orders of the same commits leave the counters of an existing row equal |
| `Rows.InsertedRowIgnoresOrderIff` | pkg/storage/sqlite.go:238-255 | for a row not yet there, two orders agree exactly if their first commits bound the same excess |
| `Rows.PipelineInsertIgnoresOrder` | pkg/pipeline/pipeline.go:95-114 | inserted by the pipeline with (1, 0), a row counts exactly its alive and its dead commits in every order |
| `Rows.BatchingIsInvisible` | pkg/storage/sqlite.go:227-302 | however commits are cut into transactions, the table is the one of the whole log |
| `Store.SQLiteStore.Execute` | pkg/storage/sqlite.go:271-298 | stamps the proxy, then upserts exactly what it now holds; in columns: last_checked is the reading even of a dead proxy, last_alive the reading exactly if alive, first_seen the reading if it was zero; no other proxy or row changes |
| `Store.SQLiteStore.FlushBatch` | pkg/storage/sqlite.go:227-302 | the table after a batch is the fold of its stamped commits in order, also when one proxy is in the batch twice; in columns, every key committed has the reading as last_checked, its last values, and last_alive and first_seen as its commits decide, and no other key changes |
| `Store.SQLiteStore.CommitSingleProxy` | pkg/storage/sqlite.go:304-360 | the fallback commits the same stamped upsert as a batch of one, with the same columns |
| `Store.SQLiteStore.SaveOrUpdateProxy` | pkg/storage/sqlite.go:157-165 | queues if there is room and then leaves table and proxy alone, commits on the spot otherwise; nothing is refused |
| `Store.SQLiteStore.PurgeDeadProxies` | pkg/storage/sqlite.go:488-495 | in columns: a row stays exactly if it was there and is alive, or has fewer failures in a row than the bound and was last alive within the age; rows that stay are unchanged, and the result is how many went |
| `Store.BatchIsWritten` | pkg/storage/sqlite.go:268-301 | what a stamped batch leaves under each key, column by column, given the values committed for it in order |
| `Store.SQLiteStore.Flush` | pkg/storage/sqlite.go:212-225 | empties the channel and commits what was in it, in order, as one batch |
| `Store.SQLiteStore.Iterate` | pkg/storage/sqlite.go:175-207 | one turn of the committer: the buffer stays below a full batch, and exactly a full batch or a ticked non-empty one is committed |
| `Store.SQLiteStore.Drain` | pkg/storage/sqlite.go:177-193 | after the close everything held and queued is committed, once, in order, with the n-th batch stamped by the n-th reading, although proxies may repeat and are stamped on the way |
| `Store.FirstSeenOnce` | pkg/storage/sqlite.go:243-261 | logs that differ in first-seen times only, and not where a key comes first, give the same table |
| `StoreRun.FlushIsARun` | pkg/storage/sqlite.go:212-225 | from every reachable state an uninterrupted Flush is a run of one Flush call's steps, to exactly the state that `Store.SQLiteStore.Flush` describes |
| `StoreRun.IterateIsARun` | pkg/storage/sqlite.go:175-207 | an uninterrupted turn of the committer is a run of committer steps with the outcome that `Store.SQLiteStore.Iterate` describes |
| `StoreRun.DrainIsARun` | pkg/storage/sqlite.go:177-193 | an uninterrupted drain is a run of committer steps until it returns, with the table that `Store.SQLiteStore.Drain` describes |
| `StoreRun.SaveIsARun` | pkg/storage/sqlite.go:157-165 | an uninterrupted save is one send when there is room and a fallback with its commit otherwise, with the table that `Store.SQLiteStore.SaveOrUpdateProxy` describes |
| `StoreProtocol.EveryRunIsSafe` | pkg/storage/sqlite.go:157-225 | conservation, buffer bounds, and the table as the replay of its events, whose upserts are in order the stamped committed proxies, hold in every reachable state |
| `StoreProtocol.EveryRunIsConsistent` | pkg/storage/sqlite.go:256 | from a consistent table every row in the queue, in hand or bound by an upsert is alive exactly when it has no consecutive failure |
| `StoreProtocol.ExactlyOnePlace` | pkg/storage/sqlite.go:157-225 | in every interleaving an accepted proxy is in exactly one of channel, committer buffer, a Flush buffer, a fallback or the committed log, and nothing else is in any of them |
| `StoreProtocol.ShapedByStep` | pkg/storage/sqlite.go:171-207 | channel within capacity, committer buffer below a full batch except while committing, empty once returned |
| `StoreProtocol.CompleteIff` | pkg/storage/sqlite.go:157-225 | everything accepted is committed exactly when channel, buffer, Flush calls and fallbacks are all empty |
| `StoreProtocol.CompleteReachesTable` | pkg/storage/sqlite.go:227-302 | when everything accepted is committed, the upserts that made the table are those of the accepted proxies, each once, stamped |
| `StoreProtocol.ClosedStoreIsComplete` | pkg/storage/sqlite.go:558-562 | if nothing is sent after Close, then with the committer returned and no call in progress everything accepted is committed and in the table, whatever ran before and beside |
| `StoreProtocol.ReturnedCommitterIff` | pkg/storage/sqlite.go:177-193 | without that condition, all is committed exactly if the channel is empty |
| `StoreProtocol.LateSendIsStranded` | pkg/storage/sqlite.go:177-193 | a reachable run in which a proxy sent after the drain stays in the channel |
| `StoreProtocol.StrandedForGood` | pkg/storage/sqlite.go:177-193 | once the committer has returned, what is in the channel stays uncommitted whatever happens, unless a Flush takes it |
| `StoreProtocol.DrainProgress` | pkg/storage/sqlite.go:177-193 | while draining the committer can always step and each of its steps lowers the remaining work, which no other step without a send raises |
| `StoreProtocol.DrainTerminates` | pkg/storage/sqlite.go:177-193 | on any continuation without sends the committer takes a bounded number of steps, whatever the others do |
| `StoreProtocol.FlushLeavesBuffers` | pkg/storage/sqlite.go:211-225 | a Flush, returning after a commit or with nothing found, leaves everything committed exactly if nobody else holds anything, which its comment promises unconditionally |
| `StoreProtocol.FlushMissesTheCommitter` | pkg/storage/sqlite.go:211-225 | a reachable run in which Flush returns while a proxy is in the committer's own buffer |
| `StoreProtocol.StoredRowsAgree` | pkg/storage/sqlite.go:256 | in every reachable state a stored row is alive exactly when its consecutive failures are 0 |
| `StoreProtocol.LastAliveIsLatestCommit` | pkg/storage/sqlite.go:259 | in every reachable state a row's last_alive is the commit time of its latest alive commit, no later commit being alive |
| `StoreProtocol.LastCheckedIsLatestCommit` | pkg/storage/sqlite.go:273 | in every run a row's last_checked is the clock reading of the step that last committed its key, alive or dead; without one the row is as the run found it |
| `StoreProtocol.ItemsAreSent` | pkg/pipeline/pipeline.go:96-126 | in every run each accepted proxy was sent by a step with that key and those values: from the pipeline alive, with one success, no failure and the times it was found at; from the daemon with that outcome |
| `StoreProtocol.FreshRowCounts` | pkg/storage/sqlite.go:238-255 | in every run a row that the pipeline inserted counts exactly its alive and its dead commits since, whatever their order |
| `StoreProtocol.DaemonMemoryReachesTable` | pkg/daemon/daemon.go:139-161 | in every run, when a recheck is committed and nobody wrote its key since the row was read, the table takes the failure count and liveness of the proxy in memory and keeps them until the key is written or purged; whoever wrote in between, it takes liveness, latency, anonymity and score from the outcome and the other columns as they were read |
| `StoreProtocol.DaemonMemoryAgrees` | pkg/daemon/daemon.go:139-161 | the same for one list of events: purges between the read and the commit do not matter |
| `StoreProtocol.DaemonMemoryAgreesIff` | pkg/daemon/daemon.go:139-161 | with other writers the counts agree exactly if the check succeeded or the row still has the count the daemon read |
| `StoreProtocol.PurgeStepIsDeserved` | pkg/daemon/daemon.go:175-176 | in every reachable state a purged row is dead; one inserted alive and over the failure bound had just failed that many commits in a row; any other was last alive before the cutoff |
| `StoreProtocol.PurgeStepRemovesIff` | pkg/storage/sqlite.go:488-495 | in every reachable state a purge removes a row exactly if it is dead and over the failure bound or last alive before the cutoff, and keeps the others as they are |
| `Dedup.HashKey` | pkg/pipeline/dedup.go:79-83 | the loop computes 32-bit FNV-1a of the whole key |
| `Dedup.KnownHashes` | pkg/pipeline/dedup.go:79-83 | the published FNV-1a test vectors of the empty text and of "foobar" |
| `Dedup.ShardedDeduplicator.constructor` | pkg/pipeline/dedup.go:22-39 | 64 empty shards; a window that is not positive becomes ten minutes |
| `Dedup.ShardedDeduplicator.CheckAndSet` | pkg/pipeline/dedup.go:43-58 | the answer is whether the key's shard lacks it within the window, and only that shard changes, only when new |
| `Dedup.ShardedDeduplicator.CleanupShard` | pkg/pipeline/dedup.go:66-75 | the deleting loop leaves exactly the entries within the window |
| `Dedup.ShardedDeduplicator.CleanupPass` | pkg/pipeline/dedup.go:64-76 | one tick sweeps all 64 shards with one reading |
| `Dedup.ShardsAgree` | pkg/pipeline/dedup.go:43-77 | the shards hold what one never-cleaned map holds, except entries some cleanup found expired |
| `Dedup.ShardingIsInvisible` | pkg/pipeline/dedup.go:43-77 | with cleanups at any moments on any shards, every answer is that of one plain map that is never cleaned |
| `Dedup.AnswerDiffersIff` | pkg/pipeline/dedup.go:43-77 | while all answers were those of one plain map, the next differs exactly if the plain map rejects it and a cleanup of its shard since the remembered acceptance read a time at least the window later |
| `Dedup.ShardingIsInvisibleIff` | pkg/pipeline/dedup.go:43-77 | over a whole run the exact condition, on the readings and the plain map alone, under which sharding and cleanups never show |
| `Dedup.StaleReadingDiffers` | pkg/pipeline/dedup.go:47-48 | for every key and positive window, a run in which they do show: the reading of a check predates a cleanup that overtakes it |
| `Dedup.AcceptancesAreApart` | pkg/pipeline/dedup.go:43-77 | over a whole run with timely readings, checks between the shards of one cleanup pass included, two acceptances of one key are at least the window apart |
| `Dedup.AcceptancesAreApartIff` | pkg/pipeline/dedup.go:43-77 | over any run all acceptances of one key are at least the window apart exactly if no check shows a sweep, a condition on the readings and the plain map alone |
| `Dedup.RejectionHasCause` | pkg/pipeline/dedup.go:51-54 | in any run, whatever the cleanups read, a rejection has an acceptance of the same key less than the window before |
| `Text.ItoaInjective` | pkg/pipeline/pipeline.go:181 | decimal printing of ports is injective, negative ones included |
| `Text.AtoiOfItoa` | pkg/pipeline/pipeline.go:210 | every integer printed is parsed back, clamped with an error beyond 64 bits |
| `Text.TrimOfPadded` | pkg/pipeline/pipeline.go:170 | ASCII blanks around a text are trimmed and nothing else |
| `Text.SplitOfPlainHostPort` | pkg/pipeline/pipeline.go:208 | splitting a printed host and port gives both back |
| `Text.SplitOfBracketed` | pkg/pipeline/pipeline.go:208 | a host in brackets, colons and all, and its port are split apart |
| `Text.SplitFails` | pkg/pipeline/pipeline.go:208 | without a colon, or with two of them outside brackets, nothing is split |
| `Text.ScanOfRender` | pkg/pipeline/pipeline.go:159-170 | scanning a file of plain lines gives exactly these lines |
| `Text.ScanLineCRLF` | pkg/pipeline/pipeline.go:159-170 | a line ended by carriage return and newline is delivered without either |
| `Text.ScanLongLine` | pkg/pipeline/pipeline.go:161 | a line of a megabyte or more ends the scan with an error |
| `Exporter.Exporter.AppendLine` | pkg/storage/exporter.go:144-168 | appends one line to one file through the handle pool and touches no other file |
| `Exporter.Exporter.WriteAlive` | pkg/storage/exporter.go:75-141 | appends exactly the lines of the filing rules, then the JSON and CSV ones, in order |
| `Exporter.Exporter.Collect` | pkg/storage/exporter.go:189-220 | groups the lines of one proxy as if grouped from the list of all lines so far |
| `Exporter.Exporter.WriteGroups` | pkg/storage/exporter.go:224-232 | overwrites each grouped file and no other, in whatever order the map is walked |
| `Exporter.Exporter.SyncAliveFiles` | pkg/storage/exporter.go:172-235 | rewrites every file an alive proxy maps to from the alive ones in order, drops all handles, leaves other files alone |
| `Exporter.FileContentIsRender` | pkg/storage/exporter.go:227-230 | joining with newlines and closing with one is one newline after each line |
| `FileSets.AppendedContent` | pkg/storage/exporter.go:144-150 | after any list of appends a file is its old content plus its own lines in order |
| `FileSets.IncrementalContent` | pkg/storage/exporter.go:75-113 | writing proxies one by one leaves in each text file its old content plus the lines filed to it |
| `FileSets.BulkEqualsIncremental` | pkg/storage/exporter.go:172-235 | each file the rewrite touches is what one-by-one writing of the alive proxies into empty files gives; every other file is unchanged |
| `FileSets.RewriteIsRebuildIff` | pkg/storage/exporter.go:170-235 | a file is after the rewrite what a rebuild from empty files gives exactly if some alive proxy of the list belongs in it or it had no content |
| `FileSets.StaleLineStays` | pkg/storage/exporter.go:200-205 | for every proxy found alive but no longer elite, alone in the list, elite.txt still names it after the rewrite |
| `FileSets.AppendAfterRewrite` | pkg/storage/exporter.go:75-113 | a proxy written after a rewrite continues each rewritten file as if there had been no rewrite |
| `FileSets.AliveFileLists` | pkg/storage/exporter.go:82-84 | alive.txt lists every proxy, in order |
| `FileSets.AliveUrlFileLists` | pkg/storage/exporter.go:82-84 | alive_url.txt lists every proxy as a URL, in order |
| `FileSets.EliteFileLists` | pkg/storage/exporter.go:93-94 | elite.txt lists exactly the elite proxies |
| `FileSets.SocksEliteFileLists` | pkg/storage/exporter.go:93-98 | socks5_elite.txt lists exactly the elite SOCKS5 proxies |
| `FileSets.QualityFilesList` | pkg/storage/exporter.go:100-106 | fast.txt lists the proxies of 1 to 500 ms and high_quality.txt those of score 80 or more |
| `FileSets.ExtraFilesList` | pkg/storage/exporter.go:115-149 | proxies.jsonl gains one JSON line and proxies.csv one CSV line for each proxy written, in order, if asked for |
| `FileSets.ProtocolFileLists` | pkg/storage/exporter.go:86-90 | each protocol file lists exactly the proxies of its protocol |
| `FileSets.AliveIsUnionOfProtocols` | pkg/storage/exporter.go:82-90 | with splitting on, alive.txt is the multiset union of the five protocol files |
| `FileSets.CountryFileLists` | pkg/storage/exporter.go:108-111 | each country file lists exactly the proxies of its country; no other rule writes to it |
| `FileSets.CountryMembers` | pkg/storage/exporter.go:108 | the proxies of a country file are those with its code, when countries are split off and the code is neither empty nor "XX" |
| `FileSets.CountryProtocolFileLists` | pkg/storage/exporter.go:112 | each country-protocol file lists exactly the proxies of both |
| `FileSets.CountryIsUnionOfProtocols` | pkg/storage/exporter.go:108-113 | each country file is the multiset union of its country-protocol files |
| `FileSets.SocksEliteIsInBoth` | pkg/storage/exporter.go:93-98 | socks5_elite.txt is a subsequence of elite.txt and of socks5.txt |
| `Ingest.DedupKeyInjective` | pkg/pipeline/pipeline.go:181 | keys of colon-free protocols are equal only for equal jobs, even when the address contains colons |
| `Ingest.DedupKeyClash` | pkg/pipeline/pipeline.go:181 | with a colon in a protocol two different jobs share a key |
| `Ingest.BareAddress` | pkg/pipeline/pipeline.go:228-235 | an address alone is a job with the default port, or 8080 without one, and the default protocol |
| `Ingest.BareAddressWithColons` | pkg/pipeline/pipeline.go:228-235 | so is an IPv6 address from which no port can be split off |
| `Ingest.HostPortLine` | pkg/pipeline/pipeline.go:216-225 | host and port are a job exactly if the port is 1 to 65535; otherwise the line counts only if it is itself an address |
| `Ingest.AnyUrlLine` | pkg/pipeline/pipeline.go:203-213 | a URL is a job with its scheme in lower case and its port or, without one, the default port |
| `Ingest.MalformedLine` | pkg/pipeline/pipeline.go:200-238 | what is neither URL, nor host and port, nor address is no job |
| `Ingest.BlanksAndComments` | pkg/pipeline/pipeline.go:170-173 | blank lines and comments give nothing, and blanks around a line change nothing |
| `Ingest.Pipeline.IngestFromReader` | pkg/pipeline/pipeline.go:158-197 | the whole loop over any input, clock and cancellation, with any cleanups of the filter between its turns, is the fold of its lines; it reports a too long line, the end or the cancellation |
| `Ingest.Pipeline.Ingest` | pkg/pipeline/pipeline.go:163-193 | one turn: at most one job is filtered, counted and pushed, in that order |
| `Ingest.Pipeline.Push` | pkg/pipeline/pipeline.go:180-193 | a new job is counted, then pushed unless cancelled in between; a duplicate changes only the record of checks |
| `Ingest.Pipeline.Filter` | pkg/pipeline/pipeline.go:180-184 | asks the sharded filter about the key of the job and records its answer |
| `Ingest.Pipeline.CleanUp` | pkg/pipeline/dedup.go:60-77 | the cleanup goroutine's part between two turns changes the filter's shards and nothing else of ingestion |
| `Ingest.IngestAccounted` | pkg/pipeline/pipeline.go:186-193 | every new job is counted and pushed, except at most one counted and not pushed on cancellation |
| `Ingest.CancellationStops` | pkg/pipeline/pipeline.go:163-193 | a cancellation seen before a line leaves it alone; seen at the push it leaves a new job counted and not pushed |
| `Ingest.AllJobsAreOffered` | pkg/pipeline/pipeline.go:158-197 | of any input, uncancelled, the filter is asked about exactly the jobs of its lines, in order |
| `Ingest.IngestAnswered` | pkg/pipeline/pipeline.go:180-184 | the answers are the filter's, each to the check of its own job, with the cleanups in between |
| `Ingest.RejectedJobWasSeen` | pkg/pipeline/pipeline.go:180-184 | whatever cleanups run in between and whatever they read, a job is turned away only because the very same job was let through less than the window earlier |
| `Ingest.AddressReadsBack` | pkg/model/proxy.go:72-74 | a printed address is parsed back to its host and port with the default protocol |
| `Ingest.UrlReadsBack` | pkg/model/proxy.go:77-79 | a printed URL is parsed back to exactly its job |
| `Ingest.AliveUrlRoundTrip` | pkg/pipeline/pipeline.go:163-238 | feeding back the alive_url.txt that WriteAlive wrote offers exactly the original jobs in order, whatever cleanups of the filter fall in between; those pushed are the ones the filter passes |
| `Ingest.AliveRoundTrip` | pkg/pipeline/pipeline.go:163-238 | the same for alive.txt, with the default protocol |
| `Ingest.AddressesReadBack` | pkg/pipeline/pipeline.go:228-235 | a file of addresses alone is offered as exactly these, in order, with the default port and protocol |
| `Ingest.DistinctJobsAllPass` | pkg/pipeline/pipeline.go:180-184 | when no two jobs are equal the filter passes all, so nothing is lost in the round trip |
| `Worker.ProcessJob` | pkg/pipeline/pipeline.go:90-133 | a failed check is counted and leaves files and store alone; a success is counted once at each level, appended to its files and accepted by the store as a fresh row with one success, or committed when the queue is full; the row queued or inserted has one success, no failure and, column by column, what the check measured and located |
| `Worker.SaveNew` | pkg/pipeline/pipeline.go:123-126 | the store takes the new proxy itself, last in its queue, or commits its stamped row |
| `Worker.ExportedIsReadBack` | pkg/pipeline/pipeline.go:95-121 | what a worker exports of an IPv4 target is ingested again as that target with the protocol found |
| `Worker.NameAsksForIt` | pkg/pipeline/pipeline.go:91 | the written name of a protocol asks for a check of exactly that protocol |
| `Worker.AskedFor` | pkg/checker/checker.go:76-125 | which protocol texts ask for detection, which for each protocol, and that all others ask for nothing that is probed |
| `Worker.MillisecondsTruncate` | pkg/pipeline/pipeline.go:106 | the latency written is the whole milliseconds of a duration in nanoseconds |
| `Worker.MeasurementsFile` | pkg/storage/exporter.go:84-106 | of one check, what alive.txt, elite.txt, fast.txt and high_quality.txt get: fast.txt from 1000000 ns to below 501000000 ns |
| `Worker.CountryFiles` | pkg/storage/exporter.go:108-112 | of one check, which country file gets its address |
| `Worker.FreshScore` | pkg/pipeline/pipeline.go:115 | in the score of a proxy just found neither failures nor history count |
| `PipelineRun.EveryRunIsSafe` | pkg/pipeline/pipeline.go:73-92 | queue conservation, one place for each job and the counter levels hold in every reachable state, cancellation included |
| `PipelineRun.EachJobInOnePlace` | pkg/pipeline/pipeline.go:73-92 | each counted job is scanned, in one worker, in the channel or the one not pushed, exactly once |
| `PipelineRun.AfterStop` | pkg/pipeline/pipeline.go:246-249 | when all workers have gone, the jobs counted and never scanned are exactly those left in the channel and at most one unpushed |
| `PipelineRun.WorkersFinish` | pkg/pipeline/pipeline.go:73-135 | on any continuation that counts no job the workers take at most the steps of the work at hand: their own, seven for each queued job and for one being pushed |
| `PipelineRun.StopReturns` | pkg/pipeline/pipeline.go:246-249 | the wait of Stop ends in every schedule: after the cancellation the workers' steps are bounded, and until all have gone one of them can take another |
| `PipelineRun.StopScansAllIff` | pkg/pipeline/pipeline.go:246-249 | once stopped, every way on that counts no new job scans all that was counted exactly if nothing is queued or waiting to be pushed |
| `PipelineRun.StopAbandonsAJob` | pkg/pipeline/pipeline.go:246-249 | for any number of workers and any positive capacity a run that ends with a counted job still queued |
| `PipelineRun.RemainingIsNeverNegative` | pkg/pipeline/dashboard.go:43-64 | reading scanned and any number of steps later queued never gives a negative remainder, so the clamp never fires |
| `PipelineRun.CountersLayered` | pkg/model/stats.go:70-103 | at every step scanned >= alive + dead and alive >= protocols >= anonymities >= countries, with equality when no call is under way |
| `PipelineRun.StageAddsOne` | pkg/model/stats.go:70-103 | each increment of a call raises exactly its own level by one |
| `PipelineRun.StageRaises` | pkg/model/stats.go:70-103 | each stage raises the counters that are for the result, protocol, anonymity and country by name, and no other |
| `PipelineRun.CountersAreTallies` | pkg/model/stats.go:70-103 | in every run each counter is the number of results it is for, less those whose call has still to raise it; at rest exactly that number |
| `Stats.RecordedAddsOne` | pkg/model/stats.go:70-103 | a whole call on a well-formed result raises every level it reaches by exactly one |
| `Stats.RecordedRaises` | pkg/model/stats.go:70-103 | a whole call raises exactly the counters that are for the result |
| `Stats.Stats.constructor` | pkg/model/stats.go:51-62 | zero counters and a prefilled ring |
| `Stats.Stats.IncQueued` | pkg/model/stats.go:65-67 | one more queued, nothing else |
| `Stats.Stats.RecordResult` | pkg/model/stats.go:70-103 | the fields change as the staged counters of the step system do: one more scan, and one more for each counter the result is for |
| `Stats.Stats.PushHistoryPoint` | pkg/model/stats.go:115-124 | the ring holds the pushed points, the new one last |
| `Stats.Stats.GetHistory` | pkg/model/stats.go:127-135 | returns the ring from the slot after the latest push around to it |
| `Stats.HistoryEndsWithPushes` | pkg/model/stats.go:115-135 | for every number n of pushes the last min(n, 120) points returned are the last pushes in order; from 120 on, exactly those |
| `Stats.ChronologicalIff` | pkg/model/stats.go:126-135 | with pushes in time order the result is oldest to newest exactly from the 119th push on; before, the comment is false |
| `RecheckPool.Recheck` | pkg/daemon/daemon.go:138-161 | in columns: after a success latency, anonymity, score, liveness and last_alive are those of the outcome and the failures in a row 0, after a failure only liveness, the count plus one and the score change; the proxy is then queued, or the table takes these columns at once |
| `RecheckPool.EveryRunIsSafe` | pkg/daemon/daemon.go:112-170 | the invariant of the pool holds in every schedule, cancelled or not |
| `RecheckPool.TalliesAreExact` | pkg/daemon/daemon.go:120-159 | each fed proxy is in exactly one place; aliveList holds each success once and aliveCount is its length, deadCount the rest |
| `RecheckPool.FeedingNeverBlocks` | pkg/daemon/daemon.go:112-169 | as long as a proxy is left to feed there is room in the channel |
| `RecheckPool.EveryRunEnds` | pkg/daemon/daemon.go:131-170 | no schedule has more than 4n + 2 steps beyond one for each worker |
| `RecheckPool.NeverStuck` | pkg/daemon/daemon.go:131-170 | until the channel is closed and all workers have gone, some step other than a cancellation is possible |
| `RecheckPool.CycleResult` | pkg/daemon/daemon.go:131-170 | at the end handled + dropped + queued is the input, no worker dropped more than one, and without cancellation alive + dead is everything |
| `GeoIP.EveryRunObeys` | pkg/geoip/geoip.go:154-313 | in every interleaving of lookups, timeouts, providers and the worker, single stores included: if the provider answers used meet a closed standard, so does everything cached, answered, replied or about to be stored |
| `GeoIP.EveryRunIsSound` | pkg/geoip/geoip.go:154-313 | if every provider answer agrees with one country map constant on each /24, every exact entry and every answer is right or "XX" and every /24 entry is right |
| `GeoIP.CodesAreNamed` | pkg/geoip/geoip.go:154-313 | whatever the providers answer, every cached, answered or replied code is non-empty |
| `GeoIP.CachingIsInvisible` | pkg/geoip/geoip.go:154-230 | with honest providers a lookup answers "XX" or what no cache would; two lookups of one address or one /24 never name two countries |
| `GeoIP.FindsAllowed` | pkg/geoip/geoip.go:278-286 | the worker's answer to a request and all it and the fallback store for it meet the standard its sources meet |
| `GeoIP.MissAnswered` | pkg/geoip/geoip.go:274-289 | a miss is answered by the batch if it names a country, else by the fallback if it names a code, else "XX"; it is kept for the address, and for its /24 unless "XX" |
| `GeoIP.SettledAtOnce` | pkg/geoip/geoip.go:155-168 | what is answered without caches: unknown, invalid, and the two letters of each special range |
| `GeoIP.SubnetOfParts` | pkg/geoip/geoip.go:232-238 | an address of four parts has the /24 of the first three, and nothing else has one |
| `GeoIP.SameSubnetIff` | pkg/geoip/geoip.go:232-238 | two such addresses share a /24 exactly if their first three parts are the same |
| `GeoIP.EveryRunIsOrderly` | pkg/geoip/geoip.go:241-313 | whatever the providers answer, requests pass queue and batch in order, the batch is at most 100, and the unanswered are exactly the queued and the owed |
| `GeoIP.OneReplyEach` | pkg/geoip/geoip.go:254-313 | whatever the providers answer, no request ever gets two replies, one still queued gets none, and when a flush ends every request taken has exactly one |
| `GeoIP.FlushEnds` | pkg/geoip/geoip.go:254-313 | a flush can always go on, whatever the providers answer, each of its steps brings its end nearer and nobody else disturbs it |
| `GeoIP.SubnetCacheCleanIff` | pkg/geoip/geoip.go:278-286 | the worker's answer leaves every /24 free of "XX" exactly if the fallback was not needed, failed, named a country, or the address has no /24 |
| `GeoIP.FreshAnswerCleanIff` | pkg/geoip/geoip.go:404-407 | the same for a lookup's own fallback and for the database: exactly if the answer names a country or there is no /24 |
| `GeoIP.SubnetsStayKnown` | pkg/geoip/geoip.go:154-313 | in every run the subnet cache is free of "XX" as long as no answer "XX" was stored for a /24, whoever asked |
| `GeoIP.FallbackPoisonsSubnet` | pkg/geoip/geoip.go:225-228 | for every such address and answer, a run in which a lookup gives up waiting and its own fallback makes the whole /24 "XX" |
| `Resolver.Resolver.constructor` | pkg/geoip/geoip.go:50-69 | empty caches |
| `Resolver.Resolver.FallbackProvider` | pkg/geoip/geoip.go:377-415 | an answer is stored in both caches and returned, a failure is "XX" and changes nothing |
| `Resolver.Resolver.Lookup` | pkg/geoip/geoip.go:154-230 | a cached answer is returned unchanged; otherwise the first tier with an answer gives it and fills exactly the caches of that tier; no other entry is touched; honest tiers keep the caches right and no code is ever empty; database, /24 cache, embedded table, worker and fallback go in that order |
| `Resolver.Resolver.ReplyFromCache` | pkg/geoip/geoip.go:259-267 | replies to exactly the cached requests, in order |
| `Resolver.Resolver.AnswerMisses` | pkg/geoip/geoip.go:274-289 | answers exactly the uncached requests, in order, each from the caches the one before left |
| `Resolver.Resolver.Flush` | pkg/geoip/geoip.go:254-313 | the batch is answered, hits first, and emptied; caches and replies are those of the specification |
| `Resolver.TierObeys` | pkg/geoip/geoip.go:154-230 | a tier that meets a closed standard keeps the caches at it and answers by it |
| `Resolver.FlushIsARun` | pkg/geoip/geoip.go:254-313 | what Flush leaves is what the worker's single steps leave when nothing intervenes, whatever the providers answer, so every theorem on runs covers it |
| `LookupRun.LookupIsARun` | pkg/geoip/geoip.go:154-230 | from every reachable state a lookup that no worker answers in time is a run of its own steps to exactly the answer and the caches that `Resolver.Resolver.Lookup` describes |
| `Socks.Conn.Read` | pkg/protocol/protocol.go:353-356 | one read takes what has come of the next chunk, up to the room, and moves no chunk border |
| `Socks.Conn.ReadAtLeast` | pkg/protocol/protocol.go:434-437 | succeeds exactly if enough is to come, and stops at exactly the minimum exactly if a chunk ends there |
| `Socks.Conn.ReadFull` | pkg/protocol/protocol.go:353-356 | returns exactly the next n bytes however they are chunked, or fails if fewer are to come |
| `Socks.BuildRequest` | pkg/protocol/protocol.go:371-396 | the buffer filled in place is the CONNECT request |
| `Socks.DecodeOfEncode` | pkg/protocol/protocol.go:371-427 | an independent decoder of sections 4 to 6 of RFC 1928 reads every message back, with what follows it |
| `Socks.RequestReadsBackIff` | pkg/protocol/protocol.go:371-396 | the request decodes to the meant address and port exactly if the port is below 65536 and a domain has at most 255 bytes |
| `Socks.SuccessReplyIsConsumed` | pkg/protocol/protocol.go:398-427 | after method 0 a well-formed success reply of any address kind is consumed exactly; the next byte is the first relayed one |
| `Socks.ConsumedIsASuccessReply` | pkg/protocol/protocol.go:398-427 | conversely what was consumed with reserved byte 0 and a known kind is a success reply and no byte more |
| `Socks.RefusalIsACode` | pkg/protocol/protocol.go:404-406 | among well-formed replies the check refuses exactly those with a nonzero code |
| `Socks.MethodIsNotLookedAt` | pkg/protocol/protocol.go:358-363 | every method but 0xFF is taken for agreement, 2 included |
| `Socks.GreetingOffers` | pkg/protocol/protocol.go:349 | the greeting decodes, by section 3 of RFC 1928, as the offer of methods 0 and 2 |
| `Socks.DefaultRequest` | pkg/protocol/protocol.go:366-369 | without a host the request is for 1.1.1.1, port 80 |
| `Socks.Probe` | pkg/protocol/protocol.go:429-440 | passes exactly if the answer starts with "HTTP/" and no chunk ends after its fourth byte |
| `Socks.ChunkingDecides` | pkg/protocol/protocol.go:434-438 | every such answer passes whole and fails when split after four bytes |
| `Socks.CheckSocks5` | pkg/protocol/protocol.go:348-443 | the outcome up to the relayed answer depends on the bytes alone, not on their chunks, and names the stage that failed; exactly the bytes due by that stage are sent |
| `Socks.Request4ReadsBackIff` | pkg/protocol/protocol.go:473-478 | the SOCKS4 request decodes to the meant address and port exactly for ports below 65536 |
| `Socks.CheckSocks4` | pkg/protocol/protocol.go:447-508 | fails, refuses or passes exactly by eight bytes of reply, the code 0x5A and the relayed answer; sends exactly the nine bytes for the target, and the probe after a success |
| `Judge.SmoothedStaysBetween` | pkg/judge/judge.go:200-205 | the estimate never leaves the range of its start and its samples |
| `Judge.FixedIff` | pkg/judge/judge.go:200-205 | a sample s leaves exactly the estimates s-3 to s alone |
| `Judge.EstimateSettles` | pkg/judge/judge.go:200-205 | under a constant sample the estimate is within three below it after as many rounds as it was off, and stays |
| `Judge.EstimateDecays` | pkg/judge/judge.go:200-205 | from above, n rounds leave (7/10)^n of the distance, up to less than three milliseconds |
| `Judge.PoolSettles` | pkg/judge/judge.go:177-229 | with steady judges the choice becomes and stays the one faster than every other healthy one by more than three milliseconds |
| `Judge.ThreeIsNotEnough` | pkg/judge/judge.go:177-229 | with a lead of exactly three the slower judge can be preferred forever |
| `Judge.BuildList` | pkg/judge/judge.go:117-137 | custom judge first, then the configured ones that resolve; without configured ones the built-in list replaces even the custom one |
| `Judge.ResolvedMembers` | pkg/judge/judge.go:125-131 | the list holds exactly the configured judges that resolve to something |
| `Judge.ResolvedInOrder` | pkg/judge/judge.go:125-131 | the list keeps the order of the configured judges |
| `Judge.Evaluator.constructor` | pkg/judge/judge.go:139-149 | every judge starts healthy with an estimate of 500 |
| `Judge.Evaluator.CheckAllJudges` | pkg/judge/judge.go:177-208 | each judge is updated from its own sample only; a failure keeps the estimate |
| `Judge.Evaluator.PickJudge` | pkg/judge/judge.go:211-229 | the first of the fastest healthy judges; the first judge if none is healthy; the built-in one if there is none |
| `Score.CalculateScore` | pkg/checker/checker.go:162-236 | the accumulated score is the sum of its terms, clamped and rounded: a whole number from 0 to 100 |
| `Score.ScoreNeverRises` | pkg/checker/checker.go:162-236 | more latency, failures, failed checks or idle time, alone or together, never raise the score, for any nondecreasing logarithm and any nondecreasing exponential that is in (0, 1] up to zero |
| `Score.FailureNeverRaises` | pkg/daemon/daemon.go:151-155 | a failed recheck never raises the score, and from the third failure in a row only idle time lowers it further |
| `Score.LatencyEndpoints` | pkg/checker/checker.go:165-172 | as documented, latency costs nothing at zero and the full 45 points from 5000 ms on |
| `Score.LatencyIsLogarithmic` | pkg/checker/checker.go:165-172 | with a true logarithm the penalty below 5000 ms is logarithmic: products of latencies, in tenths of a second plus one, cost the sum |
| `Score.ProtocolsAreOrdered` | pkg/checker/checker.go:182-190 | all else equal SOCKS5 >= HTTPS >= SOCKS4 >= HTTP |
| `Score.ProtocolPoints` | pkg/checker/checker.go:182-190 | unclamped, SOCKS5 is worth four points more than HTTPS, HTTPS two more than SOCKS4 and SOCKS4A, these four more than HTTP and the rest |
| `Score.AnonymityIsOrdered` | pkg/checker/checker.go:174-180 | all else equal elite >= anonymous >= transparent |
| `Score.AnonymityPoints` | pkg/checker/checker.go:174-180 | unclamped, elite is worth eight points more than anonymous or unknown, and these thirty more than transparent |
| `Score.TlsAndJudgePoints` | pkg/checker/checker.go:192-226 | unclamped, TLS is worth six points and further judges three, six, nine and then ten |
| `Score.FailPenaltySaturates` | pkg/checker/checker.go:197-201 | the failure penalty is at its cap exactly from three failures on |
| `Score.FailurePoints` | pkg/checker/checker.go:197-201 | unclamped, the first three failures in a row cost 16, 16 and 18 points |
| `Score.HalfScore` | pkg/checker/checker.go:162-236 | after three failures in a row and nothing else the score is 50 |
| `Score.IdleDecays` | pkg/checker/checker.go:210-217 | with a true exponential the 25 points shrink by the same factor in equal times, and by e in 24 hours |
| `Score.HistoryPoints` | pkg/checker/checker.go:203-208 | from the third check on the penalty is thirty points times the rate of failed checks |
| `Score.ClampedIsNearest` | pkg/checker/checker.go:228-235 | the score is the nearest whole number, halves up, within 0 to 100 |
| `Score.SuccessHelpsIff` | pkg/checker/checker.go:203-208 | one more success never costs points except as the third check of a proxy that failed before |
| `Checker.ProbeOrder` | pkg/protocol/protocol.go:588-603 | no protocol is tried twice, and all four are tried except SOCKS4 on a TLS port |
| `Checker.Priorities` | pkg/protocol/protocol.go:588-603 | on SOCKS ports, TLS ports and all others, exactly when each protocol is the one detected: it is spoken and none that goes before it is |
| `Checker.DetectProtocol` | pkg/protocol/protocol.go:532-560 | the first protocol in priority order that answers before the cancellation, or which of the two failures it was |
| `Checker.DetectionIgnoresSpeed` | pkg/protocol/protocol.go:544-557 | the detected protocol depends on which probes succeed, never on how fast |
| `Checker.UndetectableIff` | pkg/protocol/protocol.go:588-603 | a working proxy goes undetected exactly if all it speaks is SOCKS4 on a TLS port |
| `Checker.CheckIPPort` | pkg/checker/checker.go:40-152 | succeeds exactly if the ping and the right probe do; a success has a supported protocol, a known anonymity, the looked-up country and SSL exactly for HTTPS |
| `Checker.CountryIsNamed` | pkg/geoip/geoip.go:154-230 | in every reachable state of the resolver, whatever the providers answer, a finished lookup has a non-empty code |

## Left out

- Sockets, dialing, TLS, HTTP requests and deadlines: a probe is an arbitrary success or failure, a connection an arbitrary chunked byte stream, and writes to it succeed.
- SQLite itself: the table is a map and a transaction one step that succeeds; a failed Begin or Prepare drops its batch (pkg/storage/sqlite.go:232-235), which is not modelled. Times are compared as instants, not as the text SQLite stores.
- The columns judge_count and speed_kbps, which the upsert does not write.
- url.Parse and net.ParseIP: parameters; the round trip needs only that a plain scheme://host:port URL parses into its parts, and judge URL resolution is a function parameter too.
- Characters outside one byte in keys and lines: a char stands for a byte, in the hash and in the files.
- Floating point: the score, the uptime and the judge average are computed exactly; logarithm and exponential are any functions with the properties named in `Score.Reasonable`.
- Integer widths: counters are unbounded; only the hash, the SOCKS port and the SOCKS length byte wrap.
- JSON and CSV encodings: parameters of the exporter; the CSV header is not written.
- filepath.Join cleaning names with slashes or dots, and files that cannot be opened: file names are used as they are, opening succeeds.
- The order in which the daemon rechecks (pkg/daemon/daemon.go:66-87): its comparator reads the clock while sorting, so no stable order is promised; the pool theorems hold for any order.
- MaxMind, ip-api and ipwho.is: they may answer anything at any time; only `GeoIP.EveryRunIsSound` and `GeoIP.CachingIsInvisible` assume that answers agree with one country map. Which addresses are in a special range or in the embedded table is a function of the address.
- The subset of judge headers and body markers that decide anonymity (pkg/judge/judge.go:288-345): an arbitrary result that the check replaces when unknown.
- Response validation of HTTP and HTTPS proxies, REST handlers, dashboards, Prometheus output, configuration and command line: no state the properties depend on; only the order of two reads in the dashboard is used.
- The target_ok column is always false, as no check sets it; log lines and their colours are not modelled.
- The alive-count cache and GetRandomAliveProxy: time-based and simple.
- Dedup.ShardingIsInvisible: requires that no check uses a reading older than a cleanup already done; the exact condition is `Dedup.ShardingIsInvisibleIff`.
- Ingest.AliveUrlRoundTrip: for hosts of digits and dots, ports 1 to 65535 and the five supported protocols, the domain the files promise it for; IPv6 hosts are printed without brackets.
- FileSets.CountryFileLists: for a country code without an underscore, as ISO codes are, since a code with one could name a country-protocol file.
- FileSets.CountryProtocolFileLists: for proxies whose country codes have no underscore, for the same reason.
- Store.SQLiteStore.Drain, Store.SQLiteStore.Flush, Store.SQLiteStore.Iterate: show the methods without other goroutines between their steps; the interleavings are in StoreProtocol.
- PipelineRun.StopAbandonsAJob: for a positive capacity; a queue of size 0, where a send and a receive are one step, is not modelled.
- LookupRun.LookupIsARun: for a lookup that no worker answers in time; with an answer the worker's own steps come in between, which the theorems of GeoIP cover.
- Resolver.Resolver.Flush: shows the flush without other goroutines between its steps; the interleavings are in GeoIP.
