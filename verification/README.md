# Merit graph, ingestion queue and request limits: a verified model

Dafny models of the parts of this repository that keep an invariant across many steps, with proofs about
whole runs rather than single calls.

- **Merit graph** (`MeritRank*.dfy`). Database triggers keep a weighted graph in step with posts, comments and
  subscriptions. The graph they keep is proved equal to the one that both rebuild procedures compute from the tables, after
  every run of statements the triggers cover; for the three statements they do not cover, deleting a comment with replies,
  deleting a post with comments and an upsert that gives a stored comment another parent, the exact condition under which
  the graph still agrees is proved instead, with a run that breaks it.
- **SQL splitter** (`SqlSplitter*.dfy`, `SqlConstructs.dfy`). The index loop with five flags refines a six-mode automaton; its output is the
  one and only cutting of the text, nothing is lost, and rejoining and splitting again gives the same statements.
- **Comment ingestion** (`Upsert.dfy`, `CommentSort.dfy`, `CommentIngest.dfy`, `CommentFields.dfy`). Kahn's sort with cycle breaking is
  specified completely, every single upsert keeps the parent foreign key, and ingesting a batch twice changes nothing but
  the last-seen stamps.
- **Work queue** (`WorkQueue*.dfy`). Workers claim, finish, fail, crash and overrun; the scheduler recovers. No task is
  lost, exclusion holds exactly as long as no overrun lease is claimed anew, failures are spaced by the backoff.
- **Rate limiting** (`RateLimit.dfy`, `TokenBucketProofs.dfy`, `BucketStoreProofs.dfy`, `RateLimiter.dfy`, `RouteLimits.dfy`).
  Token buckets in an LRU store with a time to live, one store per route group: bounds on what a key can be admitted in
  any window, sufficiency and tightness of the retry delay, survival of recently used keys, independence of the groups.
- **Refresh tokens** (`RefreshToken*.dfy`, `TokenCodec*.dfy`). Rotation chains, permanence of revocation, the cap on active
  tokens with the exact condition under which it holds, and the printed form of a token.
- **Concurrency guard** (`Backpressure*.dfy`, `ConcurrencyGuards.dfy`). Any number of interleaved requests over two levels
  of semaphores: permits are conserved, never idle while someone waits, and requests do not block each other for good.

Each component has a module of values and functions, modules of proofs about them, and, where the program updates state
in place, a class whose methods are tied to those functions (`MeritRankDb`, `CommentIngest.CommentStore`, `WorkQueueDb`,
`RateLimiter`, `RefreshTokenDb`, `ConcurrencyGuards`). A SQL statement, a short transaction on one row or a stretch of code between two awaits is one step.
The methods are tied to functions, and what those functions do is stated again of the
fields and texts themselves (`MeritRankEdges`, `CommentFields`, `SqlConstructs`, and the lemmas whose names end in `Row`, `Rows`, `Is` or
`Iff`). `dafny verify dfyconfig.toml` checks everything.

## How the parts are modelled

- Clocks, fresh ids, random secrets and the choices a query or a scheduler is free to make are parameters or nondeterministic.
  Times and token counts are reals; ids and names are strings.
- The graph is a map from (source, target, context) names to weights. Node names go through the prefixing function, so
  ids that are empty or start with `U`, `B` or `C` can collide; `MeritRank.PrefixCollision` says exactly when, and the
  graph theorems assume plain ids, which are neither.
- The splitter takes the host language's alphanumeric and white-space tests as parameters, assumed disjoint and to treat
  the delimiters as neither.
- A stored token hash verifies against the secret it was made from and no other.
- Where comments in the code and its behaviour differ, the code is followed: eviction is described as revoking the oldest
  active token but picks among expired ones too (`meritmolt/auth/tokens.py:90-98`), and the answer to a reused token claims
  that all sessions were revoked although the session that revoked them is rolled back (`meritmolt/auth/dependencies.py:25-27`).

## Model

| member | source | states |
|---|---|---|
| MeritRank.PrefixCollision | meritmolt/schema/ddl.py:21-32 | exactly which pairs of kind and raw id are given the same node name |
| MeritRankProofs.EdgeIsLink | meritmolt/schema/ddl.py:21-32 | on plain ids, naming an edge and reading a name back are inverse |
| MeritRankEdges.NodeName | meritmolt/schema/ddl.py:21-32 | a node's name is its kind before its id, unless the id is empty or starts with U, B or C |
| MeritRankEdges.PostEdges | meritmolt/schema/ddl.py:162-166 | a post inserted has an edge of weight 1 each way to its author under the name of its board, or "" for none or an unknown one; no other edge changes |
| MeritRankEdges.CommentEdges | meritmolt/schema/ddl.py:184-191 | a comment inserted has an edge of weight 1 each way to its author under the name of its post's board |
| MeritRankEdges.SyncedEdges | meritmolt/schema/ddl.py:103-153 | a sync sets the edge of anyone but the author to the number of their comments or replies without the excluded one, and removes it at none |
| MeritRankEdges.AgreedFollows | meritmolt/schema/ddl.py:403-410 | an agreeing graph has an edge of each subscription's amount in the context "" |
| MeritRankEdges.AgreedPost | meritmolt/schema/ddl.py:412-463 | and under the board's name an edge each way between post and author, and from another user one of the number of their comments |
| MeritRankEdges.AgreedComment | meritmolt/schema/ddl.py:431-477 | and likewise for a comment, its author and other users' replies |
| MeritRankEdges.AgreedOnly | meritmolt/schema/ddl.py:402-478 | and no other edge |
| MeritRankEdges.ContextsFromStart | meritmolt/schema/ddl.py:43-47 | over every run, safe or not, the context of every edge is "" or the name of a board |
| MeritRankEdges.TicksByOne | meritmolt/schema/ddl.py:34-41 | a user's first tick is 1, each next one is one more, and the new row carries it |
| MeritRankEdges.ReingestedRow | textlake/upsert.py:33-55 | an upsert of a stored comment takes the payload's parent if there is one and moves its author's counter by one |
| MeritRankProofs.PutSubscriptionAgrees | meritmolt/schema/ddl.py:208-221 | a subscription inserted or updated keeps the graph equal to what the tables call for |
| MeritRankProofs.DeleteSubscriptionAgrees | meritmolt/schema/ddl.py:208-221 | so does a subscription deleted |
| MeritRankProofs.InsertPostAgrees | meritmolt/schema/ddl.py:156-174 | so does a post inserted |
| MeritRankProofs.InsertCommentAgrees | meritmolt/schema/ddl.py:178-205 | so does a comment inserted, with its two counted upvote edges |
| MeritRankDeletes.DeleteCommentAgreesIff | meritmolt/schema/ddl.py:193-202 | after a comment is deleted the graph agrees exactly when every reply to it was by its own author |
| MeritRankDeletes.DeletePostAgreesIff | meritmolt/schema/ddl.py:167-205 | after a post and its comments are deleted, in any cascade order, the graph agrees exactly when the post had no comments or no named board |
| MeritRankUpdates.ReingestAgreesIff | textlake/upsert.py:33-55 | after a stored comment is upserted the graph agrees exactly when its parent stays, or neither its old nor its new parent is someone else's comment |
| MeritRankRuns.StepAgreesIff | meritmolt/schema/ddl.py:103-221 | each statement keeps the agreement exactly when it is safe in that sense |
| MeritRankRuns.RunAgreesIff | meritmolt/schema/ddl.py:103-221 | over any run the graph agrees after every statement exactly when every statement is safe |
| MeritRankRuns.IncrementalEqualsRebuild | meritmolt/schema/ddl.py:103-221 | after any run of safe statements from empty tables the trigger-kept graph is the bulk-rebuilt one |
| MeritRankRuns.DeletionLeavesEdges | meritmolt/schema/ddl.py:193-202 | a run from empty tables after which deleting a comment that someone else replied to breaks the agreement |
| MeritRankRuns.CascadeLeavesEdges | meritmolt/schema/ddl.py:193-202 | a run after which deleting a commented post on a named board breaks it |
| MeritRankRuns.ReingestionMissesEdge | meritmolt/schema/ddl.py:249-250 | a run from empty tables after which an upsert that gives a stored comment its parent breaks the agreement |
| MeritRankRuns.RunKeepsTickers | meritmolt/schema/ddl.py:34-41 | over any run no tick of a user's counter is carried by two of their rows |
| MeritRankRuns.TickersFromStart | meritmolt/schema/ddl.py:34-41 | so it is from empty tables on |
| MeritRankRebuild.BulkRowExists | meritmolt/schema/ddl.py:402-478 | the bulk query lists every edge the tables call for |
| MeritRankRebuild.BulkRowWeight | meritmolt/schema/ddl.py:402-478 | and gives it the weight the tables call for |
| MeritRankRebuild.BulkEdgesDistinct | meritmolt/schema/ddl.py:402-478 | no two rows of the bulk query name the same edge |
| MeritRankRebuild.BulkLoadAgrees | meritmolt/schema/ddl.py:402-498 | loading the rows in any order builds the graph the tables call for |
| MeritRankRebuild.BulkCount | meritmolt/schema/ddl.py:349-386 | the bulk count is the number of edges and at most the row-by-row total |
| MeritRankDb.Database.SyncCommentUpvoteEdge | meritmolt/schema/ddl.py:103-127 | sets or removes the upvote edge by recounting, and reports whether it looked |
| MeritRankDb.Database.SyncReplyUpvoteEdge | meritmolt/schema/ddl.py:129-153 | the same for replies |
| MeritRankDb.Database.InsertComment | meritmolt/schema/ddl.py:178-192 | the trigger's sequence of edge updates has the effect of the modelled statement |
| MeritRankDb.Database.DeleteComment | meritmolt/schema/ddl.py:193-202 | likewise for a deletion, with replies losing their parent |
| MeritRankDb.Database.ReingestComment | textlake/upsert.py:33-55 | an upsert of a stored comment bumps its author's counter, sets the merged parent and leaves the graph alone |
| MeritRankDb.Database.DeletePost | meritmolt/schema/ddl.py:167-202 | likewise for a post with its cascade |
| MeritRankDb.Database.MeritrankInit | meritmolt/schema/ddl.py:341-388 | row by row, in whatever order, every edge the tables call for is set and the others left alone; from an empty graph it agrees with the tables |
| MeritRankDb.Database.MeritrankBulkInit | meritmolt/schema/ddl.py:391-504 | the rebuilt graph agrees with the tables and the count returned is its size |
| SqlSplitter.SplitSqlStatements | meritmolt/database.py:49-182 | the loop returns the stripped, non-blank segments of the six-mode automaton, with at most one flag active throughout |
| SqlSplitterProofs.SegmentsConserve | meritmolt/database.py:66-180 | the raw segments rejoined with ";" are the text |
| SqlSplitterProofs.SegmentsUnique | meritmolt/database.py:66-180 | a list of pieces is the segments if and only if it is a cutting at exactly the semicolons met in the normal mode |
| SqlSplitterProofs.NoCutSegment | meritmolt/database.py:166-173 | a text stays whole exactly when no semicolon is met in the normal mode |
| SqlSplitterProofs.LexLocal | meritmolt/database.py:69-164 | a token of a text does not depend on what follows it, when that is white space, a semicolon or nothing |
| SqlSplitterProofs.RoundTrip | meritmolt/database.py:49-182 | joining the statements with newline and semicolon and splitting again returns them, and each splits to itself |
| SqlSplitterProofs.PlainRoundTripIff | meritmolt/database.py:49-182 | joining with a bare semicolon round-trips exactly when no statement but the last ends in a line comment |
| SqlSplitterProofs.PlainJoinLoses | meritmolt/database.py:129-135 | a text whose two statements a bare semicolon join does not give back |
| SqlConstructs.QuotedSkipped | meritmolt/database.py:102-127 | a quoted text is skipped as a whole |
| SqlConstructs.DoubledQuote | meritmolt/database.py:104-108 | a doubled quote inside does not end it |
| SqlConstructs.LineCommentSkipped | meritmolt/database.py:72-77 | a line comment is skipped with the end of its line |
| SqlConstructs.BlockCommentSkipped | meritmolt/database.py:79-87 | a block comment is skipped with the first end after its start |
| SqlConstructs.DollarSkipped | meritmolt/database.py:89-100 | a body between two `$`-tags of letters, digits and underscores is skipped up to the first repetition of its tag |
| SqlConstructs.OrdinaryChar | meritmolt/database.py:155-176 | any other character is read by itself and cuts exactly if it is a semicolon |
| Upsert.EnrichmentUpsert | textlake/upsert.py:17-56 | building the update column by column gives the merged row |
| Upsert.MergeKeepsKnown | textlake/upsert.py:33-50 | a known value becomes NULL only where an authoritative payload lacks the raw copy |
| Upsert.UpsertTwice | textlake/upsert.py:33-55 | the same payload again changes only the last-seen stamp |
| Upsert.CommentColumns | textlake/upsert.py:37-42 | each enriched column takes the payload's value if it has one, or else keeps the stored one |
| Upsert.OtherColumns | textlake/upsert.py:33-50 | last seen is now, first seen stays, the raw copy stays unless missing or the payload is authoritative, id and ticker stay |
| Upsert.FreshColumns | textlake/upsert.py:30-30 | a fresh comment holds the payload's values |
| CommentSort.TopologicalSort | textlake/handlers/comments.py:40-69 | each id once; rooted rows first, unchanged and by depth; then the others as roots in batch order; every kept parent before its child |
| CommentSort.DroppedExactly | textlake/handlers/comments.py:62-68 | a row's parent is dropped exactly when its parent chain never reaches a root |
| CommentSort.DepthUnique | textlake/handlers/comments.py:43-61 | the depth of a row is unique, so the depth order is a property of the batch |
| CommentIngest.UpsertKeepsParents | textlake/handlers/comments.py:129-130 | one upsert with an available parent keeps every stored parent existing |
| CommentIngest.PrefixKeepsParents | textlake/handlers/comments.py:128-130 | after each single upsert of a sorted batch every stored parent still exists |
| CommentIngest.BatchParentsAvailable | textlake/handlers/comments.py:107-127 | deduplication, resolution and sorting leave every parent stored or earlier in the batch |
| CommentIngest.BlankParentFails | textlake/handlers/comments.py:122-125 | a batch naming an empty parent id that does not exist breaks the foreign key |
| CommentIngest.BlankParentRefused | textlake/handlers/comments.py:122-125 | such a batch, refused by an empty table in every sorted order |
| CommentIngest.BatchResult | textlake/handlers/comments.py:91-130 | the stored table does not depend on which sorted order was used |
| CommentIngest.SortedOutcome | textlake/handlers/comments.py:126-130 | a sorted batch goes through exactly when it has no such blank parent |
| CommentIngest.CommentStore.Ingest | textlake/handlers/comments.py:91-130 | the whole handler: succeeds exactly without blank parents, keeps the foreign key, stores the merged batch or nothing |
| CommentFields.ParentStored | textlake/handlers/comments.py:40-130 | a fetched comment is stored with its first row's parent exactly if that is stored beforehand, or fetched with a chain of parents that ends; otherwise with the parent it had |
| CommentFields.ColumnStored | textlake/handlers/comments.py:91-130 | its other columns hold the first row's values, or else what was stored |
| CommentFields.UnfetchedStays | textlake/handlers/comments.py:128-130 | a comment that is not fetched stays as it is |
| CommentFields.RefusedIff | textlake/handlers/comments.py:107-130 | the batch is refused exactly if a first row names "" as its parent and no such comment is stored or fetched |
| CommentIngest.ReplayHarmless | textlake/handlers/comments.py:90-130 | the same batch again is accepted again and changes only last-seen stamps |
| WorkQueueProofs.NothingLost | textlake/queue/worker.py:75-91 | over any run, with stale and crashing workers, every task ever enqueued is in the table, or its handler committed, or its kind has no handler |
| WorkQueueProofs.KeysStayUnique | textlake/handlers/enqueue.py:21-37 | over any run no two queued tasks have the same key |
| WorkQueueProofs.ExclusionIff | textlake/queue/worker.py:40-130 | over any run no two workers are ever on one task exactly when no claim is made past the lease of a worker still running on that task |
| WorkQueueProofs.TakeoverIsOverrun | textlake/queue/worker.py:45-51 | a worker's task can be claimed only past that worker's lease |
| WorkQueueProofs.MutualExclusion | textlake/queue/worker.py:40-130 | so if workers end or crash within their leases, no two are ever on one task, and attempts stay between 0 and the maximum |
| WorkQueueProofs.OverrunShares | textlake/queue/worker.py:49-50 | a run from an empty table in which a lease is overrun and two workers share a task |
| WorkQueueProofs.BackoffOverRun | textlake/queue/worker.py:109-130 | for every row, whatever its maximum of attempts, the k-th failing claim is at least the sum of the backoffs after the first, 2^k - 2 seconds for k up to 12 |
| WorkQueueProofs.StartWithOk | textlake/models/crawl.py:32-33 | idle workers and any table of rows with their own maxima are a state these theorems start from |
| WorkQueueProofs.BackoffSumIs | textlake/queue/worker.py:21-23 | the capped backoffs sum to 2^(n+1) - 2 for n up to 11 |
| WorkQueueProofs.StaysParked | textlake/queue/scheduler.py:81-91 | a parked task is not claimed until more than an hour after its last update |
| WorkQueueProofs.ParkedAfterFailure | textlake/queue/scheduler.py:81-91 | a failure of either kind that uses up a task's attempts keeps it from every worker until more than an hour past its claim |
| WorkQueueProofs.FailureRow | textlake/queue/worker.py:92-130 | both failures count an attempt, unlock the row and stamp it with the claim's clock |
| WorkQueueProofs.BackoffIs | textlake/queue/worker.py:21-23 | two seconds at first, doubled each time, an hour from the twelfth on |
| WorkQueueProofs.ClaimedRow | textlake/queue/worker.py:65-73 | a claim locks its row for 300 seconds and changes nothing else |
| WorkQueueProofs.ServedFirst | textlake/queue/worker.py:42-58 | what is served has attempts left, is due and unlocked, and nothing claimable has a higher priority, or the same and is older |
| WorkQueueProofs.EnqueuedRow | textlake/handlers/enqueue.py:28-37 | a fresh task has no attempts of five, no lock and the given kind, key and priority |
| WorkQueueProofs.RecoveredRow | textlake/queue/scheduler.py:81-91 | a recovery resets exactly the rows out of attempts and untouched for over an hour |
| WorkQueueProofs.FailureRetry | textlake/queue/worker.py:109-130 | after a failure only that row has changed, and it is claimable exactly from its backoff on, or parked once its attempts are used up |
| WorkQueueProofs.TransientRetry | textlake/queue/worker.py:92-108 | after a transient failure it is claimable exactly from the given moment, or five minutes, on |
| WorkQueueProofs.RecoveryExact | textlake/queue/scheduler.py:81-91 | a recovery leaves parked exactly what was parked within the hour, changes no other row, and makes the rest claimable |
| WorkQueueDb.TaskTable.Settle | textlake/queue/worker.py:75-130 | settling a claimed task by its outcome does to the table what the protocol's step does |
| WorkQueueDb.TaskTable.ClaimNext | textlake/queue/worker.py:40-74 | claims a first claimable task in priority and age order, and nothing only when nothing can be claimed |
| WorkQueueDb.TaskTable.Fail | textlake/queue/worker.py:109-130 | backs off, or parks at the last attempt |
| WorkQueueDb.TaskTable.FailTransient | textlake/queue/worker.py:92-108 | retries at the given moment or in five minutes |
| WorkQueueDb.TaskTable.RecoverParked | textlake/queue/scheduler.py:81-91 | resets exactly the tasks parked for over an hour |
| WorkQueueDb.TaskTable.EnqueueTask | textlake/handlers/enqueue.py:21-37 | inserts unless the key is present |
| TokenBucketProofs.RunOk | meritmolt/ratelimit.py:67-83 | tokens stay between 0 and the burst over every run |
| TokenBucketProofs.RefillComposes | meritmolt/ratelimit.py:72-75 | refilling in two goes is refilling once |
| TokenBucketProofs.RejectionInvisible | meritmolt/ratelimit.py:72-83 | a rejected call never changes any later outcome |
| TokenBucketProofs.SpendingBound | meritmolt/ratelimit.py:67-83 | admissions never exceed what was there plus what flowed in |
| TokenBucketProofs.WindowBound | meritmolt/ratelimit.py:67-83 | in any window of length w at most burst + rate * w calls are admitted |
| TokenBucketProofs.SpacedAllAdmitted | meritmolt/ratelimit.py:67-83 | calls at least 1/rate apart are all admitted, except the first if it finds no token |
| TokenBucketProofs.SpacedOnNew | meritmolt/ratelimit.py:63-83 | on a new bucket they are all admitted |
| TokenBucketProofs.NewBucketBurst | meritmolt/ratelimit.py:63-78 | of n calls at once a new bucket admits exactly the lesser of n and its whole burst |
| TokenBucketProofs.IdleBucketBurst | meritmolt/ratelimit.py:72-78 | so does a bucket left alone for burst / rate seconds |
| TokenBucketProofs.DelayIs | meritmolt/ratelimit.py:79-83 | the delay is the time in which what is missing of a token flows in, or a minute without a refill |
| TokenBucketProofs.RetryAfterIff | meritmolt/ratelimit.py:76-83 | after a rejection the next call is admitted exactly from the reported delay on |
| TokenBucketProofs.NoneBeforeRetry | meritmolt/ratelimit.py:76-83 | however many calls come before that delay, none is admitted |
| TokenBucketProofs.RetryShrinks | meritmolt/ratelimit.py:81-83 | successive rejections announce the same moment |
| TokenBucketProofs.NoRefillNoRetry | meritmolt/ratelimit.py:79-80 | an empty bucket without refill never admits again |
| TokenBucketProofs.SmallBurstNoRetry | meritmolt/ratelimit.py:72-83 | nor does a bucket whose burst is less than one token |
| TokenBucketProofs.RetryKeptIff | meritmolt/ratelimit.py:76-83 | a reported delay is kept exactly when the rate is positive and the burst at least one |
| TokenBucketProofs.SpentBucketNotKept | meritmolt/ratelimit.py:79-80 | a bucket at rate 0 that reports 60 seconds and rejects after them |
| TokenBucketProofs.EmptyBurstNotKept | meritmolt/ratelimit.py:81-83 | a bucket of burst 0 that reports one second and rejects after it |
| BucketStoreProofs.AdmitOk | meritmolt/ratelimit.py:94-112 | every request keeps order and items listing the same keys once, with sound buckets |
| BucketStoreProofs.KeySpendingBound | meritmolt/ratelimit.py:67-112 | one key's admissions are bounded by its credit plus a burst for each bucket created for it |
| BucketStoreProofs.ReplacementsApart | meritmolt/ratelimit.py:100-111 | each new bucket of a key that is not evicted comes more than the time to live after the one before |
| BucketStoreProofs.KeyWindowBound | meritmolt/ratelimit.py:67-112 | such a key is admitted at most (floor(w/ttl) + 2) * burst + rate * w times in any window of length w |
| BucketStoreProofs.RecentSurvives | meritmolt/ratelimit.py:106-109 | a key keeps its bucket while fewer than max_keys other keys have been used since |
| BucketStoreProofs.FewKeysNeverEvicted | meritmolt/ratelimit.py:106-109 | with at most max_keys keys in all, none is ever evicted |
| BucketStoreProofs.RetryAfterSuffices | meritmolt/ratelimit.py:227-267 | whatever other keys do, the rejected key's next request at or after the header's delay is admitted, even on a replaced bucket |
| BucketStoreProofs.SpacedNeverRejected | meritmolt/ratelimit.py:67-112 | a key whose requests are at least 1/rate apart is never rejected after its first, whatever other keys do and whatever is expired or evicted |
| BucketStoreProofs.SpacedNewKeyNeverRejected | meritmolt/ratelimit.py:67-112 | a key the store does not hold is then not rejected at all |
| BucketStoreProofs.FirstBurstAdmitted | meritmolt/ratelimit.py:100-112 | the first floor(burst) requests of a key not held, or held past the time to live, are all admitted, whatever other keys do |
| BucketStoreProofs.ExpiryReplaces | meritmolt/ratelimit.py:101-111 | past its time to live, counted from creation, a bucket is replaced by a full one; until then it is kept |
| BucketStoreProofs.UsedLast | meritmolt/ratelimit.py:106-111 | the requested key is then the most recently used, and the store is within its size |
| TokenBucketProofs.HeaderCovers | meritmolt/middleware_utils.py:18-18 | the header is at least the delay and at least one second |
| TokenBucketProofs.HeaderLeast | meritmolt/middleware_utils.py:18-18 | and the least such whole number |
| RateLimiter.TokenBucket.TryAcquire | meritmolt/ratelimit.py:67-83 | the in-place update computes the modelled bucket and answer |
| RateLimiter.BucketStore.GetOrCreate | meritmolt/ratelimit.py:94-112 | the in-place store update computes the modelled store and returns the bucket it holds |
| RateLimiter.BucketStore.Admit | meritmolt/ratelimit.py:244-252 | fetching a shared bucket and taking from it updates the store as modelled, and the delay reported is 0 or the bucket's |
| RouteLimits.ParamsMean | meritmolt/ratelimit.py:200-216 | each group's burst and what flows in in an hour or a minute, by its settings |
| RouteLimits.ExemptPasses | meritmolt/ratelimit.py:234-236 | an exempt call is let through and touches no store |
| RouteLimits.GroupsIndependent | meritmolt/ratelimit.py:188-252 | over any interleaving each route group's store and admissions are as if only its own requests had come |
| RouteLimits.GroupWindowBound | meritmolt/ratelimit.py:200-252 | from start-up on, a key that is not evicted is admitted in any window at most as often as its group's settings allow |
| RefreshTokenProofs.RunKeepsChains | meritmolt/auth/tokens.py:105-208 | in every state of every serial run, within one session or over committed transactions, each token has at most one successor, a successor has its agent and a revoked predecessor, and going back ends at a login |
| RefreshTokenProofs.ChainsFromStart | meritmolt/auth/tokens.py:105-208 | so it is from the first login on, without cycles and with one unrevoked token a chain |
| RefreshTokenProofs.Acyclic | meritmolt/auth/tokens.py:105-121 | no token is its own predecessor at any distance |
| RefreshTokenProofs.OneLiveTokenPerLogin | meritmolt/auth/tokens.py:165-181 | the chain of one login holds at most one unrevoked token |
| RefreshTokenProofs.RevocationPermanent | meritmolt/auth/tokens.py:185-208 | over any run revoked rows never change |
| RefreshTokenProofs.ReplayRefused | meritmolt/auth/tokens.py:147-153 | a revoked token is refused as reused whatever happened in between |
| RefreshTokenProofs.ReuseEndsAllSessions | meritmolt/auth/tokens.py:147-153 | after a rotation the old token is refused, and within that session every unrevoked token of its agent, and no other agent's, is revoked |
| RefreshTokenProofs.CommittedReuseIff | meritmolt/auth/tokens.py:147-153 | where refusals are rolled back, a reused token leaves its agent without unrevoked tokens exactly if it had none |
| RefreshTokenProofs.ReuseLeavesSession | meritmolt/auth/dependencies.py:17-27 | a login, a rotation and the old token again, after which the agent still has an unrevoked token |
| RefreshTokenProofs.MintCapIff | meritmolt/auth/tokens.py:78-103 | a mint within the cap stays within it exactly when the agent was below it or the oldest unrevoked token had not expired |
| RefreshTokenProofs.MintCap | meritmolt/auth/tokens.py:78-103 | with no expired token left unrevoked the cap holds |
| RefreshTokenProofs.RotateEvictsNobody | meritmolt/auth/tokens.py:165-181 | rotating an active token within the cap revokes that token only and keeps the cap |
| RefreshTokenProofs.RunCapIff | meritmolt/auth/tokens.py:60-208 | over any serial run of either kind the cap holds throughout exactly when no login at the cap evicts an expired token |
| RefreshTokenProofs.CapBroken | meritmolt/auth/tokens.py:89-103 | three logins under a cap of one that leave two active tokens |
| RefreshTokenProofs.MintedIsAccepted | meritmolt/auth/tokens.py:123-163 | the token a mint prints is accepted until it expires and then refused as expired |
| RefreshTokenProofs.AcceptedIff | meritmolt/auth/tokens.py:143-172 | a presented token is accepted exactly if its row exists, is unrevoked and unexpired, has that secret and an existing agent |
| RefreshTokenProofs.DenialIs | meritmolt/auth/tokens.py:143-172 | which answer each failing test gives |
| RefreshTokenProofs.DeniedRows | meritmolt/auth/tokens.py:147-172 | which rows a refusal revokes in its session |
| RefreshTokenProofs.WrongSecretRefused | meritmolt/auth/tokens.py:162-163 | after a mint any other secret is refused and changes no row |
| RefreshTokenProofs.MintedRows | meritmolt/auth/tokens.py:72-121 | what a mint writes, field by field, and that nothing else changes |
| RefreshTokenProofs.VictimIs | meritmolt/auth/tokens.py:78-103 | who is evicted, and when |
| RefreshTokenProofs.RevokedRows | meritmolt/auth/tokens.py:185-208 | what revoking one token, or an agent's, writes |
| RefreshTokenDb.Session.Mint | meritmolt/auth/tokens.py:60-124 | evicts an oldest unrevoked token at the cap, inserts the row, prints the token |
| RefreshTokenDb.Session.Rotate | meritmolt/auth/tokens.py:127-182 | refreshes exactly if the row is unrevoked, unexpired, made with that secret and of an existing agent; which check refuses otherwise, what the session then holds, and the new row |
| RefreshTokenDb.Session.RevokeToken | meritmolt/auth/tokens.py:185-194 | revokes the named token if it parses and exists |
| RefreshTokenDb.Database.Refresh | meritmolt/auth/dependencies.py:17-27 | refreshes exactly in that case; a refused refresh leaves the committed rows as they were, an accepted one commits the rotation; either is a step of a committed run |
| TokenCodecProofs.DecodeEncode | meritmolt/auth/tokens.py:22-30 | unpadded base64url decoding inverts encoding on all byte strings |
| TokenCodecProofs.EncodeDecodeIff | meritmolt/auth/tokens.py:22-30 | a text of alphabet symbols decodes unless its length is 1 mod 4, and is re-encoded to itself exactly when its unused bits are zero |
| TokenCodecProofs.EncodedTextsIff | meritmolt/auth/tokens.py:22-23 | exactly which texts the encoder writes |
| TokenCodecProofs.ParsePrint | meritmolt/auth/tokens.py:45-57 | a printed token parses to its id and secret exactly when the secret has at least 32 bytes |
| TokenCodecProofs.PrintInjective | meritmolt/auth/tokens.py:123-124 | different tokens are printed differently |
| TokenCodecProofs.ParsedShape | meritmolt/auth/tokens.py:45-57 | what parses is 32 hexadecimal digits, a dot and the base64 of at least 32 bytes |
| TokenCodecProofs.SymbolIs | meritmolt/auth/tokens.py:22-23 | the symbols are the base64url alphabet in order |
| TokenCodecProofs.ReadsAs | meritmolt/auth/tokens.py:26-30 | which characters the decoder reads, and as what |
| TokenCodecProofs.JunkSkipped | meritmolt/auth/tokens.py:26-30 | other characters are skipped |
| TokenCodecProofs.NotAsciiRefused | meritmolt/auth/tokens.py:26-30 | but a text that is not ASCII is refused |
| TokenCodecProofs.QuadBits | meritmolt/auth/tokens.py:22-23 | the symbols hold the bytes' bits in order, filled up with zeros |
| TokenCodecProofs.HexIs | meritmolt/auth/tokens.py:123-123 | each byte of an id is two lower-case hexadecimal digits |
| TokenCodecProofs.PrintIs | meritmolt/auth/tokens.py:123-123 | a printed token is 32 such digits, a dot and the secret's symbols |
| BackpressureProofs.RunConserves | meritmolt/backpressure.py:33-57 | after every interleaving, free permits plus holders equal each semaphore's capacity, and a free permit means nobody waits for it |
| BackpressureProofs.GuardSafe | meritmolt/backpressure.py:20-135 | from start-up on, that, no more running than each setting says, overall and by group, and no refusal within a second of arrival |
| BackpressureProofs.AllPermitsBack | meritmolt/backpressure.py:51-57 | once every request has ended, every permit is free again |
| BackpressureProofs.RefusedOnlyWhenFull | meritmolt/backpressure.py:35-48 | a request waits, and so can be refused, only while others hold every permit of that semaphore |
| BackpressureProofs.NoDeadlock | meritmolt/backpressure.py:33-57 | if anyone waits, some request can go on without a timeout |
| BackpressureProofs.ArrivalIff | meritmolt/backpressure.py:35-38 | an arriving request is given the global permit at once exactly if fewer are held than there are |
| BackpressureProofs.AdmissionIff | meritmolt/backpressure.py:39-49 | it then runs at once exactly if it is exempt or fewer of its group run than may |
| BackpressureProofs.TimeoutIff | meritmolt/backpressure.py:36-48 | a wait can time out exactly from one second on |
| BackpressureProofs.EndedLeavesNoTrace | meritmolt/backpressure.py:33-57 | from its end on a refused or released request makes no difference: without it the permits are conserved and every further interleaving of the others is the same |
| BackpressureProofs.AttemptRestores | meritmolt/backpressure.py:33-57 | a whole attempt, whatever other requests do meanwhile, ends holding nothing, and each count has changed by exactly what others hold less or more |
| BackpressureProofs.RefusalRestores | meritmolt/backpressure.py:44-48 | with no other request's step between, a refusal by the group leaves all counts as before the attempt |
| BackpressureProofs.ReleaseRestores | meritmolt/backpressure.py:51-57 | with no other request's step between, so does an admission followed by its release, exempt or not |
| ConcurrencyGuards.ConcurrencyGuard.constructor | meritmolt/backpressure.py:20-31 | the guard starts with every permit free |
| ConcurrencyGuards.ConcurrencyGuard.AcquireGlobal | meritmolt/backpressure.py:35-38 | takes or waits for the global permit |
| ConcurrencyGuards.ConcurrencyGuard.AcquireGroup | meritmolt/backpressure.py:39-49 | an exempt request runs with the global permit alone; any other takes or waits for its group's |
| ConcurrencyGuards.ConcurrencyGuard.TimeOut | meritmolt/backpressure.py:37-48 | a timed-out wait gives back what the request held |
| ConcurrencyGuards.ConcurrencyGuard.Release | meritmolt/backpressure.py:51-57 | gives back the group's permit, then the global one |

## Left out

- Scoring, synchronisation and the pgmer2 extension: only the edge map it stores is modelled.
- Edge magnitudes, which the triggers and the two rebuilds assign differently by design.
- Deleting or renaming agents and boards, and upserts of posts, or of comments with another author or post: the graph runs do not contain them.
- MeritRankRuns.RunAgreesIff: replies are assumed to be on their parent's post and ids to be plain; other rows are not modelled.
- MeritRankDb.Database.MeritrankInit: the weights of the subscription rows are integers, and the loops visit the rows in an arbitrary order.
- Full PostgreSQL lexing (nested block comments, `$` inside identifiers): the automaton is the one the code implements.
- CommentIngest.CommentStore.Ingest: author stubs, post and author foreign keys, NOT NULL columns, post counters and the HTTP fetch are not part of this model; rows arrive as built from the payload.
- Cycles of stored parents across several batches, which COALESCE can form; only existence of parents is kept.
- MeritRankUpdates.ReingestAgreesIff: the payload's author and post are the stored ones, and its parent is on that post.
- WorkQueueProofs.MutualExclusion: assumes that a worker ends or crashes within its lease, since finishing a task does not check who holds it; WorkQueueProofs.ExclusionIff has the exact condition.
- WorkQueueProofs.BackoffOverRun: for runs in which no claim takes over a task in work; counts the ordinary failures since a queued task was last recovered or failed transiently, which start the count again.
- The scheduler's intervals and pruning, poll intervals, and the priorities of recurring tasks; a scheduler enqueue is an enqueue step with any key.
- WorkQueueDb.TaskTable.EnqueueTask: the key is the pair of kind and parameters, not its hash; the feed polls hash fewer parameters than they store, which the model allows because the stored parameters are not read.
- WorkQueueDb.TaskTable.Fail: the transaction that reads the row and updates it is one step.
- The rows that one claim finds locked by another are a parameter of the claim.
- RateLimiter.BucketStore.Admit: a request reads the clock once, where the code reads it for the lookup, for a new bucket and for the refill.
- Floating-point rounding of times and tokens, and clocks that run backwards.
- Route classification, client keys, headers and request bodies; a request arrives with its group and key.
- RouteLimits.GroupWindowBound: settings are assumed not negative, and the key not to be evicted during the window.
- RefreshTokenDb.Session.Mint: the fresh id is assumed unused; user agent and address are not kept.
- RefreshTokenDb.Session.Rotate: revoking the old token and answering a reuse read one clock, and the mint another.
- Two refresh requests racing on one token under READ COMMITTED: requests are serial.
- Argon2 hashing, JWTs and identity checks.
- TokenCodecProofs.ParsePrint: ids are parsed from 32 hexadecimal digits only; other spellings a UUID parser takes (dashes, braces, prefixes) are refused here. Base64 text is read without validation: characters outside the alphabet are skipped.
- Cancellation of a request inside `try_acquire`, the deadline of read requests (a cancelled application releases like one that returned) and the 503 bodies.
- BackpressureProofs.RunConserves: handing a permit to a waiter is one step, so a free permit means nobody waits. The host library's semaphore frees the permit, wakes the waiter and may make a newcomer queue behind it for a moment.
- BackpressureProofs.RefusalRestores: one request alone; with other requests between, BackpressureProofs.AttemptRestores is the statement.
- BackpressureProofs.ReleaseRestores: one request alone, likewise.
- ConcurrencyGuards.ConcurrencyGuard.Release: a permit given back goes to any one waiter; the queue order of the semaphores is not modelled.
