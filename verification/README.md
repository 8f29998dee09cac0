# A verified model of the prompt server

The system stores versioned prompts: a table of served HEADs (`prompts`), a
history of commits (`commits`) and branch tips (`refs`). A server answers reads
through an expiring cache, runs writes against the store, clears the cache and
tells subscribers. This project models that server in Dafny and proves what
its comments and documentation promise: the results of the `Concurrent` modules
over every interleaving of any number of requests, those of `ServerRuns`,
`ServerReaders`, `Tenancy` and `Writers` over every run of calls that do not
overlap, and the rest for every input. `ServerReplies` says of each single call
when it is refused and with which code, what it answers and what it leaves behind.

The same server is modelled twice.

- **Sequentially** (`Store`, `Cache`, `Database`, `ServerModel`, `Server`): each
  handler is a method that updates the store, the cache and the notifier step by
  step, and is proved equal to a function on the whole state. `ServerRuns`,
  `ServerReaders`, `Tenancy` and `Writers` prove properties of every run of those
  functions, one call after the other, with store transactions, cache clears and
  cache reads and writes failing at will.
- **Concurrently** (`Concurrent`, `ConcurrentReads`, `ConcurrentWrites`,
  `ConcurrentMerges`, `ConcurrentLog`, `ConcurrentRace`): any number of requests,
  taken apart into their individual accesses (cache lookup, store read, put; check,
  read tip, compare-and-swap, clear, notify), in any order, with time passing in
  between. `ConcurrentRace` holds concrete runs that show where a promise breaks
  and that a bound cannot be improved. `Atomicity` joins the two models: a request
  whose small steps are not interrupted does what its handler does. A server
  without a cache is there one whose puts are all lost and whose clears succeed.

Around it: the mapping from URIs to NATS subjects and the permission sets
(`Subjects`, `Broker`), org scoping and listings (`Auth`, `Listing`), import,
seed, backup and restore (`Import`, `Backup`), the rate limiter (`RateLimit`) and
line normalisation (`Lines`).

Conventions that hold throughout:

- The store library is not part of this model; `Store` is its documented
  contract (README.md:263-279 and 671-701): one transaction per write, a
  compare-and-swap on the branch tip, merges that take theirs with two parents,
  commits never deleted.
- `version_hash` is an injective function of the content, and commit hashes are
  opaque fresh names carried by a `Stamp`. A commit's `rank` is its insertion
  order and stands for `created_at`.
- Validation and the semantic diff are parameters. Clocks, faults and fresh
  hashes are arguments of each call.
- `IsBytes` says that every character is a byte, as every Go string is.
- The event log is what is handed to the notifier.
- Dafny's automatic induction is switched off on every lemma: each inductive proof
  is written out.

## Where code and documentation differ

The model follows the code; these are the places where the text promises more.

- README.md:256-259 says every HEAD reader gets a rolled-back version at once,
  and internal/server/cache.go:13 that a republish is reflected within the TTL.
  What holds is the TTL plus the time a read takes from its store access to its
  answer (`TtlConvergence`), and no less: a reader that read the store before the
  write and puts after the clear brings the old version back, and it is answered at
  exactly ttl + wait, after a publish (`PublishSeenLate`) and after a rollback of a
  bad version (`RollbackSeenLate`), although every clear succeeded.
- README.md:799-801 says every cache operation is best-effort. That is so for reads
  (`CacheNeverFailsReads`); a write to main is reported unavailable if and only if
  its clear fails (`UnavailableIffClearFails`), as README.md:268-271 also says.
- The comments on notifying (internal/server/server.go:102-107 and 311-314) aim at
  one event per change. Among calls that do not overlap, "the last event names the
  served version" fails for exactly one kind of call: a rollback to other content
  whose clear fails moves what is served and returns before it notifies
  (internal/server/server.go:410-415, `SilentMove`, `AgreementStep`). Retrying it
  repairs this (`RollbackRetriedOnce`), but its verdict then compares the new HEAD
  with itself.
- Overlapping calls break it with no fault at all. A merge compares what it brings
  with a HEAD read before its swap (internal/server/server.go:303-318), so a publish
  in between makes it silent about a real change (`MergeLosesEvent`), and two
  publishes may announce in the other order than they swapped (`AnnouncementsSwap`).
  `MergeEventIsExact` says exactly when a merge's event is right, and `LogTracksHead`
  when the log tracks the HEAD in spite of interleaving.
- A verdict is fixed before the commit, from what was served then
  (internal/server/server.go:68-87), while agents are told to act on it as the
  verdict of the change they see (README.md:310-334). Among calls that do not
  overlap it is that, as long as no rollback moved the prompt silently
  (`VerdictsCompareWithTold`). Overlapping publishes break it: two first publishes
  both announce "new" (`NewTwice`). `PublishEventIsExact` says exactly when "new" is
  right, and `VerdictsTrackLog` when verdicts follow the log despite interleaving.
- cmd/priompt/main.go:724-726 says importing is safe to repeat. A second import
  writes nothing if and only if no URI occurs in the file with two different
  contents (`ReimportIdempotent`, `RepeatedUriWritesAgain`).
- internal/server/server.go:64 resolves a branch name or a commit hash. Publishing
  to a branch that does not exist but is named like the hash of a commit with that
  content is taken for a repetition, and no branch is made (`BranchPublishLands`).
- internal/server/server.go:476-480 says "a" and "a\n" diff the same. True of
  texts that end in neither LF nor CR, and of no others (`TrailingNewline`).
- internal/pubsub/pubsub.go:38-39 says distinct URIs get distinct subjects. True
  up to the scheme, which is trimmed when present (`SubjectInjective`).

## Model

| member | source | states |
|---|---|---|
| ConcurrentReads.TtlConvergence | internal/server/cache.go:10-22 | over every interleaving with every clear allowed to fail: once u's HEAD stops changing at time t, every answer given later than t + ttl + wait is the final HEAD |
| ConcurrentReads.AnswerIsRecent | internal/server/server.go:126-152 | every answer was the served HEAD at some instant at most ttl + wait before it, and carries that content's own version hash |
| ConcurrentReads.EntryHasOrigin | internal/server/server.go:131-151 | every cache entry was read from the store and then put by one and the same request, expires ttl after the put, and has not been cleared since |
| ConcurrentReads.StaleOnlyIf | internal/server/server.go:92-113 | the complete list of causes: a cached version differs from the served one only if the reader that put it overlapped a write, a writer is between its commit and its clear, or a clear failed after the put |
| ConcurrentReads.CleanHitsAreFresh | internal/server/server.go:71-81 | a clear heals everything before it: if since the start, or since any clear that dropped the entry, no reader that put overlapped a write and no clear failed, and no writer is in flight, a cache hit answers the version served at that moment |
| ConcurrentReads.WriterClears | internal/server/server.go:97-101 | a writer past its commit to main is still about to clear, or has taken its own clear step |
| ConcurrentRace.OverlapStrandsOldVersion | internal/server/server.go:131-151 | the first cause on its own, for any prompt and any two contents: the publish reports success, no clear failed, nobody is in flight, and the cache holds the superseded version |
| ConcurrentRace.InFlightAlone | internal/server/server.go:92-101 | the second cause on its own: no overlap, no failed clear, and the entry is stale because a writer has swapped and not cleared |
| ConcurrentRace.FailedClearAlone | internal/server/server.go:97-101 | the third cause on its own: no overlap, nobody in flight, and the entry is stale because a clear failed |
| ConcurrentRace.PublishSeenLate | internal/server/cache.go:10-14 | the bound is reached: a publish is done at time 0 with every clear successful, nothing else moves the HEAD, and a reader is answered with the old version at time ttl + wait exactly |
| ConcurrentRace.RollbackSeenLate | README.md:256-259 | the same after a rollback: the bad version is answered at time ttl + wait |
| ConcurrentWrites.NoLostPublish | README.md:263-267 | in every interleaving, a commit whose publish reported success stays in ListCommits with its content in every later state, and stays on the branch's first-parent history until a SetBranch moves that branch |
| ConcurrentWrites.NoLostRepeat | internal/server/server.go:56-81 | a publish that reports success by repetition is not lost either: the commit it found stays in ListCommits with its content, and on the history of the branch whose tip it was until a SetBranch; the one publish with no commit to keep is to a served prompt without history, which no store that began with history contains |
| ConcurrentWrites.StaysOnBranch | README.md:263-267 | over any stretch without a SetBranch of the branch, what is on its history stays there |
| ConcurrentWrites.CommitStays | internal/server/server.go:92-94 | from the step that commits it on, a commit is on its branch's history until a SetBranch of that branch |
| ConcurrentWrites.StepKeepsOnBranch | README.md:263-267 | one step of any other request, except a SetBranch of that branch, keeps every commit of the branch's history on it |
| ConcurrentWrites.CommittedByAdvance | internal/server/server.go:92-94 | a publish past its commit got there by one successful compare-and-swap of its own, which wrote that commit on that branch |
| ConcurrentWrites.LosersChangeNothing | internal/server/errors.go:42-44 | a writer that lost the race or was refused touched neither store, nor cache, nor log in any of its steps |
| ConcurrentWrites.AbortedLostRace | README.md:263-267 | a writer told ABORTED was overtaken: somebody else moved its branch between its reading of the tip and its compare-and-swap, and none of its own steps changed anything |
| ConcurrentWrites.ConflictIffMoved | internal/server/errors.go:42-44 | at its compare-and-swap a writer may go on if and only if the tip is the one it read, and is told "conflict" if and only if it is not |
| ConcurrentWrites.PublishAnnouncedOnce | internal/server/server.go:97-114 | in every interleaving, a publish to main that reported its commit has appended exactly one event, and that event names the content it published |
| ConcurrentWrites.FinishedAnnouncedOnce | internal/server/server.go:102-112 | the same for every publish that committed to main and finished, whether its clear succeeded or failed; it reports its commit or that the cache was not cleared, and nothing else |
| ConcurrentWrites.AnnouncedAtMostOnce | internal/server/server.go:102-109 | a request that has announced is finished and never announces again |
| ConcurrentMerges.MergeEventIsExact | internal/server/server.go:302-321 | in every interleaving a merge is silent if and only if what it put equals what it first saw, and otherwise names what it put, with the verdict of the change from what it saw; so its event is right if and only if what it saw and what it replaced are both, or neither, what it put, in particular when nothing moved the HEAD between its look and its swap |
| ConcurrentMerges.PublishEventIsExact | internal/server/server.go:68-109 | in every interleaving a publish announces one event naming what it put, whose verdict is the analysis of what it first saw against what it put; "new" is right about its swap if and only if what it saw and what it replaced are both, or neither, nothing; and the whole event is that of the change it made when nothing moved the HEAD between its look and its swap |
| ConcurrentMerges.WriterLooked | internal/server/server.go:68-94 | a publish or merge past its swap looked at the HEAD in an earlier step of its own and carries what was served then; its swap put its commit's content on main |
| ConcurrentLog.LogTracksHead | internal/server/server.go:302-321 | over any interleaving in which every mover of the HEAD gets from its first look to its announcement without another move of that HEAD, and no rollback to other content fails to clear: whenever nobody is between a move and its announcement, the last event names the version served |
| ConcurrentLog.VerdictsTrackLog | internal/server/server.go:68-109 | in such an interleaving every event's verdict compares the version it names with the one the previous event of that prompt named, and a "new" event is the first of its prompt |
| ConcurrentLog.LogStepExact | internal/server/server.go:92-111 | whatever else is in flight, one step breaks the agreement of the last event with the served version if and only if it replaces what is served (its writer has yet to announce) or announces what is no longer served |
| ConcurrentLog.CarriesServed | internal/server/server.go:303-310 | in such an interleaving what a writer saw first is still served when it swaps |
| ConcurrentRace.MergeLosesEvent | internal/server/server.go:303-320 | without that condition: a merge overlapping a publish, everybody told success, every clear successful, and the last event names a version that is not served |
| ConcurrentRace.AnnouncementsSwap | internal/server/server.go:92-109 | the same for two publishes that announce in the other order than they swapped |
| ConcurrentRace.NewTwice | internal/server/server.go:82-86 | without that condition: from an empty store two overlapping first publishes, all successful, leave exactly two events, both "new" |
| Concurrent.StoreInvariant | README.md:699-701 | the store invariant (served HEAD is main's tip, no dangling ref, parents older and of the same prompt) holds in every state of every interleaving |
| Concurrent.StoreGrows | README.md:277-279 | between any two states of a run no commit is lost or altered |
| Atomicity.PublishAlone | internal/server/server.go:68-114 | check, read tip, swap, clear, announce without interruption, or check and a failed transaction, leave the same store, cache, log and reply as the publish handler, with or without a cache and a notifier |
| Atomicity.RepublishAlone | internal/server/server.go:69-81 | the same for content that is served already: only the cache is cleared |
| Atomicity.BranchPublishAlone | internal/server/server.go:63-67 | the same for other branches, repetition or not |
| Atomicity.MergeAlone | internal/server/server.go:295-327 | the same for a merge into any branch, accepted, refused or failed |
| Atomicity.SetBranchAlone | internal/server/server.go:382-418 | the same for a rollback or pin of any branch, accepted, refused or failed |
| Atomicity.ReadAlone | internal/server/server.go:117-153 | the same for a read: hit, miss, missing and malformed prompt |
| Server.PromptServer.PublishPrompt | internal/server/server.go:42-115 | from any state and with any fault, the method's new store, cache and log and its reply are those of the publish function |
| Server.PromptServer.GetPrompt | internal/server/server.go:117-153 | the same for a read, pinned or not |
| Server.PromptServer.MergeBranch | internal/server/server.go:295-327 | the same for a merge |
| Server.PromptServer.SetBranch | internal/server/server.go:382-418 | the same for a rollback or pin, including the return before the notification |
| Server.PromptServer.CreateBranch | internal/server/server.go:278-293 | the same for a new branch |
| Server.PromptServer.ClearCache | internal/server/server.go:210-220 | clears one URI; without a cache nothing happens and nothing fails |
| ServerRuns.OneEventPerChange | internal/server/server.go:97-113 | a publish or merge appends exactly one event naming the new version when it changes what is served, and none otherwise, whether or not the clear fails |
| ServerRuns.AgreementStep | internal/server/server.go:406-416 | one call that overlaps no other keeps "the last event names the served version" if and only if it is not a rollback to other content whose clear fails |
| ServerRuns.LogTracksServed | internal/server/server.go:311-325 | over any run of calls that do not overlap, with any faults, the last event of each URI names the version served, except for URIs moved silently with no event since |
| ServerRuns.AnnouncedAgrees | internal/server/server.go:413-415 | whenever a call says anything, what it says is what is then served |
| ServerRuns.NewStaysFirst | internal/server/server.go:84-86 | over any run of calls that do not overlap, a "new" event is the first event of its URI, so there is at most one |
| ServerRuns.VerdictOfChange | internal/server/server.go:420-438 | an event compares the lines served before the call with those served after it: nothing without an embedder or an old text, and only a publish calls a first version "new" |
| ServerRuns.VerdictsCompareWithTold | internal/server/server.go:379-381 | over any run of calls that do not overlap, with any faults, every event's verdict compares the version it names with the one the previous event of that URI named, as long as no rollback moved that URI silently |
| ServerRuns.OnlyValidServed | internal/server/server.go:138-151 | over any run no invalid prompt is ever served or cached, pinned or not |
| ServerRuns.StepKeepsInv | README.md:699-701 | every RPC keeps the store invariant and every existing commit |
| ServerRuns.RunKeepsInv | README.md:671-701 | the same over any run |
| ServerReaders.OkIsVisible | internal/server/server.go:71-81 | from any cache contents, stale ones included: after a publish, merge or rollback of main reports success, the next read by anyone authorized returns main's tip |
| ServerReaders.UnavailableIffClearFails | README.md:268-271 | a write to main that would succeed is reported unavailable if and only if there is a cache and its clear fails |
| ServerReaders.CacheNeverFailsReads | internal/server/redis_cache.go:51-71 | whatever the cache holds or loses, a read fails only as it would without a cache |
| ServerReaders.PublishRetriedOnce | internal/server/server.go:97-112 | a publish retried until it succeeds, through any failures, makes exactly one commit and one event; none when the content was served already |
| ServerReaders.MergeRetriedOnce | internal/server/server.go:311-325 | a retried merge serves the source branch's content and makes exactly one event when that is a change, none otherwise |
| ServerReaders.RollbackRetriedOnce | internal/server/server.go:406-416 | a retried rollback serves the commit and announces it exactly once |
| ServerReaders.BranchPublishLands | internal/server/server.go:63-67 | after a successful publish elsewhere the ref reads back the content, the served HEADs are unchanged, and the branch exists except in exactly one named case |
| ServerReaders.CacheIsInvisible | internal/server/redis_cache.go:51-71 | when clears succeed, every reply of any run, the store and the log equal those of the server without a cache, for any clock and any lost cache reads and writes |
| ServerReaders.StepKeepsCoherent | internal/server/server.go:208-220 | a call whose clear succeeds leaves every cached entry equal to what a fresh read would answer |
| ServerReaders.BranchWorkInvisible | README.md:272-273 | over any stretch without a write to main of u, every read of u answers the same and no event about u is sent, whatever else happens or fails |
| ServerReaders.PinNeverMoves | README.md:252-254 | a version pinned by commit hash reads the same after any run, unless a branch is given that hash as its name |
| ServerReaders.PinIsReproducible | internal/server/server.go:362-377 | the commit hash in a pinned answer reproduces that very answer after any run, with the same exception |
| ServerReaders.MovedBranchReadsBack | internal/server/server.go:278-310 | a successful merge, rollback or new branch moves its target branch and nothing else, to a commit with its origin's content; a merge keeps the old tip as first parent and the origin as second, the others point at the origin itself and add no commit; the reply names the result |
| ServerReplies.NoBranchIsMain | internal/server/server.go:200-206 | a request that names no branch (or no origin of a new branch) has in every respect the result of the same request naming "main" |
| ServerReplies.OnlyTheNamedBranch | internal/server/server.go:200-206 | a request moves no ref but the one it names, or main when it names none |
| ServerReplies.InvalidIsRefused | internal/server/server.go:49-51 | a publish that is not denied answers InvalidArgument if and only if its content is not valid for its URI, and then changes nothing |
| ServerReplies.PublishOutcome | internal/server/server.go:42-115 | exactly when a publish succeeds: permitted, valid, held already or stored, and for main the cache cleared; it answers the version of its content, and content held already is not stored again |
| ServerReplies.MergeOutcome | internal/server/server.go:295-327 | a merge answers not found if and only if one of its branches does not exist, and then changes nothing; the one other failure is a cache of main that did not clear |
| ServerReplies.SetBranchOutcome | internal/server/server.go:382-418 | exactly when a rollback or pin is invalid, not found (the commit is not one of this prompt) or stored but unavailable; it fails in no other way |
| ServerReplies.CreateBranchOutcome | internal/server/server.go:278-293 | exactly when a new branch is invalid, exists already, lacks its origin, or is made, and that it then points where its origin does |
| ServerReplies.StoreFaults | internal/server/errors.go:15-51 | a transaction that fails changes nothing, and its status tells a client to retry if and only if the branch moved or the database is down, and that something is missing if and only if it is |
| ServerReplies.PinnedRead | internal/server/server.go:362-377 | a read pinned to a ref answers the content, version and hash of the branch of that name, else of this prompt's commit of that hash, data loss if that is malformed, and not found if and only if there is neither |
| ServerReplies.HeadRead | internal/server/server.go:131-148 | an unpinned read past the cache answers the served HEAD with its version and no commit hash, not found or data loss exactly when it is missing or malformed |
| ServerReplies.WriteLands | internal/server/server.go:89-94 | after a successful publish, merge, rollback or new branch its branch holds what it brought; only a repeated publish may find no branch to hold it |
| ServerReplies.ReadAfterWrite | internal/server/server.go:362-377 | so a read pinned to that branch next answers that content, its version and the branch's commit |
| ServerReplies.AuthorIsRecorded | internal/auth/auth.go:48-68 | the commit of a publish or merge carries the request's message and the caller's subject, else its org, else "anonymous" |
| ServerReplies.ListGrowsByOne | internal/server/server.go:237-249 | ListCommits is empty for an empty store and gains exactly the commit a publish or merge wrote, for its own prompt only |
| ServerReplies.StepKeepsStoreValid | internal/server/server.go:49-51 | no RPC ever stores a malformed prompt: if every commit and HEAD is valid for its URI, they still are after any call |
| Tenancy.DeniedChangesNothing | internal/auth/auth.go:24-77 | a call is denied if and only if its caller lacks the org, or the write grant for a write, and then it changes nothing |
| Tenancy.StepElsewhere | internal/auth/auth.go:70-77 | a call on one prompt leaves every other as it was: served version, cache entry, branches, commits and events |
| Tenancy.StepAlike | internal/server/server.go:344-353 | the same call answers the same in any two worlds that agree on its prompt, whatever commits and prompts they have besides, and they still agree on it afterwards |
| Tenancy.TenantIsolation | internal/auth/auth.go:70-77 | over any run of calls that do not overlap, with any faults, the replies to the calls on an org's prompts by those allowed there, and all there is to see of these prompts, are those of a server that never received any other call |
| Tenancy.OthersAreInvisible | internal/auth/auth.go:70-77 | so from the same start, dropping every other call changes no reply |
| Writers.AllWritersKeepInv | internal/server/server.go:226-249 | any mix of RPCs, put, import and seed keeps the store invariant, loses no commit and keeps every served prompt backed by a main branch |
| Writers.HistoryInEveryState | internal/server/server.go:226-249 | in every state reachable from an empty store, each branch's history is a duplicate-free list of that prompt's own commits starting at the tip, newest first, and main's first entry is what is served |
| Writers.NoDataLossEver | internal/server/server.go:138-142 | from an empty store, under any mix of writers and any faults, every commit and HEAD is valid and no read, pinned or not, ever answers data loss |
| Writers.SeedIdempotent | cmd/priompt/main.go:278-294 | seeding again changes nothing, and an existing demo prompt is never touched |
| Writers.SeedWritesDemo | cmd/priompt/main.go:278-294 | the demo prompt is committed to main, by "priompt", exactly when its URI is absent and the store does not fail |
| Store.ChainIsHistory | README.md:277-279 | the first-parent walk terminates, repeats nothing, goes strictly back in insertion order and lies within ListCommits |
| Store.ChainIsWhole | README.md:277-279 | history leaves nothing out: it starts at the tip, each entry is followed by its first parent, and the last has none |
| Store.ChainGrows | README.md:277-279 | adding commits never rewrites an existing history |
| Store.CommitKeeps | README.md:699-701 | a commit transaction keeps the store invariant |
| Store.MergeKeeps | README.md:274-276 | a merge transaction keeps it, both parent links included |
| Store.PointKeeps | README.md:256-259 | pointing a branch at an existing commit keeps it and deletes nothing |
| Store.CommitReadsBack | README.md:699-701 | after a commit the branch reads back the content on top of its old tip, main also serves it, and no other ref, commit or HEAD moved |
| Store.MergeReadsBack | README.md:274-276 | after a merge the target reads as the source did, the old tip and the source's tip are its parents, and nothing else moved |
| Store.PointReadsBack | internal/server/server.go:379-405 | after a rollback or pin the branch is at that very commit, main also serves it, and no commit is added or lost |
| Store.RollbackUndoes | README.md:256-259 | pointing a branch back at its old tip undoes a publish or merge: every ref and HEAD is as before and the commit made in between is still there |
| Cache.HitIsLastPut | internal/server/cache.go:46-69 | after any sequence of operations, faults included, a Get answers if and only if the last operation that took effect on the URI was a Put at most the TTL ago, and answers what it stored |
| Subjects.SubjectToken | internal/pubsub/pubsub.go:54-66 | the byte loop produces the percent-encoding of the segment |
| Subjects.SubjectOf | internal/pubsub/pubsub.go:41-47 | the in-place loop over the segments produces the subject |
| Subjects.TokenRoundTrip | internal/pubsub/pubsub.go:54-66 | percent-decoding (section 2.1 of RFC 3986) inverts the token encoder on every byte string |
| Subjects.TokenIsPlain | internal/pubsub/pubsub.go:36-40 | no token contains a dot or a wildcard character |
| Subjects.ByteEncoding | internal/pubsub/pubsub.go:54-66 | a letter, digit, underscore or hyphen stands for itself, any other byte for "%" and its two upper-case hexadecimal digits |
| Subjects.TokenAppend | internal/pubsub/pubsub.go:54-66 | segments are encoded byte by byte: the token of a concatenation is the concatenation of the tokens |
| Subjects.PlainStays | internal/pubsub/pubsub.go:31-40 | a segment is its own token if and only if it is made of such unreserved bytes |
| Subjects.SubjectOfPath | internal/pubsub/pubsub.go:31-47 | the segments of a path become the tokens of its subject, in order, under "priompt." |
| Subjects.SubjectDecodes | internal/pubsub/pubsub.go:36-47 | split on dots, decode each token, join with slashes: this inverts Subject on every byte string, up to the scheme |
| Subjects.SubjectInjective | internal/pubsub/pubsub.go:36-40 | two URIs share a subject if and only if they agree after the scheme is trimmed; scheme-carrying URIs only if equal |
| Broker.OrgSubjectIsApiScope | internal/pubsub/pubsub.go:49-52 | under NATS matching an org's wildcard matches a prompt's subject if and only if the API's parsed org is that org and the URI goes below it |
| Broker.MatchIsPointwise | internal/pubsub/pubsub.go:36-40 | a pattern without ">" matches token by token, "*" standing for any one token |
| Broker.TailMatchesMore | internal/pubsub/pubsub.go:49-52 | a final ">" stands for one or more further tokens |
| Broker.ApiCredentialScope | internal/pubsub/pubsub.go:213-239 | an API credential may subscribe to exactly the prompts the API authorizes it for (below the org) and may publish on no subject |
| Broker.RefusedExactly | internal/pubsub/pubsub.go:213-225 | a client is turned away if and only if its token is not the broker's and is empty or refused by the credential check |
| Broker.AdmittedRights | internal/pubsub/pubsub.go:206-239 | the broker's own token may subscribe to and publish on every subject; nobody admitted with another token may publish at all |
| Broker.ClientRights | internal/pubsub/pubsub.go:226-239 | on every subject whatever: a client admitted by credential may watch exactly what lies below its org's token, or below "priompt" for an admin |
| Broker.UserScope | internal/pubsub/pubsub.go:158-173 | the same line for configured users; only publishers may publish |
| Broker.UserRights | internal/pubsub/pubsub.go:158-173 | on every subject whatever: a configured user may watch exactly what lies below its org's token (below "priompt" for an admin), and a publisher may publish exactly below "priompt" |
| Broker.OptionsUsers | internal/pubsub/pubsub.go:158-173 | the loop gives every configured user its own rights, in order |
| Auth.OrgPrefixIsParsedOrg | internal/auth/auth.go:79-100 | "scheme, org, slash" is a prefix of a URI if and only if its parsed org is that org and it goes below it, so acme never captures acmecorp |
| Auth.OrgIsUpToSlash | internal/auth/auth.go:110-111 | the org of a URI is what stands before the first slash of its path, with or without the scheme |
| Listing.ListPrompts | internal/server/server.go:160-182 | refuses exactly the unauthorized prefixes; otherwise the loop keeps the in-scope rows in order |
| Listing.ListingExact | internal/server/server.go:155-182 | the result is exactly the served prompts under the prefix that the caller may read, sorted, each once |
| Listing.ListedOnce | internal/server/server.go:168-181 | the order of a listing is strict, so no URI is listed twice |
| Listing.PrefixAccepted | internal/server/server.go:160-167 | exactly which requests are accepted and what is then listed: an unscoped caller gets what it asks for, a scoped one its own org, its bare org, or anything below its org |
| Listing.PrefixRuleIsExact | internal/auth/auth.go:79-100 | a prefix under the scheme, the bare org aside, is accepted if and only if every URI it can match is in the caller's scope |
| Listing.FilterOnlyMattersAtBareOrg | internal/server/server.go:174-178 | for an authorized prefix below the separator the second filter keeps everything the string test matches if and only if the scope holds no slash; so for a real org it matters only for the bare org prefix |
| Listing.EmptyPrefixIsOwnOrg | internal/server/server.go:157-164 | for a scoped token an empty prefix is authorized and lists exactly its own org's prompts |
| Import.CommitMainTo | cmd/priompt/main.go:502-517 | validate, skip what main holds, else commit; the store and outcome are those of the function |
| Import.CommitMainKeeps | cmd/priompt/main.go:498-517 | keeps the store invariant; unless it fails, main then holds and serves the content and no other prompt or ref moved; it is a no-op exactly when main holds the content already |
| Import.CommitMainOutcome | cmd/priompt/main.go:498-517 | exactly when it refuses, skips, fails and writes, and the row it writes: its content on main's old tip, by "priompt", with the given message |
| Import.ImportPrompts | cmd/priompt/main.go:758-796 | the decode loop and the commit loop in place: nothing is written unless every record is accepted |
| Import.AcceptedIsValid | cmd/priompt/main.go:767-783 | the file is accepted if and only if every line decodes, normalises and validates |
| Import.AcceptedMeansLines | cmd/priompt/main.go:767-783 | a file is accepted if and only if every line decodes, does not look like UTF-16 and stands for a valid prompt; item i then has line i's uri and slots, and its template without one leading byte-order mark and with CRLF as LF |
| Import.HeadIsNotUtf16 | cmd/priompt/main.go:759-766 | a file is refused by its first bytes if and only if they look like UTF-16 |
| Import.ImportCounts | cmd/priompt/main.go:784-795 | n + unchanged is the number of records, and exactly n commits are added |
| Import.ImportKeeps | cmd/priompt/main.go:784-795 | an import keeps the store invariant and every commit, even when it stops at a failed write |
| Import.ImportLastWins | cmd/priompt/main.go:784-795 | each named URI serves its last record from main; every other prompt and branch is untouched |
| Import.ImportServesLastLine | cmd/priompt/main.go:756-796 | the same said of the file: each prompt serves the normalised text and the slots of the last line about it, and a prompt without a line is left alone |
| Import.ImportSigns | cmd/priompt/main.go:784-787 | every commit an import adds is by "priompt" with the message "import" |
| Import.ImportStopsAtFailure | cmd/priompt/main.go:784-788 | a write that fails stops the import there and keeps exactly what came before |
| Import.NothingToImport | cmd/priompt/main.go:784-795 | an import writes nothing if and only if main already holds every record |
| Import.ReimportIdempotent | cmd/priompt/main.go:724-726 | importing the same file again writes nothing if and only if no URI occurs in it with two different contents |
| Import.RepeatedUriWritesAgain | cmd/priompt/main.go:724-726 | a concrete two-line file whose second import writes again |
| Backup.WriteBackup | cmd/priompt/backup.go:95-109 | the three loops produce header, commits, refs, prompts, in that order |
| Backup.StreamShape | cmd/priompt/backup.go:95-109 | a version 1 header, then every commit, every ref and every prompt, in the order of the dumps |
| Backup.Restore | cmd/priompt/backup.go:145-208 | the dispatch loop in place: store, counters and fatal exit are those of folding the records, a partial restore staying written |
| Backup.RefusedUnlessForced | cmd/priompt/backup.go:137-149 | a store that holds commits is refused untouched unless forced; otherwise force makes no difference |
| Backup.StopsAtFirstBad | cmd/priompt/backup.go:153-208 | a restore of good lines reaches the end; a newer format, an unusable bare prompt, an unknown kind or broken JSON stops it and keeps exactly what came before |
| Backup.EmptyTagsAreSkipped | cmd/priompt/backup.go:171-191 | a tagged line without its payload has no effect |
| Backup.LastRowServes | cmd/priompt/backup.go:185-191 | each prompt ends with its last row, and one without a row keeps what it had |
| Backup.RestoreOverlays | cmd/priompt/backup.go:153-208 | restoring a full backup lays its rows over the target whatever order the dumps list them in, and counts them |
| Backup.BackupRoundTrip | README.md:747-752 | backup then restore into an empty store rebuilds all three tables exactly, hashes verbatim; restoring again with force changes nothing |
| Backup.RestoreResumes | README.md:750-752 | restoring is idempotent into any store: after a restore that was refused, cut off after any record, or complete, a forced restore of the whole file ends exactly where one alone would have, counters included |
| Backup.EveryPrefixIsSafe | cmd/priompt/backup.go:99-109 | a restore cut off after any record leaves no dangling ref |
| Backup.ForcedRestore | cmd/priompt/backup.go:137-191 | a forced restore keeps parents and refs sound, keeps "served is main's tip" if and only if no prompt without history in the backup overrides a different one served from main here, and leaves all other keys alone |
| Backup.LegacyHasNoHistory | cmd/priompt/backup.go:192-204 | a file of untagged lines brings no commit and no branch, and every prompt it restores is counted as legacy |
| Backup.LegacyIsPrompts | cmd/priompt/backup.go:192-204 | a file of bare prompts restores exactly what the same prompts would with tags, and counts them as legacy |
| RateLimit.RateLimiter.Call | internal/server/observability.go:107-120 | find or create the org's limiter, then ask it: map and verdict are those of the decision function |
| RateLimit.Isolation | internal/server/observability.go:102-119 | in any interleaving an org's admissions equal those of its own calls on a limiter of its own |
| RateLimit.WindowBound | internal/server/observability.go:88-120 | in any window of an org's calls at most burst + rps times the window's length are admitted, burst defaulting to the truncated rate but at least one |
| RateLimit.RejectionIsEarned | internal/server/observability.go:107-120 | the converse: a call of an org among others is rejected only if, counted from some earlier call of that org, one more would have exceeded the cap plus rps times the time since |
| RateLimit.CapIs | internal/server/observability.go:96-101 | the cap is the burst if positive, else the rate truncated, but at least one |
| RateLimit.DisabledAdmitsAll | internal/server/observability.go:90-95 | a rate of zero or less admits every call |
| RateLimit.AloneSplits | internal/server/observability.go:107-120 | deciding a sequence of calls at once or in two parts is the same |
| Lines.SplitLinesIsNorm | internal/server/server.go:481-487 | joining the lines gives the normalised text, no line holds a newline, and two texts split alike if and only if their normal forms are equal |
| Lines.TrailingNewline | internal/server/server.go:476-480 | a trailing LF is invisible if and only if the text ends in neither LF nor CR; a trailing CRLF if and only if it does not end in LF |
| Lines.NormalizeIsInvisible | cmd/priompt/main.go:973-984 | for accepted text without a byte-order mark, normalising on input is invisible to the line splitter if and only if no CR precedes a CRLF |
| Lines.RefusedIsUtf16 | cmd/priompt/main.go:978-981 | text is refused if and only if it begins with a UTF-16 byte-order mark or holds a zero byte |
| Lines.AcceptedIsUnmarked | cmd/priompt/main.go:982-983 | otherwise exactly one leading UTF-8 byte-order mark is dropped and CRLF becomes LF |
| Lines.ReplaceTwice | cmd/priompt/main.go:982-983 | replacing CRLF twice changes the text further if and only if some CR precedes a CRLF |

## Left out

- CreateBranch naming main on a prompt that has no main: decided by the store library, which is not part of this model; the model refuses it.
- ConcurrentLog.LogTracksHead: only the implication, because a disturbed run can still end with the right event by coincidence of contents; `LogStepExact` is the equivalence for single steps, and `MergeLosesEvent` and `AnnouncementsSwap` show that the condition on interleaving is needed.
- ConcurrentReads.StaleOnlyIf: writes made by the command line beside a live server bypass the cache by design, so they appear in `Writers` and not in the cache theorems.
- RateLimit.WindowBound: rates and times are real numbers, not floats, and the rate library's bucket is its documented contract.
- RateLimit.RateLimiter.Call: limiter objects are values of the map, so sharing one limiter between two keys cannot be expressed.
- Tenancy.TenantIsolation: listings and the rate limiter have their own results (`ListingExact`, `Isolation`), and overlapping calls are not covered.
- Auth.OrgPrefixIsParsedOrg: the parsed org is the first path segment after the scheme; the validation library that parses it is not part of this model.
- Writers.AllWritersKeepInv: put's structural-change gate (cmd/priompt/main.go:469-485) only decides whether the write happens.
- What the semantic analysis answers, an analysis that fails, the embedder, DiffPrompt and DiffCommits (with commitOf): the diff engine is another repository's.
- A Redis cache configured with a TTL of zero or less; the model assumes a positive TTL in the staleness theorems.
- Transient failures of store reads inside handlers; only transactions and cache operations fail here.
- A transaction that commits although its caller sees a timeout or cancellation, and those two status codes.
- SQL, migrations, sealing, protobuf and JSON: encoding is the identity.
- ListBranches, the row order of ListCommits, and the handlers around History and ListCommits: plain reads of what `Chain` and `CommitsOf` model.
- NATS beyond subject matching and permissions: clustering, TLS, credential verification and expiry.
- Metrics, audit log, flags, dialing and deployment scripts.
