# A verified model of registryd

`registryd` is a container registry: it stages uploads, publishes blobs under
their digests, keeps manifests, tags and quotas in Postgres, and is watched over
by a few tools. This project models its protocols and algorithms and proves what
they promise. `dafny verify dfyconfig.toml` checks everything.

One SQL statement or transaction is one step; the object store is a map from keys
to bytes; SHA-256 is a function parameter, injective where a lemma says so
(`CollisionFree`); UUIDs and random suffixes are fresh values.

| files | what they hold |
|---|---|
| `Staging`, `SharedStaging`, `StagingSweep`, `ChunkReader`, `Commit` | shared upload staging as a protocol of any number of replicas, one replica's requests in it, what a sweep among others leaves, the reader over the staged chunks, and the commit |
| `BlobGraph`, `Registry` | blob rows, links, manifests, references, tags and content under handlers that may die between any two steps; the handlers themselves over their tables |
| `Quota` | the two usage sums, the check, and what serial runs keep |
| `Glob`, `GlobRegexp`, `TagRules` | the two glob engines, and the guarded tag operations as an interleaving protocol with row locks |
| `RateLimit`, `SharedCounter` | the in-memory limiter and the counter shared by all replicas |
| `Traffic` | the batch-and-merge-back counter, on heap objects |
| `Migrate`, `Paths`, `Verify` | the storage tools and the key layout they rely on |
| `Strings`, `Router`, `Csv` | path splitting and labelling, and the audit export with its parser |
| `Wrappers` | the option type, minimum and maximum |

Where the source loops or updates fields, the model is a method or a class with
loop invariants, tied by its `ensures` to a function or a state machine; the
properties are lemmas about those.

## What the proofs found

- The offset-only lock accepts two appends that read the same offset when the
  first is empty, so a sequence number may repeat (`Staging.SeqMayRepeat`); the
  content is right all the same, and the lag is exactly the empty appends in
  between (`Staging.SeqLagsOnlyOverEmptyChunks`).
- The tag glob matcher is right for every pattern exactly on names without `*`,
  which the tag pattern guarantees (`Glob.RightExactlyOnStarFreeNames`). The
  regexp engine is right for every glob exactly on texts without a newline
  (`GlobRegexp.RightExactlyWithoutNewline`).
- The garbage collector's grace window counts from the first upload of a digest to
  a repository, not from the latest: a re-uploaded, unreferenced blob loses an old
  link at once (`BlobGraph.GraceProtectsExactly`, `BlobGraph.RepushIsNotProtected`;
  the comment at store.go:603-605 promises protection "moments" after an upload).
- Pushing a payload that names no media type once as an index and once as an image
  leaves the config column stale, because the conflict clause does not touch it
  (`BlobGraph.AmbiguousPayloadGoesStale`); for every other payload it stays right.
- `FOR UPDATE` locks no absent row, so two first pushes of an immutable tag can
  both succeed (`TagRules.TwoFirstPushesRace`), against the comment at
  tagrules.go:151-153. Such blind writes are the only way to re-point an immutable
  tag, and a tag that exists under rules is safe exactly when no request is
  already past its check (`TagRules.BoundForGoodIffSettled`).
- The in-memory limiter lets fewer than twice the limit through in any stretch of
  one window's length, and the bound `2 * limit - 1` is reached.
- Sweeping the shared counter is unseen in every run exactly while skew plus window
  is at most twice the longest window plus one.
- A path that ends in an empty reference or digest, such as `/v2/a/b/manifests/`, is
  dispatched to its handler and labelled `other`
  (`Router.EmptyReferenceIsMislabelled`); every other dispatched path is labelled as
  dispatched (`Router.LabelAgreesWithDispatch`).
- `DigestFromPath` is called the inverse of `BlobPath`; as such it fails exactly for
  keys whose algorithm directory holds a colon (`Paths.KeyReadsBack`), such as
  `blobs/a:b/ab/abc` (`Paths.ColonKeyIsMisread`). A row whose digest has one malformed
  shape, such as `ab/abc` (`Paths.SomeTextMasquerades`), can have its object taken for
  an orphan, and no other row can (`Paths.OwnPathReadsAsOwnDigest`). No digest the
  registry accepts is affected.

## Model

| member | source | states |
|---|---|---|
| Staging.StepKeepsInv | registryd/internal/storage/shared.go:109-148 | every step of any request, crash or sweep keeps the protocol's invariant: rows match the accepted log, logged objects are intact, keys have one owner, names are never reused |
| Staging.RunKeepsInv | registryd/internal/storage/shared.go:109-272 | so does every interleaving |
| Staging.StagedContentIsExact | registryd/internal/store/uploads.go:42-60 | in every run a live session's offset is the sum of its chunk sizes, and its stored chunks concatenate to exactly the accepted bodies in lock order, each starting at the offset its caller expected |
| Staging.AcceptedObjectsNeverChange | registryd/internal/storage/shared.go:120-148 | an accepted chunk's object holds its body or is gone, at any later time |
| Staging.DeletesOnlyOfTheDead | registryd/internal/storage/shared.go:210-272 | cancel and sweep never delete an object of a session live then or later |
| Staging.DeadStaysDead | registryd/internal/store/uploads.go:62-94 | a removed session id never comes back |
| Staging.SeqLagsOnlyOverEmptyChunks | registryd/internal/storage/shared.go:119-122 | a sequence number is its index less the appends accepted since its read, all of them empty |
| Staging.SeqMayRepeat | registryd/internal/storage/shared.go:119-122 | a run in which two accepted chunks have the same sequence number |
| Staging.RowHoldsLog | registryd/internal/storage/shared.go:150-160 | sizes and stored bytes of a row's chunks are those of the log it stands for |
| SharedStaging.Replica.Append | registryd/internal/storage/shared.go:109-148 | answers success exactly when its own lock step succeeded, whatever others do in between; then the session stands behind its body; a mismatch tells the session's offset, which is not the expected one; the loser's object is gone when its delete succeeded |
| SharedStaging.Replica.LockOrDrop | registryd/internal/storage/shared.go:129-148 | the lock step and the answer to a lost race, with the loser's object gone when its delete succeeded |
| SharedStaging.RunKeepsReachedAndMine | registryd/internal/store/uploads.go:42-60 | in every run offsets never shrink, removed ids never return, and a key has one writer |
| SharedStaging.Replica.Sweep | registryd/internal/storage/shared.go:234-272 | alone, it leaves exactly the objects of live sessions and those whose delete failed, and counts the expired sessions and those whose orphans went |
| StagingSweep.StoredIsWritten | registryd/internal/storage/shared.go:90-127 | in every run, a key that is stored will not be written again |
| StagingSweep.GoneStaysGone | registryd/internal/storage/shared.go:90-127 | so an object once stored and then gone never comes back |
| StagingSweep.ListedOrphansAreGone | registryd/internal/storage/shared.go:234-272 | after a sweep among any other requests, an object it listed whose session was dead when it read the ids is gone for good, unless its own delete failed |
| StagingSweep.OnlyLiveOrLaterRemains | registryd/internal/storage/shared.go:234-272 | what is stored after such a sweep, then or later, belongs to a session live when the ids were read or was put after the listing |
| SharedStaging.Replica.DropExpired | registryd/internal/storage/shared.go:234-246 | expired rows go first, then only their objects |
| SharedStaging.Replica.DropOrphans | registryd/internal/storage/shared.go:247-272 | every listed object of a session that is not live goes, and no other |
| SharedStaging.Replica.Remove | registryd/internal/storage/shared.go:210-230 | a cancel among other requests: the session is dead at once, and when it returns every chunk the session had is gone, unless its own delete failed |
| StagingSweep.RemovedSessionIsGone | registryd/internal/storage/shared.go:210-230 | once a cancel has come to the end of its keys and its deletes succeeded, no chunk of its session is stored, then or later, whatever others do |
| StagingSweep.ExpiredSessionIsGone | registryd/internal/storage/shared.go:238-245 | nor is a chunk of a session that a sweep found expired |
| StagingSweep.CreateOpens | registryd/internal/store/uploads.go:18-23 | a fresh id opens an empty session and touches no other |
| SharedStaging.OthersLeaveAlone | registryd/internal/storage/shared.go:109-148 | other requests neither move this one nor win in its name |
| ChunkReader.Reader.Open | registryd/internal/storage/shared.go:170-187 | opens a chunk exactly when its object is there with the recorded size, or a store that reports no size has it |
| ChunkReader.Reader.Read | registryd/internal/storage/shared.go:162-199 | what is returned comes next in the concatenated bodies, for all buffer sizes and short reads and whatever happens to the store between two openings; the end of file comes exactly at the end; an error only when a read failed or a chunk was not as recorded; the skip loop ends |
| ChunkReader.VerifyingReader.Read | registryd/internal/storage/verify.go:35-53 | the end of file is clean exactly when everything read hashes to the digest |
| Commit.Backend.Put | registryd/internal/storage/driver.go:31-35 | content becomes visible only after a clean end of the announced size, and then it does unless the driver fails |
| Commit.Backend.StagedDigest | registryd/internal/storage/staging.go:61-69 | digest and length are those of the whole staged content |
| Commit.Backend.CommitUpload | registryd/internal/api/uploads.go:254-331 | created exactly for staged bytes that hash to the digest and have the session's size, when quota, reads, driver and database let it; each refusal names its cause; only a commit publishes, records and links, and any other outcome leaves rows and links alone |
| Commit.Backend.CommitSession | registryd/internal/api/uploads.go:254-331 | end to end over protocol runs: session read, opened later, each chunk opened at any later time; created means that exactly the content staged when the session was read was verified, published and linked; without failures and while the session lives, staged content of the right digest and size is committed |
| Commit.OpenedSessionStaysHonest | registryd/internal/storage/shared.go:150-160 | chunks read from a session row hold the accepted bodies, or are gone, whatever replicas do afterwards |
| Commit.LiveSessionStaysRecorded | registryd/internal/storage/shared.go:150-199 | the chunks a commit opens are there as recorded for as long as the session lives, so only its removal or a failing read can stop one |
| Commit.LateAppendCannotSlipIn | registryd/internal/api/uploads.go:261-306 | an append between reading and opening the session can only make the commit fail |
| Commit.LogOnlyGrows | registryd/internal/store/uploads.go:42-60 | accepted appends are only ever added at the end |
| BlobGraph.ReadingIsStable | registryd/internal/manifest/parse.go:68-122 | a stored manifest read again under its recorded media type is what the push saw |
| BlobGraph.ReadingOfRaw | registryd/internal/manifest/parse.go:68-122 | which raw fields each media type reads, which digest becomes the config column, and exactly which content types and payloads are refused |
| BlobGraph.RefsMeanPointsAt | registryd/internal/manifest/parse.go:134-150 | the references are the config, the non-foreign layers and the children |
| BlobGraph.StepKeepsInv | registryd/internal/store/store.go:217-345 | every transaction, driver call or crash keeps: content hashes to its digest, rows have content, links have rows, references are exact, manifests are whole, tags have manifests |
| BlobGraph.RunKeepsInv | registryd/internal/store/store.go:217-644 | so does every serial run, stopped anywhere |
| BlobGraph.StoredManifestsStayWhole | registryd/internal/api/manifests.go:205-253 | after any run every stored manifest's config and non-foreign layers are linked to its repository, recorded and stored |
| BlobGraph.StoredPayloadsStayWhole | registryd/internal/api/manifests.go:205-253 | the same read off the stored payloads: after any run an image's config and its non-foreign layers, and the members of an index, as its JSON names them, are referenced; those of an image are linked, recorded and stored with their content |
| BlobGraph.AcceptedExactlyWhenNamedIsThere | registryd/internal/api/manifests.go:205-234 | a push is accepted exactly when the payload can be read and what its JSON names is there: blobs for an image, manifests for an index |
| BlobGraph.RowsAlwaysHaveContent | registryd/internal/api/blobs.go:117-130 | after any run with crashes anywhere, each blob row has content of its size hashing to its digest |
| BlobGraph.DigestNamesOneContent | registryd/internal/storage/driver.go:31-35 | a digest never changes what it names |
| BlobGraph.UnreferencedLinksMayGo | registryd/internal/store/store.go:610-616 | removing unreferenced links leaves every manifest whole |
| BlobGraph.ReferencedMeansPointedAt | registryd/internal/store/store.go:181-188 | a blob is referenced in a repository exactly when a manifest there points at it |
| BlobGraph.CollectionIsExact | registryd/internal/store/store.go:606-644 | which links and rows a collection keeps, both ways, and that it touches nothing else |
| BlobGraph.GraceProtectsExactly | registryd/internal/store/store.go:603-616 | a just committed blob survives a collection within the window exactly when its link is new, young or referenced |
| BlobGraph.GraceProtectsMounts | registryd/internal/store/store.go:237-243 | the same for a mounted link, whose age counts from the mount, not from the source's upload |
| BlobGraph.RepushIsNotProtected | registryd/internal/store/store.go:217-235 | a run in which a blob uploaded anew loses its link within the grace window |
| BlobGraph.ConfigColumnStaysRight | registryd/internal/store/store.go:314-330 | a manifest's config column follows its current reading unless its payload can be read both ways |
| BlobGraph.AmbiguousPayloadGoesStale | registryd/internal/store/store.go:321-328 | every payload that can be read both ways makes it stale |
| Registry.References | registryd/internal/manifest/parse.go:136-150 | the list holds exactly the digests the manifest points at |
| Registry.Server.UpsertBlob | registryd/internal/store/store.go:218-235 | row and link are inserted unless they exist |
| Registry.Server.UnlinkBlob | registryd/internal/store/store.go:272-297 | tells the links left; the row goes with the last one |
| Registry.Server.UpsertManifest | registryd/internal/store/store.go:315-345 | the row is written and its references replaced by exactly the new ones |
| Registry.Server.DropLinks | registryd/internal/store/store.go:610-620 | first statement of a collection, and its count |
| Registry.Server.DropRows | registryd/internal/store/store.go:622-642 | second statement; it returns each deleted digest once |
| Registry.Server.HandleCommit | registryd/internal/api/uploads.go:269-322 | which answer when, with quota, driver and database refusals; content, row and link after a commit; a mismatch changes nothing; a failure or crash leaves rows and links alone |
| Registry.Server.HandleMount | registryd/internal/api/uploads.go:102-123 | accepted exactly when the source links the blob and the quota allows it; then it can be pulled from the target; a new link is as old as the mount, and other links and all rows stay |
| Registry.Server.ReferencesAreThere | registryd/internal/api/manifests.go:205-234 | the checks pass exactly when everything the manifest points at is there |
| Registry.Server.HandleManifestPut | registryd/internal/api/manifests.go:162-282 | which answer when, with quota and tag rules, and that nothing else refuses; an accepted manifest reads back as pushed, its tag names it, and the config, layers and members its payload names are linked, stored and referenced; a tag refused late leaves the manifest |
| Registry.Server.HandleTagDelete | registryd/internal/api/manifests.go:300-330 | only the tag goes, unless it is protected |
| Registry.Server.HandleManifestDelete | registryd/internal/api/manifests.go:332-355 | the manifest goes with exactly its references and tags, unless a tag is protected |
| Registry.Server.HandleBlobDelete | registryd/internal/api/blobs.go:107-137 | refused exactly while a manifest of the repository points at the blob; the row goes with the last link and the content after it; the server is idle again however it ends |
| Registry.Server.PurgeAll | registryd/internal/api/internal.go:180-187 | exactly the digests whose driver call succeeds lose their content, and are counted |
| Registry.Server.HandleGC | registryd/internal/api/internal.go:162-203 | effects and counts of a whole pass with failing deletes; a dying one leaves the tables where its last statement did, and content lost of dropped rows only |
| Registry.Server.Serve | registryd/internal/api/internal.go:162-203 | after any serial run of handlers, each dying where it may, with time passing in between, every stored manifest is whole |
| Registry.Server.UploadThenCollect | registryd/internal/store/store.go:603-644 | a blob nobody refers to is gone with row, link and content once its grace is over |
| Quota.SumRemove | registryd/internal/store/quota.go:44-61 | the sum over distinct rows does not depend on their order |
| Quota.Store.CheckStorageQuota | registryd/internal/store/quota.go:66-117 | passes exactly when the scopes that govern the organization have room; an error names one that has not, with its usage and limit |
| Quota.Store.ResolveRepoForWrite | registryd/internal/api/uploads.go:360-420 | accepted exactly when the repository exists or may be created and the content counts already or fits; the repository is created only then; a refusal names its reason |
| Quota.Store.Push | registryd/internal/api/uploads.go:293-321 | a blob commit or mount as a step of the run |
| Quota.Store.PushManifest | registryd/internal/api/manifests.go:188-193 | a manifest push asks for no more room, but may create the repository |
| Quota.OrgHasBlobMeansCounted | registryd/internal/store/quota.go:187-198 | the existence query answers exactly whether the digest counts in the organization |
| Quota.LinkAddsOnce | registryd/internal/store/quota.go:43-61 | a link adds its size once to its organization, and to its owners' pools exactly when the organization has no limit of its own |
| Quota.AcceptsExactly | registryd/internal/store/quota.go:63-117 | a push is accepted exactly when its content counts already or the governing scopes are within their limits afterwards |
| Quota.OwnLimitSparesOwners | registryd/internal/store/quota.go:72-82 | a push into an organization with its own limit moves no owner's pool |
| Quota.StepKeepsScopes | registryd/internal/api/uploads.go:360-420 | each step leaves every governed scope as it was, lower, or within its limit |
| Quota.UsageNeverPassesLimits | registryd/internal/store/quota.go:63-117 | over any serial run usage stays within the limit, or where it began if that was above |
| Glob.MatchTagGlob | registryd/internal/store/tagrules.go:38-63 | the loop ends, accepts only names the pattern means, and decides the meaning on names without a star |
| Glob.CharactersMean | registryd/internal/store/tagrules.go:35-37 | what a question mark and a literal character mean |
| Glob.LeftmostIsEnough | registryd/internal/store/tagrules.go:46-54 | backing up only to the last star loses no match |
| Glob.ScanDecides | registryd/internal/store/tagrules.go:38-63 | from any point of the loop the answer is right |
| Glob.AcceptsOnlyMatches | registryd/internal/store/tagrules.go:38-63 | an accepted name is one the pattern means, on all names |
| Glob.DecidesStarFreeNames | registryd/internal/api/router.go:63 | right on the names the tag pattern allows |
| Glob.StarIsMisread | registryd/internal/store/tagrules.go:43-46 | every name with a star has a pattern that is answered wrongly |
| Glob.RightExactlyOnStarFreeNames | registryd/internal/store/tagrules.go:43-46 | right for all patterns exactly on names without a star |
| GlobRegexp.GlobToRegexp | registryd/internal/upstream/names.go:65-80 | the loop prints the pieces of the expression in order |
| GlobRegexp.PrintedIsRead | registryd/internal/upstream/names.go:65-80 | the printed expression is read as the glob's items, with every special character quoted |
| GlobRegexp.LanguageIsMeaning | registryd/internal/upstream/names.go:65-80 | its language is the glob's meaning on texts without a newline |
| GlobRegexp.RightExactlyWithoutNewline | registryd/internal/upstream/names.go:65-80 | right for all globs exactly on texts without a newline |
| GlobRegexp.EnginesAgree | registryd/internal/store/tagrules.go:35-63 | the two engines agree on names with neither star nor newline |
| TagRules.Store.TagRulesFor | registryd/internal/store/tagrules.go:93-112 | exactly the rules of the repository and its organization, the repository's first |
| TagRules.Store.FirstRule | registryd/internal/store/tagrules.go:65-73 | the first rule that wants it and matches, or none does |
| TagRules.Store.CheckTagImmutable | registryd/internal/store/tagrules.go:130-149 | refuses exactly the re-pointing of a tag that matches the pattern of an immutable rule of its repository or organization |
| TagRules.Store.UpsertTagGuarded | registryd/internal/store/tagrules.go:154-186 | read and write as steps of the protocol with others in between; refuses exactly the re-pointing of a tag that an immutable rule matches; a row that was found is the row that is replaced |
| TagRules.Store.DeleteTag | registryd/internal/api/manifests.go:305-313 | refuses exactly the tags that a protecting rule of the repository or organization matches |
| TagRules.Store.CheckManifestDeletable | registryd/internal/store/tagrules.go:203-223 | refuses exactly when a tag that names the manifest matches a protecting rule |
| TagRules.StepKeepsInv | registryd/internal/store/tagrules.go:154-186 | a locked row stays what its holder read, and has one holder |
| TagRules.CoveredTagStaysBound | registryd/internal/store/tagrules.go:130-223 | in every interleaving a tag kept immutable and protected stays bound, and its manifest is never deleted, unless a request was past its check before |
| TagRules.MarkedTagStaysBound | registryd/internal/store/tagrules.go:75-81 | the same in the rules' own fields: while in each state some rule marks the tag immutable and some rule protected, it stays bound |
| TagRules.BoundForGoodIffSettled | registryd/internal/store/tagrules.go:130-223 | safe in all runs exactly when no pending request would move it |
| TagRules.OnlyBlindWritesRepoint | registryd/internal/store/tagrules.go:151-186 | a step that re-points an immutable tag is a guarded write that found no row |
| TagRules.TwoFirstPushesRace | registryd/internal/store/tagrules.go:161-182 | a run, covered throughout, in which two first pushes of an immutable tag both succeed |
| TagRules.CoveredMeansMatched | registryd/internal/store/tagrules.go:65-81 | on accepted tag names, covered means that a rule with that flag, of the repository or its whole organization, matches |
| RateLimit.Limiter.Take | registryd/internal/ratelimit/ratelimit.go:216-237 | while the clock does not run back, the decision is that of a limiter that never sweeps, although nothing is kept that began two windows ago or earlier |
| RateLimit.Limiter.Sweep | registryd/internal/ratelimit/ratelimit.go:239-246 | exactly the entries that have run out go |
| RateLimit.MissingEntryShows | registryd/internal/ratelimit/ratelimit.go:222-226 | a missing entry changes the answer exactly when it had not run out |
| RateLimit.EntryStaysOk | registryd/internal/ratelimit/ratelimit.go:216-237 | an entry's count is what its window let through |
| RateLimit.WindowIsExact | registryd/internal/ratelimit/ratelimit.go:201-237 | a window lets through at most the limit and refuses only once it has; the answer tells what is left and when the window ends |
| RateLimit.BelowTwiceTheLimit | registryd/internal/ratelimit/ratelimit.go:216-237 | fewer than twice the limit get through in any stretch of a window's length, for every monotone request sequence |
| RateLimit.Answer | registryd/internal/ratelimit/ratelimit.go:216-246 | a limiter run over any monotone sequence, sweeps included, lets through exactly what is counted here, so fewer than twice the limit in any stretch of a window's length |
| RateLimit.BoundIsReached | registryd/internal/ratelimit/ratelimit.go:216-237 | a sequence that reaches the bound, for every limit |
| SharedCounter.Database.TakeRateLimit | registryd/internal/store/ratelimit.go:17-30 | the upsert and the count it returns |
| SharedCounter.Database.SweepRateLimits | registryd/internal/store/ratelimit.go:32-39 | exactly the rows before the cutoff go, and are counted |
| SharedCounter.Database.SharedTake | registryd/internal/ratelimit/ratelimit.go:265-277 | one request as a step of the protocol, and its reply |
| SharedCounter.ReplyIsExact | registryd/internal/ratelimit/ratelimit.go:265-277 | for any clocks and sweeps, a reply allows exactly while the requests its stored window has seen are fewer than the limit, tells what is left of it, and resets at the end of the request's aligned window |
| SharedCounter.FirstReplyIsExact | registryd/internal/ratelimit/ratelimit.go:265-277 | the first request of a window is allowed and leaves the limit less one |
| SharedCounter.SweepingIsUnseen | registryd/internal/api/ratelimit.go:176-187 | with and without sweeps all decisions are the same while the clocks agree |
| SharedCounter.UnseenExactlyWhileClocksAgree | registryd/internal/api/ratelimit.go:176-187 | in all runs exactly when skew plus window is at most twice the longest window plus one; a skew of one window is fine |
| SharedCounter.FarClocksShow | registryd/internal/api/ratelimit.go:176-187 | for every larger skew, a run in which sweeping changes an answer |
| SharedCounter.WindowSpendsWhatIsLeft | registryd/internal/store/ratelimit.go:17-30 | without sweeps a stored window spends at most what it has left and never comes back, for any clocks |
| SharedCounter.OneBudgetForAllReplicas | registryd/internal/ratelimit/ratelimit.go:248-277 | with sweeps, the replies of every stored window allow at most the limit while the clocks agree |
| SharedCounter.BetweenAdvancesIsExact | registryd/internal/store/ratelimit.go:17-30 | for any clocks and sweeps, between two changes of the stored start exactly the first requests up to the limit are answered as allowed |
| Traffic.StepBalances | registryd/internal/traffic/traffic.go:62-117 | every step leaves what is pending, in flight and stored of a bucket as it is in sum, but for an add to it, which grows each of the five counters by its amount |
| Traffic.EveryRunBalances | registryd/internal/traffic/traffic.go:62-117 | so in every interleaving of adds and flushes that sum grows by exactly what the requests of the run added |
| Traffic.QuietMeansStored | registryd/internal/traffic/traffic.go:84-117 | with no flush running and nothing pending, the table holds exactly what the requests of the run added |
| Traffic.Counter.Add | registryd/internal/traffic/traffic.go:62-75 | each counter of the bucket grows by its amount; nothing else changes |
| Traffic.Counter.Swap | registryd/internal/traffic/traffic.go:90-97 | the pending buckets change hands, and no delta object is shared |
| Traffic.Counter.Rows | registryd/internal/traffic/traffic.go:99-102 | one row for each bucket with its amounts |
| Traffic.Counter.Persist | registryd/internal/traffic/traffic.go:37-38 | a sink that succeeds has added the whole batch |
| Traffic.Counter.Return | registryd/internal/traffic/traffic.go:105-112 | a bucket comes back as the object it was where its key is free, and is added in elsewhere |
| Traffic.Counter.MergeBack | registryd/internal/traffic/traffic.go:103-114 | a failed batch comes back whole |
| Traffic.Counter.Flush | registryd/internal/traffic/traffic.go:86-117 | a flush with others adding meanwhile |
| Migrate.Migrator.Process | registryd/internal/storagetools/migrate.go:154-221 | one row's outcome, with every error path |
| Migrate.Migrator.Stat | registryd/internal/storagetools/tools.go:163-177 | size and existence from the listing, with the backend behind a miss |
| Migrate.Migrator.Walk | registryd/internal/storagetools/migrate.go:82-116 | the rows as far as the run comes, against a listing taken once |
| Migrate.EachRowCountsOnce | registryd/internal/storagetools/migrate.go:133-238 | each row is counted once among copied, skipped, missing, corrupt and failed; a hundred problems are kept at most |
| Migrate.FiguresAreExact | registryd/internal/storagetools/migrate.go:133-238 | each figure of the report is the number or the bytes of the rows it stands for, judged against the target as the run found it, and the problems kept are the first ones |
| Migrate.CompleteMeansServed | registryd/internal/storagetools/migrate.go:53-57 | after a complete run that was not dry the target serves each row; where it verified, with content hashing to the digest |
| Migrate.AllTouchTheirDigests | registryd/internal/storagetools/migrate.go:206-221 | what a run changes is content of its rows, to content that hashes right; a dry run changes nothing |
| Migrate.SoundStaysSound | registryd/internal/storagetools/migrate.go:206-221 | right content is never lost |
| Migrate.SkipsAllExactlyWhenAllFit | registryd/internal/storagetools/migrate.go:165-191 | without verification a run skips everything exactly when the target has an object of each row's size |
| Migrate.RerunCopiesNothing | registryd/internal/storagetools/migrate.go:82-86 | a run after a complete one copies nothing when row sizes are content lengths |
| Migrate.AnyOrderWillDo | registryd/internal/storagetools/tools.go:65-99 | however the workers order the rows, the target and every count come out the same |
| Paths.PathReadsBack | registryd/internal/storage/driver.go:112-131 | an accepted digest is read back from its path |
| Paths.PathsDiffer | registryd/internal/storage/driver.go:45-58 | no two accepted digests share a path |
| Paths.PathLayout | registryd/internal/storage/driver.go:48-58 | the key of a digest with both parts: algorithm, first two digits, digits |
| Paths.KeyReadsBack | registryd/internal/storage/driver.go:112-131 | a key that reads as a digest is that digest's path exactly when its second part has no colon |
| Paths.ColonKeyIsMisread | registryd/internal/storage/driver.go:112-131 | a key that reads as a digest whose path is elsewhere |
| Paths.DigestsDiffer | registryd/internal/storage/driver.go:112-131 | no two keys read as the same digest |
| Paths.OwnPathReadsAsOwnDigest | registryd/internal/storage/driver.go:48-58 | any digest's path reads as that digest or as none, exactly unless the digest is of one malformed shape |
| Paths.SomeTextMasquerades | registryd/internal/storage/driver.go:48-52 | a text of the malformed shape |
| Paths.SessionReadsBack | registryd/internal/storage/shared.go:92-107 | a chunk key's session is read back |
| Verify.ListBlobs | registryd/internal/storagetools/tools.go:138-158 | every listed object is in the inventory under its digest or among the unrecognised, and none is lost |
| Verify.AcceptedIsListedAtItsPath | registryd/internal/storagetools/tools.go:138-158 | an accepted digest is in the inventory exactly when its path is listed |
| Verify.Verifier.Judge | registryd/internal/storagetools/verify.go:171-209 | what each verdict means; good exactly when the backend serves the row and can be asked |
| Verify.PassesMeans | registryd/internal/storagetools/verify.go:171-209 | a row passes exactly when its object is at its path with its size, hashes to its digest where content is hashed, and the backend could be asked |
| Verify.Verifier.Walk | registryd/internal/storagetools/verify.go:65-68 | each row counts once, and the report is clean exactly when every row passes |
| Verify.Verifier.RemoveOrphans | registryd/internal/storagetools/verify.go:211-256 | in the options' own terms: exactly the listed objects no row asks for go whose age is known and past the grace period, when deletion is on and the backend lets go; counts and bytes are theirs |
| Verify.GoneMeans | registryd/internal/storagetools/verify.go:224-252 | which objects go and that the others stay as they are |
| Verify.WalkedRowsKeepTheirObjects | registryd/internal/storagetools/verify.go:224-252 | the object of a walked row is never deleted as an orphan, unless its digest is of the malformed shape |
| Verify.MasqueradersLoseTheirObjects | registryd/internal/storagetools/verify.go:224-252 | and every digest of that shape can lose it |
| Verify.AcceptedDoNotMasquerade | registryd/internal/api/router.go:64 | no accepted digest is of that shape |
| Strings.SplitJoin | registryd/internal/api/router.go:127-131 | joining parts without separators and splitting again |
| Strings.CutIsFirst | registryd/internal/storage/driver.go:49 | a text is cut at its first separator |
| Router.RouteV2 | registryd/internal/api/router.go:114-241 | the dispatcher's loop; an accepted name is split so that authorisation finds the same target |
| Router.EndpointsMean | registryd/internal/api/router.go:165-241 | for each handler, exactly which words and verbs lead to it |
| Router.NamesMean | registryd/internal/api/router.go:132-163 | how a name is read at each depth |
| Router.AuthFindsTarget | registryd/internal/api/router.go:271-280 | cutting the name at its first slash gives the dispatcher's organization and repository |
| Router.AuthFindsLocalTarget | registryd/internal/api/router.go:271-280 | in a Docker Hub proxy the authorised repository is the local name of the dispatched one |
| Router.NamesCoincide | registryd/internal/upstream/names.go:27-47 | the short and the long name of a library image lead to one repository, under its short name, and one upstream path |
| Router.BuiltPathRoutesBack | registryd/internal/api/router.go:127-163 | a path built from an accepted name is routed back to the same target, at any depth |
| Router.UploadLocationRoutesBack | registryd/internal/api/uploads.go:20-22 | an upload Location leads back to the upload |
| Router.BlobLocationRoutesBack | registryd/internal/api/uploads.go:24-26 | a blob Location leads back to the blob |
| Router.RouteTemplate | registryd/internal/metrics/metrics.go:244-283 | the labeller's backward loop |
| Router.LabelsMean | registryd/internal/metrics/metrics.go:262-283 | which handlers share a label |
| Router.OtherLabels | registryd/internal/metrics/metrics.go:244-261 | the labels of paths that are not dispatched |
| Router.RestGivesLabel | registryd/internal/metrics/metrics.go:244-283 | the label depends on the last segments only |
| Router.LabelAgreesWithDispatch | registryd/internal/metrics/metrics.go:244-283 | read from the right, every path is labelled as it is dispatched from the left, exactly unless it ends in an empty reference or digest; then it is `other` |
| Router.EmptyReferenceIsMislabelled | registryd/internal/metrics/metrics.go:262-283 | a path of that kind that is dispatched |
| Csv.AuditRowsToCsv | web/src/lib/audit-shared.ts:112-125 | parsing the export gives the header and one record of neutralised values for each row |
| Csv.RecordHoldsFields | web/src/lib/audit-shared.ts:93-123 | column by column, which field of the row is shown and exactly when a quote is put in front |
| Csv.CellsAreWellFormed | web/src/lib/audit-shared.ts:104-110 | a cell without quotes around it holds no quote, comma or line break |
| Csv.FieldRoundTrip | web/src/lib/audit-shared.ts:104-110 | any text, quoted where needed, is read back |
| Csv.RecordRoundTrip | web/src/lib/audit-shared.ts:112-123 | so is a record |
| Csv.FileRoundTrip | web/src/lib/audit-shared.ts:112-125 | so is a file |
| Csv.ExportIsInjective | web/src/lib/audit-shared.ts:112-125 | tables with the same export hold the same neutralised values |

## Left out

- SharedStaging.Replica.Sweep: its exact result is stated with no other replica acting during the sweep; a sweep among others is StagingSweep.ListedOrphansAreGone and Staging.DeletesOnlyOfTheDead.
- SharedStaging.Replica.DropExpired: as a step of that sweep, likewise with no other replica acting.
- SharedStaging.Replica.DropOrphans: as a step of that sweep, likewise with no other replica acting.
- StagingSweep.GoneStaysGone: an object store that completes a write after its replica has died is not modelled.
- SharedStaging.Replica.Append: a database error means that the update was not applied; a lost answer to a committed update is not modelled.
- Registry.Server.HandleCommit: handlers are serial, since nothing in the code locks a commit against a collection of the same digest; quota decisions enter as flags and are made in Quota.
- Registry.Server.HandleManifestPut: tag-rule decisions enter as flags and are made in TagRules; proxy organizations are left out.
- Quota.Store.CheckStorageQuota: two overlapping checks are not modelled, since nothing in the code serialises them; sizes are mathematical integers.
- TagRules.Store.TagRulesFor: rules of one scope are not ordered by pattern, which only chooses the rule named in the message.
- GlobRegexp.LanguageIsMeaning: texts are sequences of characters; matching on the bytes of non-ASCII text is not modelled, nor is the splitting of the pattern list in Allowed.
- RateLimit.Limiter.Take: a request is stamped under the lock; stamps taken before the lock may be out of order, and RateLimit.MissingEntryShows says what that can change.
- SharedCounter.OneBudgetForAllReplicas: limits stay the same during the run; a reload that changes them is not modelled.
- Traffic.Counter.Flush: other flushes between its swap and its end are covered by Traffic.EveryRunBalances only; repositories and days are numbers, and the clock and the sink's context are left out.
- Migrate.Migrator.Walk: the target is written by this run only; drivers that answer -1 for a size are left out.
- Verify.Verifier.RemoveOrphans: the backend holds still; a row inserted after the walk for an old object is outside the model.
- Paths.PathReadsBack: the digest pattern is modelled by what it guarantees (no slash in the algorithm, lower-case hexadecimal digits), which allows more.
- Router.RouteV2: the repository name pattern and the set of proxy organizations are parameters.
- Router.LabelAgreesWithDispatch: of the name pattern only that it refuses empty components is used.
- Csv.FieldRoundTrip: the parser follows section 2 of RFC 4180 but lets an unquoted field hold any character except comma, quote and line breaks; dates and details arrive as the strings the export converts them to.
- BlobGraph.ReadingIsStable: JSON decoding is a parameter, and a descriptor says only whether it is foreign and valid.
- Local staging: it rests on one replica's file system and has no append lock.
- Expiry times of upload sessions: an expiry may hit any live session at any time.
- Proxy-cache organizations, whose manifests are stored before their blobs, and the upstream client.
- Deletion and renaming of repositories, counting repositories for their quota, and the formatting of byte counts.
- Authentication, tokens and encryption, HTTP headers and status writing, logging, metrics collectors, configuration and process start-up.
- The web application except for the audit export.
