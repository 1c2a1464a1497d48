# Verified model of the Recall memory authority

Recall keeps the memories of AI agents in one SQLite file. This project models the code that decides
what happens to them and proves what that code promises over every input and every run:

* **The transactional authority** (`Schema`, `Transactions`, `Repository`). A database is one map or set
  per table. `Transactions` says what add, replace, remove, restore, purge, cutover and failing a
  generation do, branch by branch. The class `Repository.MemoryRepository` runs the same transactions
  statement by statement, each statement with its unique-key checks and with an exception that may be
  injected after it; its methods are proved equal to the functions of `Transactions`, or to end with
  nothing changed.
* **What every run keeps** (`Integrity`, `Preservation`, `Effects`, `Refinement`, `EventLog`,
  `Idempotency`, `Generations`, `Vectors`, `SelfCheck`, `Reads`, `Maintenance`). Integrity of all tables,
  refinement of a plain map of memories, density and finality of the event log, at-most-once and stable
  replay, the life of embedding generations and of their physical vectors, the self-check on opening,
  exact and owner-framed reads, and crash safety of the one call that leaves WAL mode. `Counterexamples`
  runs the code into the cases in which a promise fails.
* **What each call comes to, told a second time** (`Answers`, `Rows`, `Rights`, `Progress`, `Outages`,
  `Arrivals`, `Tiers`). Complete tables of answers and of written rows, spelled on arguments and tables
  without the tests and updates of the transactions, and proved equal to them; the vector of each generation
  and the rights behind every read and write over whole runs; and runs that lead to a cutover or a restore.
* **The layers above** (`Adapter`, `Service`). Provisioning of embedding profiles and the retry of a
  whole service call.
* **The personal store** (`TierStore`, `Fusion`, `Retrieval`, `Router`). Hot, warm and cold tiers with
  their vector, keyword and full-text indexes, rank fusion and the tier router.
* **Identity and start-up** (`LocalGrants`, `ClientGrants`, `Migrations`, `LegacyImport`, `Framing`,
  `Config`). Grant chains and their audit log, pairing challenges, the migration runner and the import of
  a legacy store, length-prefixed framing, and the printer and reader of the configuration file.

`Sets` and `Order` hold facts about finite sets and about the order of texts that several modules use.

## Conventions

SQLite itself is trusted: a transaction commits as a whole or not at all, writers are serialised, and
`BEGIN IMMEDIATE` sees the last committed tables. PRIMARY KEY, UNIQUE and FOREIGN KEY clauses are guards
of the statements; the foreign keys that a scope move defers are checked at its commit. SHA-256, HMAC,
keyword extraction and stable ids are uninterpreted functions. A row fetched without ORDER BY is chosen by
a parameter (`pick`) of the call. Clocks, ids, vectors, random choices and search results are parameters
too. Steps that no code of the repository takes but that its tables allow (starting a generation,
backfilling it, projecting vectors, binding and revoking grants) are requests of their own, so that
"every run" includes them in any order.

Where a promise fails, the code is modelled as it is, the exact condition is proved, and most of these
conditions have a concrete run in `Counterexamples`:

* An immediate retry of a committed write is replayed exactly if the write did not move scopes
  (`Idempotency.RetryReplaysIff`, `Counterexamples.RetriedMoveIsRefused`). A later retry is replayed,
  whatever row the lookup without ORDER BY returns, exactly if the memory was not purged and no purge or
  scope move used the same key in the scope
  (`Idempotency.ReplaysForEveryPickIff`, `Counterexamples.PurgedKeyAnswersTwoWays`).
* The logs of added memories are dense after a run exactly if its adds took ids that were never logged
  (`EventLog.RunLoggedIff`). An absent id can come back exactly if it has no first event
  (`EventLog.ComesBackIff`), which a purged imported id has not; but once it is back, no call can change
  or purge it any more (`EventLog.ReAddedForEver`, `Counterexamples.ImportedIdComesBack`).
* A purge deletes the vectors that the memory still links, and a replace unlinks those it overwrites, so
  that they outlive the purge (`Vectors.PurgeDropsLinked`, `Vectors.ReplaceOrphans`,
  `Vectors.OrphansStay`, `Counterexamples.OldVectorOutlivesPurge`).
* The database verifies itself after a run exactly if no imported row that is still there was edited
  (`SelfCheck.RunVerifiedIff`, `Counterexamples.RemovedImportIsRefused`).
* `cleanup_committed` is right exactly if no exception struck between the durable commit and the
  assignment of the flag (`Maintenance.EndTells`, `Counterexamples.CleanedButSaysNot`); and an exception
  between the switch of the journal mode and the flag that arms its restoring leaves DELETE mode behind.
* A prepared scope move is refused exactly if the two scopes were provided with different generations
  (`Adapter.MoveIsRefusedIff`, `Counterexamples.MoveIntoNewScopeIsRefused`).
* Once the last local grant is revoked, no call can bind the client again
  (`LocalGrants.LocalAuthority.EnsureLocalGrant`).
* A promotion or demotion keeps the vector index exact except for odd target tiers
  (`TierStore.PromoteKeepsExactIff`, `TierStore.DemoteKeepsExactIff`).
* Re-adding an id to the personal store gives it a second full-text row and leaves its old keywords
  (`TierStore.InsertKeepsTextIff`), and a second full-text row may lift a fused score over its bound
  (`Fusion.FusedBoundIff`, `Fusion.TwoRowsBreakTheBound`).
* A client key is shared exactly if one of its parts has a colon (`ClientGrants.KeyIsSharedIff`), and a
  challenge with a colon in a field never verifies (`ClientGrants.OwnChallengePassesIff`).
* The configuration reads back exactly if no key and no string has a line separator
  (`Config.RoundTripIff`); the key pattern admits a final line feed.
* The import of a legacy store is in order exactly if it has no orphaned keyword
  (`LegacyImport.ImportIsSoundIff`).
* The check for a gap in the migration history never fires: a version missing below the latest one is
  skipped in silence (`Migrations.CompleteIff`, `Counterexamples.GapIsNotNoticed`).

The documentation of `evict` speaks of evicting down to 3000 rows; the code subtracts the surplus from the
number of candidates, and the model does the same (`TierStore.Share`).

## Model

| member | source | states |
|---|---|---|
| Repository.MemoryRepository.AddMemory | src/recall/mcp_repository.py:323-618 | statement by statement, an add ends in the state and answer of `AddStep`, or an injected exception leaves every table as it was; the integrity of all tables is kept |
| Repository.MemoryRepository.ReplaceMemory | src/recall/mcp_repository.py:620-1022 | the same for replace, with its per-generation update-or-insert loop and the foreign keys that a scope move defers to the commit |
| Repository.MemoryRepository.RemoveMemory | src/recall/mcp_repository.py:1469-1648 | the same for remove |
| Repository.MemoryRepository.RestoreMemory | src/recall/mcp_repository.py:1650-1897 | the same for restore, which needs an embedding for every live generation |
| Repository.MemoryRepository.PurgeMemory | src/recall/mcp_repository.py:1899-2205 | the same for purge, with the scrub of the idempotency rows and the vector-by-vector deletion |
| Repository.MemoryRepository.CutoverEmbeddingGeneration | src/recall/mcp_repository.py:1024-1208 | the same for cutover: between its two updates the unique index on ACTIVE profiles cannot fire |
| Repository.MemoryRepository.FailEmbeddingGeneration | src/recall/mcp_repository.py:1210-1467 | run with a crash or exception at any statement, the call leaves the disk and ends as `Attempt` says, and keeps the integrity of the tables; the exception between the switch of the journal mode and the flag that arms its restoring is one of them |
| Repository.MemoryRepository.Recover | src/recall/mcp_repository.py:172-216 | opening a database in order is ready, and in WAL mode, if and only if every imported row still is what the migration wrote; else the mode stays as it was |
| Answers.AddAnswers | src/recall/mcp_repository.py:323-618 | the answer to every add, told from arguments, grant row, filed keys, live generations and free keys; it commits exactly where nothing of them refuses |
| Answers.ReplaceAnswers | src/recall/mcp_repository.py:620-1022 | the answer to every replace, with the revision that a conflict tells and the demands of a scope move |
| Answers.RemoveAnswers | src/recall/mcp_repository.py:1469-1648 | the answer to every remove |
| Answers.RestoreAnswers | src/recall/mcp_repository.py:1650-1897 | the answer to every restore: it takes an admin, a tombstone of that revision and a row of its scope for each live generation |
| Answers.PurgeAnswers | src/recall/mcp_repository.py:1899-2205 | the answer to every purge, which looks at no key before its own insert |
| Answers.CutoverAnswers | src/recall/mcp_repository.py:1024-1208 | a cutover applies if and only if an admin names the one ACTIVE and a BUILDING generation of the scope, each memory has a row in both and no other row is there, and the building rows carry their provenance and their places exist, or without a registered table none has a place |
| Answers.CutoverSwitches | src/recall/mcp_repository.py:1178-1203 | it then retires the one profile and activates the other, and changes nothing else |
| Answers.FailAnswers | src/recall/mcp_repository.py:1210-1467 | the answer to every failure of a generation that nothing stops |
| Rows.AddWrites | src/recall/mcp_repository.py:430-611 | the rows that a committed add writes into each table, and that it touches no other |
| Rows.ReplaceWrites | src/recall/mcp_repository.py:818-1015 | the rows of a committed replace: content, metadata, keywords, full text, and the vector, provenance and time of every generation that was given one |
| Rows.RemoveWrites | src/recall/mcp_repository.py:1560-1648 | a committed remove stamps the row, files its logs and leaves every other table |
| Rows.RestoreWrites | src/recall/mcp_repository.py:1757-1897 | a committed restore stamps the row and rebuilds keywords and full text from the content that was kept |
| Rows.PurgeWrites | src/recall/mcp_repository.py:1986-2205 | after a committed purge no table of contents, words, vectors or state has a row of the memory, each of its idempotency rows has lost receipt and digest, and all rows of others stay |
| Rows.RunStores | src/recall/mcp_repository.py:915-968 | over every run the vector of a memory in a generation is that of the last committed add or replace that gave one for it, or of its backfill, until a purge or the failure of the generation drops it; no other call touches it |
| Progress.BackfillThenCutover | src/recall/mcp_repository.py:1076-1203 | with a generation under way, backfilling what is missing leads to a cutover that applies |
| Progress.StartToCutover | src/recall/mcp_repository.py:1076-1203 | from any scope whose ACTIVE generation covers it, start, backfill and cutover make a new generation the ACTIVE one |
| Progress.StoredCutsOver | src/recall/mcp_repository.py:1138-1203 | the run: one stored memory, generation 2 is started and backfilled, and the cutover without a registered table applies |
| Progress.RestoreAfterRemoveIff | src/recall/mcp_repository.py:1650-1897 | after a committed remove an admin's restore with a fresh key commits if and only if the memory has a row for each live generation |
| Rights.WritesAreBound | src/recall/mcp_repository.py:381-400 | over every run each committed write was made by a client grant that lists its scope, and the target of a move: adds, replaces and removes with memory:write or memory:admin, restores and purges with memory:admin |
| Rights.AppliedIsBound | src/recall/mcp_repository.py:1060-1093 | a cutover or a failure that applies was made by an admin of the scope |
| Repository.InsertKeywords | src/recall/mcp_repository.py:482-490 | the keyword loop inserts exactly the rows of the keywords, or reports a constraint if and only if one of them exists |
| Repository.InsertEmbeddings | src/recall/mcp_repository.py:540-564 | the embedding loop of an add inserts one row per live generation, or reports a constraint if and only if a key or id is taken |
| Repository.RefreshEmbeddings | src/recall/mcp_repository.py:915-968 | the loop of a replace updates the rows that exist and inserts those that a new BUILDING generation lacks |
| Repository.DeleteVectors | src/recall/mcp_repository.py:2042-2096 | the loop of a purge deletes exactly the vectors that an embedding row of the memory links, and fails if and only if a registered one is not linked or has no table |
| Vectors.PurgeDropsLinked | src/recall/mcp_repository.py:2042-2096 | a physical vector goes with a committed purge if and only if an embedding row of the memory links it |
| Vectors.ReplaceUnlinks | src/recall/mcp_repository.py:914-966 | a replace leaves every physical vector in its table and unlinks those it replaced; until it is projected again the memory can be purged if and only if none of the generations written to has a table and its other rows allow it |
| Vectors.ReplaceOrphans | src/recall/mcp_repository.py:914-966 | the vector of the content that a replace overwrites is linked by no row any more |
| Vectors.OrphansStay | src/recall/mcp_repository.py:2042-2096 | such a vector outlives every run that does not give its place away or empty it from outside, the purge of the memory included |
| Counterexamples.OldVectorOutlivesPurge | src/recall/mcp_repository.py:2042-2096 | the run: a memory is replaced, projected again and purged, and the vector of its first content is still there |
| Preservation.RunKeepsInv | src/recall/mcp_repository.py:323-2205 | over every run: one metadata and one full-text row per memory, matching content, hash and keywords, all foreign and unique keys, and for every added memory (tombstones too) an embedding of the ACTIVE generation of its scope with that profile's provenance |
| Preservation.AddKeepsInv | src/recall/mcp_repository.py:430-611 | an add leaves all clauses of the integrity invariant true |
| Preservation.ReplaceKeepsInv | src/recall/mcp_repository.py:745-1015 | so does a replace, scope moves included |
| Preservation.CutoverKeepsInv | src/recall/mcp_repository.py:1076-1203 | parity of the building generation makes it cover every memory when it becomes ACTIVE |
| Preservation.FailKeepsInv | src/recall/mcp_repository.py:1343-1440 | failing a generation takes no row of the ACTIVE one |
| Refinement.StepRefines | src/recall/mcp_repository.py:323-2205 | each committed write is one compare-and-set of the plain map id to (owner, scope, revision, content, deleted); a rejected or replayed call changes no table |
| Refinement.RunRefines | src/recall/mcp_repository.py:323-2205 | every run of the tables is the run of its committed writes on the plain map |
| Refinement.LastWriteWins | src/recall/mcp_repository.py:818-842 | after any run the content of a memory is that of its last committed add or replace, and it is a tombstone iff its last write is a remove |
| EventLog.RunAppendsOnly | src/recall/migrations.py:318-333 | no event row is ever changed or lost |
| EventLog.LogIsTheTrace | src/recall/mcp_repository.py:566-586 | the log is complete and sound over every run: each committed write is recorded with its owner, grant, operation, actor, time and digest, and no event appears that records no such write |
| EventLog.RunKeepsLogged | src/recall/mcp_repository.py:566-586 | when adds take ids that were never logged, the event revisions of an added memory are exactly 1 to current and it is a tombstone iff its last event is a remove |
| EventLog.RunLoggedIff | src/recall/mcp_repository.py:566-586 | over any run from a database in order (an import is one) every log is dense and tells the state of its row if and only if the adds took ids that were never logged |
| EventLog.ReAddedForEver | src/recall/migrations.py:318-333 | an id that was logged before and is added again stays as it is for ever: no replace, remove or purge of it commits in any run |
| EventLog.AddIsDenseIff | src/recall/mcp_repository.py:566-586 | an add starts a dense log if and only if its id was never logged |
| EventLog.ComesBackIff | src/recall/migrations.py:318-333 | an id that is absent can be written again, by some run, if and only if the log holds no first event of it: no other table and no grant, scope or key decides it |
| EventLog.GoneForEver | src/recall/mcp_repository.py:1986-2006 | no call on a purged id with a first event ever commits |
| EventLog.PurgeIsFinal | src/recall/mcp_repository.py:1986-2006 | after the purge of an added memory no later call on its id commits, in any run |
| Counterexamples.ImportedIdComesBack | src/recall/migrations.py:361-421 | the run: a purged imported id is added again, its log is not dense, and its new content can never be purged |
| Idempotency.AtMostOnce | src/recall/migrations.py:335-351 | each (grant, operation, key) commits at most once in any run |
| Idempotency.RowAges | src/recall/mcp_repository.py:2008-2039 | an idempotency row stays as filed over any run until a purge of its memory turns it into a deny row for good |
| Idempotency.ResolveFinds | src/recall/mcp_repository.py:275-321 | the lookup is unused if and only if no row of the key exists in the scope, and answers from the row the engine picks |
| Idempotency.StableReplay | src/recall/mcp_repository.py:405-419 | after any run that files no purge or scope move under its grant and key into its scope, an authorized retry returns the first receipt and changes nothing until its memory is purged, and is denied ever after |
| Idempotency.EveryPickReplaysIff | src/recall/mcp_repository.py:275-321 | a filed row answers whatever row the engine returns first if and only if it is alone under its grant, key and scope |
| Idempotency.RunKeepsAloneIff | src/recall/mcp_repository.py:275-321 | over any run a row stays alone if and only if no purge or scope move with its grant and key is filed into its scope: every other write with the key is answered instead of filed |
| Idempotency.ReplaysForEveryPickIff | src/recall/mcp_repository.py:405-419 | over any run after a committed write, its retry is replayed whatever row the engine returns first if and only if the memory was not purged and no purge or scope move was filed under the same grant and key into the scope |
| Idempotency.RunKeepsBacked | src/recall/mcp_repository.py:566-611 | over every run each remembered receipt names the event of the call that filed it: same grant, operation, digest, owner, actor, memory and time |
| Idempotency.ReplayIsBacked | src/recall/mcp_repository.py:275-321 | after any run a replayed receipt is backed by an event of the retried grant, operation and digest at the revision and time it tells |
| Idempotency.RetryReplaysIff | src/recall/mcp_repository.py:714-728 | an immediate retry is replayed if and only if the write did not move scopes |
| Counterexamples.RetriedMoveIsRefused | src/recall/mcp_repository.py:714-745 | the run: a scope move commits and the same call right after it is refused as not authorized |
| Idempotency.ReusedKeyIsAmbiguous | src/recall/mcp_repository.py:275-321 | with a second row under the grant, key and scope, purged or not, a retry is replayed or denied by the row the engine returns first, and with which error |
| Counterexamples.PurgedKeyAnswersTwoWays | src/recall/mcp_repository.py:1986-2039 | the run: one memory is added under a key, another is purged under it; the retry of the add is replayed by one row and refused as purged by the other |
| Generations.RunMoves | src/recall/mcp_repository.py:1178-1202 | over any run status only moves BUILDING, ACTIVE, RETIRED or BUILDING, FAILED, a profile keeps its provenance and no scope loses its ACTIVE generation |
| Generations.OneActiveForEver | src/recall/migrations.py:245-249 | once a scope has an ACTIVE generation, every committed state has exactly one |
| Generations.HalfwayThroughCutover | src/recall/mcp_repository.py:1178-1202 | between the two updates of a cutover the scope has no ACTIVE generation |
| Generations.CutoverIsComplete | src/recall/mcp_repository.py:1095-1129 | a committed cutover had equal canonical, ACTIVE and BUILDING id sets and leaves the building generation as the only ACTIVE one |
| Generations.FailCleansOneGeneration | src/recall/mcp_repository.py:1397-1440 | failing a generation removes its rows, registration and vector table, marks it FAILED and keeps everything else |
| SelfCheck.CountsAreEnough | src/recall/migrations.py:769-772 | equal counts and the keys of the metadata table put memories and metadata in bijection |
| SelfCheck.EditCommitsIff | src/recall/mcp_repository.py:705-1897 | a replace, remove or restore commits if and only if its key is unused and the guards of its statements hold |
| SelfCheck.VerifiedUnlessImportEdited | src/recall/migrations.py:774-797 | after any call the self-check accepts again if and only if the call was not an edit of an imported row that passes those guards |
| SelfCheck.RunVerifiedIff | src/recall/migrations.py:728-797 | after any run the self-check accepts if and only if no write of the run edited an imported row that is still there |
| Counterexamples.RemovedImportIsRefused | src/recall/migrations.py:774-797 | the run: a client removes an imported memory, the call commits and the database is refused from then on |
| SelfCheck.RunStaysVerified | src/recall/migrations.py:728-797 | the self-check accepts after any run whose writes stay out of `legacy:unscoped` |
| Maintenance.AllOrNothing | src/recall/mcp_repository.py:1286-1467 | whatever stops the call, the generation is untouched or fully cleaned |
| Maintenance.CleanedIffPasses | src/recall/mcp_repository.py:1343-1440 | the tables are cleaned if and only if the transaction passes its guards and nothing strikes before its COMMIT; else they are untouched |
| Maintenance.EndTells | src/recall/mcp_repository.py:1210-1467 | a normal return means cleaned; an exception means untouched and the flag of the recovery error tells which, both exactly unless an exception struck after the durable COMMIT and before flag or restoring; every return and ordinary exception leaves WAL mode, exactly unless an exception struck before the restoring was armed or reached |
| Counterexamples.CleanedButSaysNot | src/recall/mcp_repository.py:1397-1467 | the run: everything is cleaned and the recovery error says that nothing was |
| Maintenance.CrashThenReopen | src/recall/mcp_repository.py:172-216 | after any crash or exception, reopening yields WAL mode on tables in which the generation is untouched or fully cleaned |
| Maintenance.CleanedKeepsActive | src/recall/mcp_repository.py:1397-1440 | cleaning keeps every row of an ACTIVE generation |
| Outages.EndAnswers | src/recall/mcp_repository.py:1210-1467 | how the call ends and which journal mode it leaves, for every point at which an exception or a crash can strike and every fate of the restoring |
| Outages.ReopenIff | src/recall/migrations.py:728-797 | opening restores WAL mode if and only if every reference between the tables holds, each memory has its metadata, and each row of the migration grant still has its scope, kind, source, revision and hash |
| Reads.RecentIsExact | src/recall/mcp_repository.py:2354-2432 | recent returns exactly the first `limit` readable rows by update time descending and id, and that page is unique |
| Rights.GetIff | src/recall/mcp_repository.py:2278-2352 | get returns the columns of the row if and only if it is there live in the scope and the grant, field by field, is its owner's, in force, lists the scope and may read |
| Rights.RecentIff | src/recall/mcp_repository.py:2354-2432 | recent lists readable rows only, later ones first and equal times by id, and is full if it leaves one out, which then comes after all that it lists |
| Rights.RevokeTakesForce | src/recall/mcp_repository.py:381-400 | a revoked or unlinked grant is out of force |
| Rights.RevokedForEver | src/recall/mcp_repository.py:381-400 | once a grant is revoked or unlinked no call with it commits, in any run |
| Rights.RevokedReadsNothing | src/recall/mcp_repository.py:2278-2432 | and all its reads are empty, after any run |
| Rights.ReadsStayInScopes | src/recall/mcp_repository.py:2308-2314 | over every run a grant reads rows of its own owner and of the scopes that it was bound with, and no other |
| Reads.OtherOwnersAreUnaffected | src/recall/mcp_repository.py:2278-2432 | no call by a grant of another owner changes any get or recent result |
| Reads.AddThenGet | src/recall/mcp_repository.py:2278-2352 | a committed add is what get returns |
| Reads.ReplaceThenGet | src/recall/mcp_repository.py:2278-2352 | a committed replace is what get returns, under the target scope |
| Reads.RemoveThenGet | src/recall/mcp_repository.py:2278-2352 | a removed memory is not returned |
| Reads.RestoreUndoesRemove | src/recall/mcp_repository.py:1650-1897 | a restore after a remove gives back content, index rows and everything but revision, actor and times |
| Adapter.Authority.EnsureEmbeddingProfile | recall-memory-mcp/src/recall_memory_mcp/authority.py:490-559 | the row-by-row comparison ends as `EnsureProfiles`, keeping the integrity of the tables |
| Adapter.Authority.PrepareBlobs | recall-memory-mcp/src/recall_memory_mcp/authority.py:561-585 | the loop over scopes collects what `Prepare` says; the first error ends it |
| Adapter.PreparedCovers | recall-memory-mcp/src/recall_memory_mcp/authority.py:561-597 | one vector fans out onto exactly the live generations of the scope, all of the running embedder and of the vector's dimension |
| Arrivals.ProvisionAnswers | recall-memory-mcp/src/recall_memory_mcp/authority.py:490-559 | provisioning a scope is refused if and only if the embedder has no dimension or is not that of every live generation; it inserts generation 1 into a bare scope and changes nothing else |
| Arrivals.PrepareAnswers | recall-memory-mcp/src/recall_memory_mcp/authority.py:561-597 | the outcome of preparing a vector for any list of scopes, told from the grant and from the profiles before the call: the generations it goes to are those that serve one of the scopes |
| Adapter.MoveCoversIff | recall-memory-mcp/src/recall_memory_mcp/authority.py:599-612 | for a scope move the vector goes to what both scopes are provided with; the repository finds the same profiles in both if and only if they were provided with the same generations before the call |
| Adapter.MoveIsRefusedIff | src/recall/mcp_repository.py:756-787 | a prepared scope move of a visible memory is refused as malformed if and only if the scopes were provided with different generations |
| Counterexamples.MoveIntoNewScopeIsRefused | src/recall/mcp_repository.py:756-770 | the run: out of a scope with the generations 1 and 2 into one without any, the prepared move is refused |
| Service.ServedTwice | recall-memory-mcp/src/recall_memory_mcp/service.py:358-413 | calling add, a replace within its scope or remove again with an equal payload never changes anything, whatever ids, clocks and vectors and whatever ran in between without a clash on the key: it answers Unavailable if the stored profiles are not the embedder's any more, PurgedKey once the memory is purged, and else with the first receipt |
| Arrivals.EnterAnswers | recall-memory-mcp/src/recall_memory_mcp/service.py:358-413 | the way of every call to the repository: which refusal comes first, for which scopes the vector is prepared, and that the request carries what the client sent |
| Arrivals.ServeAnswers | recall-memory-mcp/src/recall_memory_mcp/service.py:358-413 | a call that gets through is answered with the receipt of its request or with the code of its error |
| Service.RunKeepsMatch | recall-memory-mcp/src/recall_memory_mcp/authority.py:490-559 | over any run that starts no other embedder's generation in it, a provisioned scope keeps to its embedder |
| Service.ServedTwiceByOneEmbedder | recall-memory-mcp/src/recall_memory_mcp/service.py:358-413 | the same retry over runs that start no other embedder's generation in the scope is never Unavailable |
| Service.CalledTwice | recall-memory-mcp/src/recall_memory_mcp/service.py:358-413 | a call made twice in a row answers twice the same and changes nothing the second time, with no condition on the state after the first |
| Service.FirstCall | recall-memory-mcp/src/recall_memory_mcp/service.py:358-413 | an answered call has its receipt filed under its key, scope and digest, with no other row beside it |
| Service.OkIsRemembered | src/recall/mcp_repository.py:275-321 | a committed or replayed write has the row that answers its retry, and has it alone unless its key had a second row in the scope already |
| TierStore.SQLiteStore.Add | src/recall/store.py:160-199 | after an add at most 500 rows are hot, no content changed, the rows are those that trimming, replenishing and collecting in this order leave, every rise of a row is logged, and every logged promotion came at least 24 hours after what was then the last demotion of its row; the vector index stays exact unless an indexed id is re-added without a hot embedding, and the keyword and full-text tables stay exact if and only if the id was not there before or is not there after |
| Tiers.ManagedTells | src/recall/store.py:371-516 | what an add and the management after it make of each row: the excess of the hot tier, least read and oldest first, becomes warm and is stamped; the most read warm rows that rested a day and have a vector fill the vacancies; from 80 megabytes on the cold and old warm rows worth less than one half go, but for a share |
| Tiers.WrittenTextsTell | src/recall/store.py:160-199 | a written row gets one more full-text row and the keywords of its content; the texts of others stay |
| Tiers.DeletedTextsTell | src/recall/store.py:254-268 | of deleted rows no keyword and no full-text row stays, and of the others all of them |
| Tiers.SampledTell | src/recall/store.py:526-565 | a sampled row becomes warm if and only if it rested and shares a fifth of the keywords; no other row changes |
| TierStore.SQLiteStore.Promote | src/recall/store.py:316-348 | promotion changes one row and its index entry as stated, or nothing if the row is missing or cannot be embedded |
| TierStore.SQLiteStore.Demote | src/recall/store.py:350-369 | demotion changes one row, stamps it, logs it and drops its index entry |
| TierStore.SQLiteStore.TrimHot | src/recall/store.py:383-399 | demotes exactly the excess of the hot tier, each row stamped with its own time, none of them above any row that stays in (access count, time) |
| TierStore.SQLiteStore.ReplenishHot | src/recall/store.py:431-455 | promotes exactly the cooled and embeddable rows among the top warm ones that fill the vacancies, and logs each; the hot tier stays within 500 |
| TierStore.SQLiteStore.Evict | src/recall/store.py:466-516 | deletes exactly the rows scored below one half among the first `Share` candidates ranked by score and id, with their keyword, full-text and vector rows; the hot tier is untouched |
| TierStore.SQLiteStore.SampleCold | src/recall/store.py:526-565 | warms up exactly the sampled cold rows that are cooled and share enough keywords, and logs each |
| TierStore.SQLiteStore.Delete | src/recall/store.py:254-268 | deletes the row and its keyword, full-text and vector rows; exact tables stay exact |
| TierStore.Select | src/recall/store.py:383-399 | returns a page in the stated order, ties being the engine's |
| TierStore.PromoteKeepsExactIff | src/recall/store.py:316-348 | promotion keeps the index exact if and only if the row is not a hot one with an embedding going to an odd tier |
| TierStore.DemoteKeepsExactIff | src/recall/store.py:350-369 | demotion keeps it exact if and only if the target is cold or warm, the row has no embedding, or hotness does not change |
| TierStore.InsertKeepsExactIff | src/recall/store.py:160-199 | an insert keeps it exact if and only if it does not replace an indexed row by one without a hot embedding |
| TierStore.InsertKeepsTextIff | src/recall/store.py:160-199 | an insert, and what is deleted after it, keeps one full-text row per memory and the keywords of its content if and only if the id was not there before or is not there after |
| TierStore.PromotionWaits | src/recall/store.py:431-455 | in every history that the store keeps, a demotion and the next promotion of the row are at least a day apart |
| TierStore.RankingIsUnique | src/recall/store.py:466-516 | there is one ranking of the eviction candidates |
| TierStore.DoomedAreOuter | src/recall/store.py:466-516 | what eviction takes is warm or cold, scored below one half, thirty days old if warm, and no higher than any candidate it leaves |
| TierStore.DoomedAreOld | src/recall/store.py:476-509 | with the decay of 0.7 per 30 days whatever scores below one half is more than 30 days old, cold rows too, so that the protection of young warm rows changes nothing; a row never read is out from 60 days on |
| TierStore.TrimmedStaysWarm | src/recall/store.py:401-405 | a row that trimming demoted less than a day ago is not promoted by the replenishing that follows |
| Fusion.AddHops | src/recall/retrieve.py:112-131 | the multi-hop keyword path scores what each hop adds, hop after hop, each id once and none that the vector path found |
| Fusion.Fuse | src/recall/retrieve.py:103-145 | the fused scores are the sums of the reciprocal ranks of the four paths |
| Fusion.FusedBound | src/recall/retrieve.py:103-145 | every fused score is positive, and at most 1/20 if the full-text rows of the id weigh no more than one in first place |
| Fusion.FusedBoundIff | src/recall/retrieve.py:103-145 | the fused score of an id keeps within 1/20 whatever the other paths find if and only if the reciprocal ranks of its full-text rows sum to at most 1/60 |
| Fusion.TwoRowsBreakTheBound | src/recall/retrieve.py:133-137 | two full-text rows in front exceed it |
| Fusion.CauchySchwarz | src/recall/retrieve.py:169-172 | the square of a dot product is at most the product of the squares |
| Fusion.BlendBound | src/recall/retrieve.py:165-175 | the blended score is at most 0.335 |
| Fusion.BlendWeighs | src/recall/retrieve.py:165-175 | seven parts fused score and three parts similarity: with one equal, more of the other ranks higher |
| Fusion.SimilarityTimesLengths | src/recall/retrieve.py:169-172 | the similarity times both lengths is the dot product |
| Fusion.ArrangedIsHopped | src/recall/retrieve.py:112-131 | whatever the order within a hop, the path lists exactly the ids that the hops reach |
| Retrieval.RetrieveRelevant | src/recall/retrieve.py:78-184 | fails if and only if a row that it ranks has a vector of another length than the query; else returns the k best distinct rows of the fused and blended scores in non-increasing order if any fused row passes the filters, and the fallback on the latest rows if none does; each score is within its bound unless the id has full-text rows that weigh more than one |
| Retrieval.AnswerTells | src/recall/retrieve.py:78-184 | what an answer tells: every row of it passes the filters, and a fused row that passes and is left out of a full answer scores no higher than any in it |
| Retrieval.ComparedAre | src/recall/retrieve.py:139-164 | what is ranked are the fused rows that pass the filters, and with no fused id at all the latest rows that do |
| Retrieval.RankByEmbedding | src/recall/retrieve.py:257-274 | the fallback ranks by similarity what can be compared, else keeps the given order |
| Router.TierRouter.RetrieveTiered | src/recall/retrieve.py:187-254 | the answer is the hot results, then what of the warm and cold ones fills the gap, at most k distinct ids, complete for each searched tier unless it is full; each id is counted once more and no other; contents stay; every rise of a row is logged and waited its day; the warm tier never exceeds the larger of its size and 5000, but for the two rows that every twentieth call may sample |
| Router.RoutedIs | src/recall/retrieve.py:205-241 | the answer is the hot results whole, then new warm and then new cold ones in their order as long as there is room, each tier only if it has a row; what the third part warms up is told in `Router.ColdPhaseIs` |
| Router.PartsTell | src/recall/retrieve.py:205-241 | with a hot row the hot results come first and complete; every id was found in a tier that was searched; an answer with a gap has all that the tiers found |
| Router.ColdPhaseIs | src/recall/retrieve.py:224-241 | of the cold rows added, the cooled ones become warm in their order until the room in the warm tier is used up |
| Router.TierRouter.FillFromCold | src/recall/retrieve.py:224-241 | the loop of the cold phase returns and warms up exactly the rows of `ColdPhase` |
| Router.ColdPhaseKeeps | src/recall/retrieve.py:224-241 | the cold phase only warms rows up, keeps the answer distinct and within k, and adds no more warm rows than there was room for |
| Router.RoutedKeeps | src/recall/retrieve.py:205-241 | filling the gap never pushes the warm tier above the larger of its size and 5000 |
| LocalGrants.LocalAuthority.EnsureLocalGrant | recall-memory-mcp/src/recall_memory_mcp/authority.py:656-801 | changes nothing if the last active grant allows all that is asked for, refuses if the last grant is inactive or an id is taken, and else binds the next generation and its one event, the last grant being unlinked |
| LocalGrants.LocalAuthority.LookupGrant | recall-memory-mcp/src/recall_memory_mcp/authority.py:804-841 | the active OAuth grant of the identity with the highest generation, or none if there is none; for a local client it is the grant last bound, if still active |
| LocalGrants.BindingStaysOrderly | recall-memory-mcp/src/recall_memory_mcp/authority.py:688-780 | binding keeps the chains: generations 1 to n, only the last active, growing scopes, one binding event each |
| LocalGrants.OnlyLastIsActive | recall-memory-mcp/src/recall_memory_mcp/authority.py:688-727 | at most one grant of a client is active, the last of its chain |
| LocalGrants.NextGrows | recall-memory-mcp/src/recall_memory_mcp/authority.py:715-721 | the next grant allows what the last one did and what is asked for |
| LocalGrants.NextIsUnion | recall-memory-mcp/src/recall_memory_mcp/authority.py:715-721 | a scope is in the next grant if and only if it was in the last one or is asked for, each once |
| ClientGrants.ClientGrantManager.RegisterOrUpdateGrant | recall-memory-mcp/src/recall_memory_mcp/grants.py:112-161 | refuses another owner, else issues the next generation and logs it; the grants stay the fold of the log |
| ClientGrants.ClientGrantManager.RevokeGrant | recall-memory-mcp/src/recall_memory_mcp/grants.py:163-192 | revokes and logs an active grant only; the grants stay the fold of the log |
| ClientGrants.ClientGrantManager.VerifyAndClaim | recall-memory-mcp/src/recall_memory_mcp/grants.py:74-110 | a token is claimed if and only if it is genuine and was not claimed before, and then it is marked; every refusal leaves the used tokens as they were |
| ClientGrants.ClaimedIff | recall-memory-mcp/src/recall_memory_mcp/grants.py:74-110 | a token passes if and only if it is the signed challenge of the expected owner, client and state for this verifier, with an expiry that is not past: nothing forged passes |
| ClientGrants.ForgedIsRefused | recall-memory-mcp/src/recall_memory_mcp/grants.py:88-93 | a token is refused for its signature if and only if that is not the one of what stands before it |
| ClientGrants.MalformedIff | recall-memory-mcp/src/recall_memory_mcp/grants.py:86-88 | a token is malformed if and only if it has no colon |
| ClientGrants.SignedIsJudged | recall-memory-mcp/src/recall_memory_mcp/grants.py:95-110 | the exact answer for every signed payload of five fields: unreadable or passed expiry, other owner, client or state, wrong verifier |
| ClientGrants.OtherCountIsRefused | recall-memory-mcp/src/recall_memory_mcp/grants.py:95-97 | a signed payload is refused for its number of fields if and only if it has not five |
| ClientGrants.GenerationsCount | recall-memory-mcp/src/recall_memory_mcp/grants.py:126-161 | the events of a key carry the generations 1, 2 and so on |
| ClientGrants.OwnerIsConstant | recall-memory-mcp/src/recall_memory_mcp/grants.py:126-130 | all events of a key name one owner |
| ClientGrants.KeyIsSharedIff | recall-memory-mcp/src/recall_memory_mcp/grants.py:121-122 | another client has the same key if and only if one of the three parts has a colon |
| ClientGrants.OwnChallengePassesIff | recall-memory-mcp/src/recall_memory_mcp/grants.py:64-110 | a challenge passes its own check in time and with its verifier if and only if no field has a colon |
| Migrations.RunMigrations | src/recall/migrations.py:444-489 | the loop applies the versions after the latest recorded one in order and records each, on any recognised history; it refuses a history that is not of this build and fails as one of the versions does |
| Migrations.MigratesIff | src/recall/migrations.py:444-489 | when a migration succeeds, told from history, registry and bootstrap: which refusal comes first |
| Migrations.PrefixThenAll | src/recall/migrations.py:444-489 | migrating by a prefix of the registry and then by all of it ends as migrating by all at once, but for the times |
| Migrations.RerunIsIdle | src/recall/migrations.py:444-489 | a rerun applies and changes nothing |
| Migrations.CompleteIff | src/recall/migrations.py:471-486 | a migrated database has every version recorded if and only if it had no gap below its latest version: a gap is neither reported nor filled |
| Counterexamples.GapIsNotNoticed | src/recall/migrations.py:471-486 | the input: version 2 recorded without version 1 counts as migrated, and nothing is applied |
| Migrations.ValidateIff | src/recall/migrations.py:434-441 | a registry is accepted if and only if its versions are 1 to n, each once in any order, and every name says something |
| LegacyImport.ImportRows | src/recall/migrations.py:393-421 | the row-by-row import writes one quarantined metadata row per legacy memory |
| LegacyImport.ImportTells | src/recall/migrations.py:168-421 | the import succeeds if and only if no shared table has a row; it leaves the one migration grant and for each memory its full text and the columns of its quarantine |
| LegacyImport.ImportIsSoundIff | src/recall/migrations.py:168-421 | the import is in order if and only if no legacy keyword is orphaned |
| LegacyImport.ImportVerifies | src/recall/migrations.py:728-797 | the import passes the self-check |
| LegacyImport.OrderFromTheStart | src/recall/migrations.py:168-421 | from the import on, every run keeps the integrity of the tables and the agreement of the two logs, the density of the log if and only if adds take new ids, and outside `legacy:unscoped` the self-check |
| LegacyImport.RegistryImports | src/recall/migrations.py:424-489 | running the registry of this build on a store without history yields the import and records version 1, or refuses a store that is not a legacy one |
| Framing.UnframeFrame | src/recall/mcp_repository.py:262-269 | the framed bytes of parts shorter than 2^64 bytes can be read back |
| Framing.FrameIsInjective | src/recall/mcp_repository.py:262-269 | they determine the sequence of parts |
| Framing.Feed | src/recall/mcp_repository.py:262-269 | the loop feeds exactly the frame to the digest |
| Framing.Fingerprint | src/recall/migrations.py:492-508 | the loop over the legacy rows feeds exactly the frame of their fields |
| Framing.FingerprintTells | src/recall/migrations.py:492-508 | equal bytes mean equal rows in equal order |
| Config.RoundTripIff | recall-memory-mcp/src/recall_memory_mcp/provisioning.py:166-237 | the reader takes back what the printer wrote if and only if no key and no string has a line separator |
| Config.CleanReadsBack | recall-memory-mcp/src/recall_memory_mcp/provisioning.py:180-237 | documents without line separators read back |
| Config.ParsedIsClean | recall-memory-mcp/src/recall_memory_mcp/provisioning.py:210-237 | no text reads as a document with a line separator in it |
| Config.UnescapeEscape | recall-memory-mcp/src/recall_memory_mcp/provisioning.py:169-177 | the two passes of the reader take back the two passes of the printer |
| Config.ValuesRead | recall-memory-mcp/src/recall_memory_mcp/provisioning.py:226-236 | what the reader takes any value for: between quotes a text, else a flag, a number, or the text as it stands |
| Config.HeaderReads | recall-memory-mcp/src/recall_memory_mcp/provisioning.py:219-222 | a table header opens its table, and goes on with it if it is open already |
| Config.AcceptsKeyIff | recall-memory-mcp/src/recall_memory_mcp/provisioning.py:166-166 | a key is accepted if and only if it is one or more of the key characters, which a line feed may follow |
| Config.RenderConfig | recall-memory-mcp/src/recall_memory_mcp/provisioning.py:180-207 | the two loops write exactly the lines of the document, or reject a key |
| Config.ParseConfig | recall-memory-mcp/src/recall_memory_mcp/provisioning.py:210-237 | the loop with its moving table reference computes `Parse` |

## Left out

- TierStore.SQLiteStore.Add: assumes that vectors are available.
- TierStore.SQLiteStore.Evict: is proved for every decay of scores with age; `TierStore.DoomedAreOld` adds what the power of 0.7 makes of it, with real numbers for floats.
- Router.TierRouter.RetrieveTiered: looks at the clock once for each row that may be promoted, where the original looks again when it samples.
- Fusion.BlendBound: computes with real numbers and an exact norm; rounding of floats is not modelled.
- Service.ServedTwice: takes the embedder to answer with a single vector; an embedder that returns a map of generations is passed on unchanged and is the caller's affair.
- EventLog.PurgeIsFinal: speaks of added memories only, since an imported id can be added again.
- EventLog.ComesBackIff: asks that the hashes which would name the first event and embedding of the id are not those of another row.
- `search_scoped` and keyword, full-text and vector search: their results are parameters, as tokenising, ranking and distances are the engine's.
- Widths of SQLite integers: revisions, generations and counts are unbounded here.
- JSON columns hold the sequences or sets that they encode; malformed JSON in a table is not modelled.
- The schema manifest part of the self-check, backups, files, permissions and locks.
- Adapter-level atomicity: provisioning commits on its own, so that a call that fails afterwards may leave a new profile behind; only the repository's own calls are all-or-nothing.
- Export, status and cardinality reports, OAuth tokens, HTTP, the tool server and the command line.
- Status changes of profiles other than by cutover, failure and start of a generation.
