# Fabrin, modelled and verified in Dafny

This project models the parts of Fabrin whose behaviour spans several functions, and proves what they
are for. It verifies with Dafny 4.11: `dafny verify dfyconfig.toml`.

**The schema-migration compiler** (`Orm`, `Operations`, `Differ`, `Alterations`, `DiffSoundness`,
`Renames`, `Silence`, `RowData`, `Rollback`, `Catalog`, `Dialects`, `Simulation`, `CreateSimulation`, `Names`,
`Makemigrations`, `Generation`, `Replay`, `Rerun`, `Preflight`). Schemas are maps from table to columns,
operations have a step semantics, and SQL statements run against a catalog of columns, constraints and
indexes. The generated list is proved to carry the recorded schema to the declared one through sane
states only; rendering, rollback, grouping by module, sidecars and replay are proved to preserve that meaning.
Where a server refuses a generated statement, the theorems say exactly when: a generated Up fails only on a
retyping the server does not convert, and a generated Down also, on SQLite, on an added column with an index,
which the bare DROP COLUMN cannot remove.

**The OTP store, twice.** `Otp`, `OtpRuns`, `OtpReference`, `OtpRevocation` and `MemoryStores` hold the
in-process store: a class over maps, the specification of each call, invariants over runs, and a reference
that never forgets. `RedisServer`, `RedisScripts`, `IdentityDb`, `RedisProtocol`, `RedisSafety`,
`RedisBudgets` and `RedisRetry` hold the shared one: scripts as atomic steps, clients, messages that may be late, duplicated or lost,
key expiry, and the durable identity table.

**The migration engine** (`Engine`, `MigrateCommand`): transactions that may fail anywhere, the stack of
committed versions, and the `migrate -to` command.

**Three algorithms**: two-row edit distance (`EditDistance`), the type-graph leak walk (`LeakWalk`), and
path ownership among parallel workers (`Fanout`). `Text` and `Wrappers` hold string order, sorting and
the option types.

Loops that update state are methods proved against specification functions; the properties are lemmas
about those functions. A method's unpredictable choices - which map entry a `range` visits first, whether
a statement fails - are left open, so the contracts hold for every choice.

## Assumptions and readings

- Strings are sequences of code points; Go's byte order on valid UTF-8 is code-point order. Where the
  source counts bytes, `Text.ByteLen` does.
- Truncated SHA-256 in object names is a function parameter assumed only to tell the payloads in play
  apart. Digests of codes, sessions, addresses and leases stand for what they digest.
- `strings.ToLower` is a per-character parameter. The version clock is a parameter with an ordered,
  invertible format between its first and last second; versions of one run ascend exactly when the run
  ends by that last second (the end of year 9999 in the source, which has no guard there).
- Library sorts are the sort function of `Text`, proved to keep elements and to order distinct keys.
- One namespace holds tables, constraints and indexes in the catalog. PostgreSQL names of existing primary keys
  are arbitrary, as the DO block looks them up.
- A naming (`Catalog.Naming`) lists the tables and the constrained columns in play. The simulation asks that no two
  generated names agree and that no table carries a generated name or a name a primary key already has.
- User identifiers mean what they say: PostgreSQL's truncation of identifiers beyond 63 bytes and SQLite's
  case-insensitive comparison ("ID" and "id" both pass `orm.validate`, and CREATE TABLE then fails) are not modelled.
- A server (`Catalog.Host`) is its dialect and the pairs of types it converts in an assignment. PostgreSQL takes
  `ALTER COLUMN ... TYPE` without USING for those pairs only, even on an empty table: integer to text, say, but not text to
  integer. SQLite takes `DROP COLUMN` (since 3.35) only when no key, unique constraint or index is on the column and
  it is not the last one; it has no table without columns.
- Statements run on tables without rows: a NOT NULL column, a key or a unique constraint that existing rows would
  break is not refused here. Names a server reserves and its limits on lengths and numbers of columns are not modelled.
- Operations handed to a dialect are values of the thirteen known types.
- A recorded or declared set of models is valid in the sense of `orm.validate`, as `NewSnapshot` and
  `ParseSnapshot` guarantee.
- Times are integers (nanoseconds in memory, milliseconds on the server). The theorems about rolling
  budgets and the reference need time that does not go back; the reference also needs fresh IDs and that no capacity
  guard refuses. The protocol needs fresh challenge and session IDs and the fixed session lifetime of
  `auth/session.go:14`.
- In both stores a mismatch that meets a full address budget is not counted as an attempt, and answers
  "rate limited"; the models do the same, and attempt counts speak of refusals answered
  "authentication failed".
- The server's rolling budgets count members of a sorted set, as its scripts do: two deliveries of one call within
  one millisecond are one member. Sends and bootstraps have fresh IDs and checks and misses their call's own lease, so
  different calls are different members. A key is gone once the time is past its expiry.
- On the server a code's validity is decided when the lease is taken: completion does not read `active`
  again. The model keeps this; `RedisSafety` therefore claims who can win, not that a replaced code cannot.
- The comment above `offenders` in `tools/apicheck/main.go` speaks of the methods of Fabrin's own named types; the
  function follows only their underlying types. The model follows the code.
- A refused reservation or bootstrap may still have reclaimed a dead entry before the refusal; kept as is.

## Model

| member | source | states |
|---|---|---|
| Orm.Validate | orm/orm.go:209-267 | accepts exactly the valid models (non-blank names, known types, lengths on strings only, no contradictory flags, no repeated field, one primary key) and says which sentinel it returns otherwise |
| Orm.NewSnapshot | orm/state.go:62-84 | succeeds exactly on models that are valid with no table claimed twice, and returns them sorted by table |
| Orm.ParseSnapshot | orm/state.go:133-180 | accepts exactly the known formats whose decoded models are admissible; every refusal is the bad-state sentinel |
| Orm.EncodeRoundTrip | orm/state.go:101-121 | what is encoded decodes back to the same snapshot, legacy defaults included |
| Orm.ReplayState | orm/state.go:207-230 | accepts exactly chains of readable states with ascending versions and returns the last state |
| Orm.SortedSnapshot | orm/state.go:62-84 | sorting admissible models yields a valid snapshot of the same schema |
| Preflight.Registry.Register | orm/orm.go:170-184 | files the models before the first one it refuses, with that model's own sentinel, and refuses none exactly when all are valid, of tables nobody has and none twice |
| Preflight.Registry.Models | orm/orm.go:196-203 | exactly the registered models, ascending by table, fit to be a snapshot |
| Preflight.RegistrationCommutes | orm/orm.go:170-184 | two modules' models are accepted in one order exactly when in the other, and file the same entries |
| Preflight.ModelsDetermined | orm/orm.go:196-203 | the listing is the same whichever of two modules registered first |
| Differ.Diff | migratediff/migratediff.go:169-262 | the loops compute the specified list: creates, then each surviving table's alterations sorted by rank and column, then drops |
| Differ.TableAltersExact | migratediff/migratediff.go:204-229 | a surviving table's list holds exactly the alterations the two declarations need, each once, strictly ascending by rank and column |
| Alterations.TableCarried | migratediff/migratediff.go:169-262 | in rank order the alterations of one table, renames included, are each legal, safe and recorded where they stand, and end in the declared columns |
| DiffSoundness.DiffCarries | migratediff/migratediff.go:169-262 | for all valid snapshots the list runs from before to after, every precondition holds at its position, and every state between has at most one primary key a table, no nullable key and no doubly constrained column |
| DiffSoundness.DiffEmptyIff | migratediff/migratediff.go:169-262 | the list is empty exactly when the two schemas are equal, declared order and owners aside |
| DiffSoundness.ResolvedCarries | makemigrations.go:393-461 | the same with any fitting set of drop/add pairs rewritten to renames |
| Alterations.MidSane | migratediff/migratediff.go:204-229 | whatever part of one table's ranked alterations has run, lower ranks first, the table has at most one key, no nullable key and no doubly constrained column |
| Operations.PathByTable | migratediff/migratediff.go:169-262 | a list is sound as a whole when each table's own part is: operations of different tables do not interfere |
| Renames.FindCandidates | makemigrations.go:393-461 | lists a pair of positions if and only if it is a drop and an add of one table, of fields alike in all but the name, each pair once, by drop and then by add |
| Renames.ResolveRenames | makemigrations.go:393-461 | the prompt loop computes the specified resolution for every stream of answers, or its refusal, and asks the specified questions |
| Silence.AskedExactly | makemigrations.go:426-449 | in a session that ends well a pair is asked about exactly when no earlier confirmed pair has one of its ends |
| Silence.SilentRunExactly | makemigrations.go:388-423 | a non-interactive run is refused exactly when some surviving table lost a column and gained one alike in all but the name, and otherwise the list goes through unchanged |
| Silence.EveryLookalikeIsAsked | makemigrations.go:388-449 | with a user, every such pair was asked about unless one of its columns was confirmed as the end of another rename |
| Renames.ResolutionSound | makemigrations.go:393-461 | confirmed pairs come from the list, each drop and each add is in at most one, and none is constrained |
| Renames.MergeIsRewrite | makemigrations.go:440-461 | replacing by list position is rewriting by column name |
| Renames.ResolvedListCarries | makemigrations.go:393-461 | for every stream of answers a resolved list still carries before to after, safely and as recorded |
| RowData.ResolvedRowsKept | makemigrations.go:393-461 | for every stream of answers the resolved list leaves each row of a surviving table as declared, every value where its column went |
| RowData.ResolvedDataLostExactly | makemigrations.go:393-461 | for every stream of answers the resolved list destroys the data of exactly the columns dropped and not confirmed as renamed |
| RowData.RowsKept | makemigrations.go:488-509 | the same for one table and any fitting renaming: every surviving or renamed column keeps its value and every other column is blank |
| Rollback.BuildDown | makemigrations.go:126-157 | the inverses are collected forwards and emitted backwards, or none where one does not exist: the operations behind the rendered Down |
| Rollback.InvertStep | makemigrations.go:524-590 | on a recorded operation the inverse exists, is safe where the operation ended and returns to where it began |
| Rollback.RollbackRetraces | makemigrations.go:126-157 | the rollback of a recorded run visits exactly the run's states backwards |
| Rollback.DiffRollback | makemigrations.go:524-590 | so the rollback of a generated list, confirmed renames included, returns to before |
| CreateSimulation.PostgresSimulates | migratediff/dialect_postgres.go:19-206 | every safe operation renders, and its statements take a catalog of the schema to a catalog of the next schema, except that a retyping is refused exactly when the server does not convert the types |
| CreateSimulation.SqliteSimulates | migratediff/dialect_sqlite.go:17-108 | where SQLite renders, the server takes it and the same holds; where it does not, the refusal is "unsupported" |
| CreateSimulation.ListSimulates | migratediff/migratediff.go:268-299 | executing a whole rendered list lands on a catalog of the list's end exactly when every retyping on the way converts, and is refused otherwise; on SQLite it always lands |
| Simulation.ConstrainedRenameGoesStale | makemigrations.go:440-461 | renaming a constrained column would leave a catalog name out of step with its column: why the prompt refuses it |
| Preflight.Handle.Apply | migratediff/migratediff.go:268-299 | one operation that cannot be rendered leaves the database untouched; otherwise the rendered statements run in order, all of them on success, a proper prefix on failure |
| Preflight.RenderedNotEmpty | migratediff/migratediff.go:280-287 | neither dialect ever renders an operation to nothing |
| Names.PayloadInjective | migratediff/migratediff.go:420-435 | the length-prefixed text that is hashed tells kind, table and column apart |
| Names.ReadableIdentifier | migratediff/migratediff.go:437-451 | the builder loop computes the specified squashing and trimming |
| Names.NameFits | migratediff/migratediff.go:420-435 | every generated name is at most 63 bytes, all of them plain |
| Names.GeneratedNamesCollisionFree | migratediff/migratediff.go:420-435 | generated names never clash, as the simulation asks |
| Names.QuoteLexes | migratediff/migratediff.go:404-406 | a quoted identifier lexes back to exactly its name under section 5.2 of ISO/IEC 9075-2 |
| Names.DollarQuoteTag | migratediff/dialect_postgres.go:212-228 | the loop ends, and its tag is the shortest of its family that occurs in no value |
| Names.DoBlockEndsAtItsOwnTag | migratediff/dialect_postgres.go:176-197 | the tag does not begin anywhere in the DO body, so the server reads exactly the body |
| Makemigrations.GroupByModule | makemigrations.go:100-116 | every owner once, in sorted order, each with its operations in list order |
| Makemigrations.SnapshotAfterOperations | makemigrations.go:233-251 | succeeds exactly when the mixed models are admissible and returns them sorted |
| Makemigrations.SidecarExact | makemigrations.go:233-251 | a sidecar never fails validation; touched tables are as declared, the rest as recorded |
| Makemigrations.ShareCarries | makemigrations.go:118-166 | each module's share runs from its predecessor's sidecar to its own |
| Makemigrations.SplittingPreservesMeaning | makemigrations.go:100-166 | running the shares in module order reaches the same schema as the list in its own order, and the last sidecar is that schema |
| Generation.NextVersion | makemigrations.go:634-659 | the version is above every recorded one, the clock's or one second past the highest recorded; it is refused exactly when the highest is not below the clock's and is no timestamp, or none after it sorts later |
| Generation.VersionsAscendIff | makemigrations.go:661-667 | the versions of one run ascend if and only if the run ends by the clock's last second |
| Generation.RenderShare | makemigrations.go:118-157 | the inner loop renders up and down, using the raw fallback where the dialect refuses the inverse, and fails exactly when one of the two does not exist |
| Generation.DownIsRenderedRollback | makemigrations.go:126-157 | where every inverse renders, the Down statements are the rendering of the rollback operations |
| Generation.DownAllSettles | makemigrations.go:126-157 | executing the generated Down takes a catalog of the run's end back to one of its start if and only if every retyped column's new type converts to the recorded one and, on SQLite, no added column is indexed; otherwise the server refuses it |
| Generation.TakesDownIff | makemigrations.go:142-150 | one operation's inverse is taken where the operation ended exactly when the operation and the recorded snapshot say so, the raw DROP COLUMN included |
| Generation.IndexedColumnStays | makemigrations.go:595-602 | the failing case on SQLite: a nullable indexed column added to any table is generated and applied, and its Down is a bare DROP COLUMN the server refuses |
| Generation.TextStaysText | makemigrations.go:551-562 | the failing case on PostgreSQL: an integer column made text is generated and applied, and its Down is refused by a server that does not convert back |
| Generation.PostgresNeverByHand | makemigrations.go:118-157 | on PostgreSQL every recorded list renders and so does its rollback, so no migration is left to be written by hand |
| Generation.RunMakemigrations | makemigrations.go:65-225 | the whole command for every stream of answers: nothing for an empty list, no version exactly when none can follow, one migration per changed module when every share renders, and otherwise the migrations of exactly the modules before the first that does not |
| Generation.MigrationsWork | makemigrations.go:65-225 | each generated migration's Up moves the server from its predecessor's sidecar to its own exactly when every retyping in it converts, its Down back exactly when they convert back and, on SQLite, no column it adds is indexed; otherwise the statements are refused |
| Generation.RerunFindsTheRest | makemigrations.go:118-223 | after a run, whole or halted, the chain stays usable and a new diff finds, table by table, exactly what the first found for the modules that had no turn |
| Generation.SecondDiffEmptyIff | makemigrations.go:118-223 | that diff is empty exactly when every module's migration was written |
| Generation.SecondDiffEmpty | makemigrations.go:118-223 | after a whole run, replaying the extended chain leaves nothing to do |
| Rerun.ReplayManifests | makemigrations.go:263-330 | reads the registered modules' manifests and succeeds exactly when they can be replayed |
| Rerun.NextDiffEmptyIff | makemigrations.go:191-223 | with the new entries in their owners' manifests, the next run's diff is empty exactly when every module had its turn and the last one's module is registered |
| Rerun.NextDiffEmpty | makemigrations.go:263-330 | so when every owner is registered, running the command again proposes nothing |
| Rerun.DropComesBack | makemigrations.go:263-330 | a concrete case where it does: the dropped table of a module that is gone is written to a manifest no run reads, and proposed again |
| Replay.ReplayRecordedState | makemigrations.go:263-330 | accepts exactly readable, versioned, distinct entries and returns the state of the version-ordered chain |
| Replay.ManifestOrderIrrelevant | makemigrations.go:263-330 | which module's manifest holds an entry, and in what order, does not matter |
| Otp.KeyTextInjective | auth/memory.go:139-139 | the joined index key tells purpose and email apart |
| Otp.StepValid | auth/memory.go:21-243 | every call keeps the invariant: a challenge is active exactly when the index points to it, attempts stay within five, every map within capacity, whichever dead entry is reclaimed |
| Otp.OneActive | auth/memory.go:155-167 | at most one challenge is active for a purpose and an email |
| Otp.IndexBounded | auth/memory.go:41-41 | the active index is no larger than the challenges, so bounded too |
| OtpRuns.RunsStayValid | auth/memory.go:72-387 | the invariant holds in every reachable state |
| OtpRuns.RollingBudgets | auth/memory.go:313-363 | over any run no hour admits more than 5 sends to an email, 20 from a source, 20 bootstraps, 100 gated verifications or 20 counted failures, and sends to one email are a minute apart |
| OtpRuns.SingleUse | auth/memory.go:209-227 | successes for an ID never outnumber its reservations, an open challenge counting as one still to come |
| OtpRuns.AttemptsAreFailures | auth/memory.go:196-207 | while a challenge can be used its attempts are the refusals since its reservation, up to five |
| OtpRuns.FiveFailuresEndIt | auth/memory.go:192-207 | after five refusals no later verify of that reservation succeeds |
| OtpRuns.UnavailableKeepsTheCode | auth/memory.go:209-219 | a verify answered "unavailable" leaves challenges, index and identities as they were and makes no session |
| OtpRuns.RetryAfterUnavailable | auth/memory.go:209-227 | the same code with a sound new session then succeeds unless a capacity guard or the source's budget refuses |
| OtpReference.StepAgrees | auth/memory.go:72-387 | one call keeps the refinement of the store that never forgets and gives its answer |
| OtpReference.AnswersAgree | auth/memory.go:72-387 | over any run, whatever the reclaim loops pick, the bounded store answers as the one that never forgets |
| OtpRevocation.RevokeAgreesExactly | auth/memory.go:246-258 | over any run RevokeSession, which looks at no clock, differs exactly on a session the run reclaimed, that was not revoked and whose digest matches |
| OtpRevocation.RevokeAgreesOnTheLiving | auth/memory.go:246-258 | so the answers agree on every session never made, already revoked, of another digest, or alive at the clock |
| OtpRevocation.ReclaimedExactly | auth/memory.go:379-387 | what the never-forgetting store has and the bounded one has not is exactly what the run reclaimed |
| OtpRevocation.RevokeCanDiffer | auth/memory.go:246-258 | a run of two sign-ins on a store of one entry, ordered, lawful and roomy, after which the two answers differ |
| MemoryStores.PruneBudget | auth/memory.go:313-344 | the map loop leaves exactly the keys with recent values, pruned |
| MemoryStores.RecentValues | auth/memory.go:356-363 | the loop drops exactly the prefix that is an hour old |
| MemoryStores.MemoryStore.Reserve | auth/memory.go:130-167 | the new maps and the answer are the specified step for the entry the reclaim loop picked |
| MemoryStores.MemoryStore.Verify | auth/memory.go:170-228 | the same for verification |
| MemoryStores.MemoryStore.Invalidate | auth/memory.go:295-311 | closes the named challenge only; a newer replacement stays active |
| MemoryStores.MemoryStore.RevokeAllSessions | auth/memory.go:261-277 | a live presented session closes every session of its identity, itself included, and no other |
| MemoryStores.MemoryStore.CreatePreAuth | auth/memory.go:72-95 | the specified step: validation, bootstrap budget, room, record |
| MemoryStores.MemoryStore.ReclaimChallenge | auth/memory.go:365-377 | removes one dead challenge with its index entry, and none only if all are alive |
| RedisScripts.Redis.Reserve | authredis/authredis.go:328-344 | the script's commands compute the specified step |
| RedisScripts.Redis.Verify | authredis/authredis.go:375-399 | the same for the lease script |
| RedisScripts.Redis.Complete | authredis/authredis.go:405-412 | the same for completion with its marker |
| RedisScripts.Redis.RevokeAll | authredis/authredis.go:433-445 | the loop over the index deletes exactly the listed sessions and the index |
| IdentityDb.IdentityStore.ResolveVerified | authpg/authpg.go:96-148 | with any statement failing: a verdict is the specified resolution, a failure leaves the old table or, at the commit, the new one |
| IdentityDb.ResolutionKeeps | authpg/authpg.go:96-148 | emails and IDs stay unique and no identity is lost |
| IdentityDb.ResolutionAdmits | authpg/authpg.go:125-143 | where invitations are required every identity has used one up |
| IdentityDb.ResolutionIsIdempotent | authpg/authpg.go:106-121 | asked again with any proposal, an eligible email gets the identity it first got and nothing changes |
| RedisSafety.ActKeeps | authredis/authredis.go:158-225 | every step of the protocol - scripts, expiry, lost or repeated messages, identity transactions - keeps the invariant |
| RedisSafety.OneSessionPerChallenge | authredis/authredis.go:405-412 | over every interleaving at most one session is made per reserved challenge |
| RedisSafety.OneWinner | authredis/authredis.go:158-225 | two calls that both return an identity verified different challenges |
| RedisSafety.RetryMakesNoSecond | authredis/authredis.go:206-217 | once a session is made, delivering its completion again changes nothing on the server |
| RedisSafety.RetryToldExactly | authredis/authredis.go:405-412 | such a delivery answers success exactly while the completion marker stands |
| RedisRetry.RetryToldInTime | authredis/authredis.go:405-412 | so it answers success exactly while at most five minutes have passed since the completion that made the session, and failure after |
| RedisRetry.GrantedExactly | authredis/authredis.go:375-399 | the lease is granted exactly to the holder of an active, unleased, matching code whose source is under its limit |
| RedisRetry.UndisturbedSignIn | authredis/authredis.go:158-225 | from any reachable state with such a code, an eligible email and a sound fresh session, an undisturbed client is told its durable identity and has its session |
| RedisRetry.ReservedIsReady | authredis/authredis.go:328-344 | a reservation the server accepts puts its holder in that state |
| RedisRetry.LateRetryIsMisled | authredis/authredis.go:405-412 | once more than five minutes have passed since the completion that made a session, whoever made it in whatever run, a retry is told that it failed |
| RedisRetry.MisledRetryIsReached | authredis/authredis.go:405-412 | such runs exist: from any such state, an undisturbed sign-in that was told of its success, and then the wait |
| RedisSafety.SessionsAreEarned | authredis/authredis.go:375-412 | every session made belongs to a client that presented the reservation's own code, under the durable identity of its email |
| RedisSafety.StoredSessionsAreEarned | authredis/authredis.go:405-412 | every stored session is one of those, under the same identity |
| RedisSafety.WinningIsTrue | authredis/authredis.go:221-224 | an identity returned by Verify comes with a session made from that challenge for that identity |
| RedisSafety.GuessesAreBounded | authredis/authredis.go:391-399 | attempts never pass five, and at five no lease is granted |
| RedisSafety.LogoutAllIsComplete | authredis/authredis.go:433-445 | a successful logout-all leaves no session of the identity, the presented one included, and every other session unchanged |
| RedisSafety.RevokeIdentityIsComplete | authredis/authredis.go:447-450 | revoking an identity removes exactly its sessions |
| RedisBudgets.RedisRollingBudgets | authredis/authredis.go:328-399 | over every interleaving no hour holds more uses than a sorted set's limit, and sends to one email are a minute apart, across trimming and expiry |
| RedisBudgets.AcceptedSendsAreUses | authredis/authredis.go:336-338 | an accepted reservation is such a use of its email's and its source's set |
| RedisBudgets.GatedChecksAreUses | authredis/authredis.go:383-385 | every verification past its source's gate is a use under its own lease |
| RedisBudgets.CountedMissesAreUses | authredis/authredis.go:391-397 | every counted mismatch is a use of its address's misses |
| RedisBudgets.AcceptedBootstrapsAreUses | authredis/authredis.go:346-353 | every accepted bootstrap is a use of its source's set |
| Engine.NoFaultExactly | migrate/migrate.go:240-262 | validation accepts exactly sets that are complete, distinct and of one width |
| Engine.Database.Prepare | migrate/migrate.go:240-279 | a faulty set is refused with its first fault before the database is touched; otherwise the set comes back sorted |
| Engine.Database.Apply | migrate/migrate.go:333-346 | schema and record change together or not at all |
| Engine.Database.Run | migrate/migrate.go:131-173 | the returned migrations are exactly those that committed, on top of a strictly ascending stack; a faulty or out-of-order set changes nothing; success applies all that was pending |
| Engine.Database.Rollback | migrate/migrate.go:189-233 | the returned migrations are exactly the undone top of the stack; a missing Down is found before anything is undone; success leaves nothing above the target |
| Engine.Database.RunAndReturn | migrate/migrate.go:131-233 | a run and a rollback to the former highest version restore stack, rows and schema when each Down undoes its Up |
| Engine.ThereAndBack | migrate/migrate.go:333-358 | reverting in reverse what was applied restores schema and rows |
| MigrateCommand.RunMigrate | migrate_cmd.go:55-132 | on success the target is the highest applied version; forward leaves nothing declared below it out, backward keeps exactly the versions up to it, and where it already is the highest nothing changes |
| MigrateCommand.ForwardArrives | migrate_cmd.go:94-121 | running the filtered subset makes the target the highest and leaves no declared gap below it |
| EditDistance.DistanceIsShortest | cli/cli.go:237-256 | the recurrence is the length of a shortest insert/delete/replace script: one exists, none is shorter |
| EditDistance.Distance | cli/cli.go:237-256 | the two swapped rows compute it |
| EditDistance.ZeroMeansEqual | cli/cli.go:237-256 | the distance is zero exactly between equal names |
| EditDistance.Symmetric | cli/cli.go:237-256 | the distance is the same both ways |
| EditDistance.Triangle | cli/cli.go:237-256 | going through a third name is never shorter |
| EditDistance.Closest | cli/cli.go:216-230 | the first nearest candidate when it is within the limit, nothing exactly when none is |
| LeakWalk.Walker.Offenders | tools/apicheck/main.go:397-473 | a call adds exactly new types reached from its argument, each reported once, and leaves none of their successors out |
| LeakWalk.Offenders | tools/apicheck/main.go:397-473 | on any finite, possibly cyclic graph the report names exactly the unpermitted types reached along the followed edges |
| Fanout.ValidateTask | tools/agentcheck/validator.go:154-227 | no complaint exactly when every field has its form, the role allows the access, lists hold no blank or unknown value and owned paths are valid |
| Fanout.ValidateFanout | tools/agentcheck/validator.go:231-288 | no complaint exactly when every task is sound and every pair may run side by side |
| Fanout.ValidateResult | tools/agentcheck/validator.go:310-381 | no complaint exactly when the task is sound, the report is this task's on its base, findings and commands are complete, and every changed path is valid, writable and owned |
| Fanout.ValidIsPlain | tools/agentcheck/validator.go:389-400 | an accepted path has no empty, dot or double-dot piece |
| Fanout.PlainIsValid | tools/agentcheck/validator.go:389-400 | and paths of plain pieces outside the repository's own directory are accepted |
| Fanout.OwnsIsPrefix | tools/agentcheck/validator.go:385-387 | the string test is containment of paths, piece by piece |
| Fanout.WorkersNeverCollide | tools/agentcheck/validator.go:246-288 | in accepted work no path one task changed equals, contains or lies under a path another changed |

## Left out

- OtpReference.AnswersAgree: does not cover RevokeSession, whose answer depends on whether a dead session was reclaimed; OtpRevocation states exactly when it differs and gives a run on which it does.
- Generation.VersionsAscendIff: covers runs within the clock's range; past its last second the source goes on formatting five-digit years, which no longer sort.
- RedisSafety.OneSessionPerChallenge: speaks of sessions made, not of answers; a completion retried after the five-minute marker expired answers "authentication failed" although its session exists, as RetryToldInTime states.
- Fanout.ValidateTask: whether each list of a packet is present or null is one boolean of the task or result; exit codes, which no check reads, are not there.
- Migration operations passed by address (`*CreateTable`) and operations of unknown type.
- Generation.MigrationsWork: does not promise every generated Down; two ordinary cases have none that a server takes, as IndexedColumnStays and TextStaysText show.
- Row contents in the SQL catalog: values follow the row-level semantics of `RowData`, not server conversions.
- SQL text beyond names, quoting and the DO block: statements are abstract.
- JSON text of sidecars and manifests: states are wire records; legacy decoding is modelled there.
- File writes, formatting, slugs and the wording of generated files; manifests are maps of entries. That a manifest of an unregistered module is overwritten rather than extended is not modelled, as no later run reads it.
- Commit ambiguity and implicit commits in the migration engine: a transaction commits or it does not.
- Context cancellation at the top of each store method, which changes nothing.
- Session, code and address secrets, HMAC and constant-time comparison.
- The private challenge object in the authentication core, whose behaviour the in-process store repeats.
- `leakInScope`, which calls the walk once for each exported name and method.
- HTTP, routing, configuration, mail, scaffolding and application lifecycle.
