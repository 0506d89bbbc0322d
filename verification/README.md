# A verified model of roo

roo is a reverse proxy and key-value store for small clusters. This project
models its three stateful cores and proves what they keep over whole runs.

**The replicated store** (`roo/kvdisk.go`). Every replica applies one Raft log
to a Pebble database, exchanges snapshots, and selects its live database through
a pointer file. `Commands` says what a log entry means, `Store` folds entries
into rows, `Iteration` and `Snapshot` read and write them, `NodeDir` is a disk on
which a power loss may undo whatever was not synced, and `DiskKV` is the state
machine working on that disk one system call at a time. On top of it `Recovery`
proves what a crash leaves behind, `Replication` that every open replica of every
run holds exactly a prefix of the log, and `Readers` that Get and Scan racing with
an install never use a closed database.

**The permission engine** (`roo/permissions.go`, `roo/utils.go`). Permissions and
a distributed cache of decisions share the store. `Rights`, `PermKeys`, `Paths`
and `Expiry` are its comparisons, keys, paths and expiry rows, and `Permissions`
its operations. `Acl` proves that in every run `authorize`, with its cache,
answers as an access control list that knows no keys and no cache, and `Orphans`
that no interleaving of single writes leaves a cache row no sweep would remove.

**Two smaller machines.** `Proxy` (`roo/proxy.go`) bounds how stale a route can
be; `Discovery` (`roo/kv.go`) shows how the discovery loop ends.

What an operation is for is stated twice: by the functions its method is proved
against, and, so that these functions cannot be wrong together, by lemmas that say
it without them. Reads after a proposal (`Store.PairRead`, `Store.LastPairRead`,
`Replication.ProposedPairIsRead`), how Update, Open and an install end
(`DiskKV.UpdateOutcome`, `Recovery.OpenOutcome`, `Recovery.InstallOutcome`), the keys
and the stream as texts (`PermKeys.PermKeySpelled`, `Proxy.KeySpelled`,
`Snapshot.StreamLayout`), the rights bit by bit (`Rights.GrantsMeans`,
`Acl.AclGrantsMeans`), and the members and exits of discovery
(`Discovery.MembersAreWhatWasHeard`, `Discovery.FirstDecisionCounts`) are all of this
kind.

## Where the code needs a promise

Some properties hold only under a condition. Each has a lemma that says exactly
when, and a reachable state in which the property fails otherwise.

- `authorize` answers as the access control list exactly if no name holds a colon
  and, unless nothing is cached, each resource name comes with one rune and no
  permission has an empty context: `Acl.MeansListIff`. Two grants can share a key
  with a colon; the cache key leaves the rune out; and the root is looked up as
  `/` but cached as the empty path.
- No cache row is orphaned exactly if neither second write gets lost, the expiry
  row after a cache row and the delete of the row a swept expiry row names:
  `Orphans.NoOrphansIffNothingLost`. An error return between the two does that.
- After a power loss a replica may fail to open exactly if some pointer that may
  survive names a directory that is not there for good and whole:
  `Recovery.CanBeLostIff`, and on every disk of a run `Replication.LostIff`. Once a
  first Open has returned, only a power loss makes a later one fail:
  `Replication.ReopensUnlessPowerLost`.
- In its first run a replica renames the pointer before the directory exists. Killed
  in between, it panics on every later Open: `Recovery.FirstRunKilled`. Nothing
  syncs the directory's entry afterwards, so from the rename on a power loss can
  have the same effect: `Recovery.FirstRunWindow`, `Recovery.FirstRunUnsynced`.
- A replica killed during an install and restarted always opens the old or the new
  database. If a power loss follows, it can be lost for good exactly in two cases.
  The kill came between the rename and the directory sync, and Open has removed a
  directory that the undone rename names again. Or it came before the sync that
  precedes the rename, and the replica could be lost before the install already,
  as after a first run: `Recovery.InstallWindow`.
- After a power loss `current` never leads to wrong or damaged contents, though it
  may lead nowhere, exactly if no pointer that may come back names a removed or
  damaged directory: `Replication.PowerSafeIff`.
- ReverseScan is safe exactly if nobody closes its database between loading the
  pointer and the last use: `Readers.ReverseScanSafeIff`.
- A node that finds itself the oldest in the round in which a peer lets it join
  starts without members and without joining, and in no other case is the start
  inconsistent: `Discovery.StartIsConsistentUnlessJoinedAsOldest`.

`bitwiseGreaterOrEqual` reads like a comparison of multi-byte numbers, and its
name promises one; it compares the last bytes alone, and so does the model
(`Rights.RightIff`).

Every key a client writes travels as JSON, which coerces it to valid UTF-8; keys
that are looked up do not. Rights are byte strings and part of a cache key, so for
a right like 128 the cache row stands under another key than the one looked up. A
decision that was cached is found again exactly if its key is valid UTF-8
(`Acl.NotedFoundIff`); any other is cached, swept and revoked as usual but never
answers (`Acl.BinaryRightNeverHits`).

## Assumptions

- The JSON codec coerces every text to valid UTF-8, round-trips documents of such
  texts, decodes to such documents only, and base64 can be undone
  (`Commands.Codec.Lawful`). Coercing is idempotent, leaves ASCII alone, treats
  what stands on either side of an ASCII byte on its own, and makes up no ASCII
  byte (`ByteStrings.IsCoercion`).
- Names in permissions and requests are valid UTF-8, as they come out of JSON
  documents (`roo/kv.go:401`, `roo/kv.go:433`); rights are arbitrary bytes.
- MD5 is a function with 16-byte results; nothing else is used about it.
- A synced Pebble batch is atomic and durable, an iterator walks a stable view in
  byte order, and values it hands out stay as they are.
- Raft delivers entries in order, with positive indexes below 2^64, starting right
  behind the applied index; a snapshot stream arrives whole or cut off.
- Directory names drawn at random are not in use and expiry keys have never been
  used before.
- Counts and lengths in a snapshot stream fit 64-bit words.
- Times are not negative, expiry times are below 10^15 seconds, and clocks do not
  go back.
- A write that reports an error has not been applied.
- A rune is given as the text that `%c` prints for it.

## Model

| member | source | states |
|---|---|---|
| `Commands.BatchApplied` | roo/kvdisk.go:482-495 | every encoded batch is applied element by element in order, at the coerced keys; nil deletes, empty stores the empty value |
| `Commands.ActionApplied` | roo/kvdisk.go:496-510 | an encoded action is not taken for a batch; it is applied as its data at the coerced key, or skipped without a key |
| `Commands.DataApplied` | roo/kvdisk.go:498-510 | an encoded plain pair passes both earlier decodes untouched and is applied at the coerced key, or skipped without a key |
| `Commands.WritesUtf8` | roo/kvdisk.go:482-511 | whatever bytes arrive, every key that gets written is valid UTF-8 |
| `Commands.DataDocDecodes` | roo/typedefs.go:27-30 | a pair survives encoding but for the coerced key, nil and empty values kept apart |
| `Commands.DocsSpelled` | roo/typedefs.go:27-40 | the documents a proposer encodes, member by member |
| `Commands.CaseAndTypes` | roo/kvdisk.go:499-502 | members are matched in any case, and a value of the wrong type spoils the pair |
| `Commands.UnreadableSkipped` | roo/kvdisk.go:499-504 | bytes that are no document, and documents that are no object, change nothing |
| `Commands.MistypedActionApplies` | roo/kvdisk.go:497-510 | an action whose name has the wrong type is applied nevertheless, since its data was read by then |
| `Commands.NilCrashes` | roo/kvdisk.go:485-487 | a null among the items of a batch panics |
| `Commands.NilDataCrashes` | roo/kvdisk.go:497-498 | so does null for the data of an action |
| `Store.ChannelDelivers` | roo/permissions.go:259-267 | through encoding, log and decoding, every pair and every batch a client proposes changes the rows as meant, at coerced keys |
| `Store.PairRead` | roo/kvdisk.go:496-510 | after a proposed pair its coerced key reads as its value, nothing for a nil value, and every other key as before |
| `Store.ActionRead` | roo/kvdisk.go:496-510 | the same for a proposed action |
| `Store.BatchRead` | roo/kvdisk.go:482-495 | after a proposed batch the last pair at each coerced key counts, and every other key reads as before |
| `Store.UpdatedIsProposed` | roo/kvdisk.go:472-524 | an Update of one entry is the proposal of its command with its index in eight bytes on top |
| `Store.UpdatedPairRead` | roo/kvdisk.go:472-524 | after an Update that ends in an encoded pair, its coerced key reads as its value |
| `Store.StateSteps` | roo/kvdisk.go:472-524 | the state after each entry is the effect of its command on the state before, under its index |
| `Store.LastPairRead` | roo/kvdisk.go:472-524 | in every log state a key reads as the last pair at it, if no later entry touches it |
| `Store.NeverTouched` | roo/kvdisk.go:472-524 | and a key that no entry touches is not there |
| `Store.BatchingIndependent` | roo/kvdisk.go:472-524 | one Update of two batches together equals two Updates, even if commands write the reserved index key |
| `Store.UpdatedIndex` | roo/kvdisk.go:512-522 | the index read back after an Update is that of its last entry |
| `Store.IndexKeySpelled` | roo/constants.go:74-74 | the reserved key is disk_kv_applied_index |
| `Store.UpdateAdvances` | roo/kvdisk.go:472-524 | the next log entries take a log state to the later log state |
| `Store.IndexOfState` | roo/kvdisk.go:315-329 | the stored index of a log state is its prefix's last index |
| `Store.EqualIndexEqualState` | roo/kvdisk.go:315-329 | log states with equal stored index are equal |
| `Store.StateUtf8` | roo/kvdisk.go:472-524 | all keys of a log state are valid UTF-8, so its snapshot can be decoded |
| `Iteration.Iterator.SeekGE` | roo/kvdisk.go:92-93 | stops at the first key that is not below the query |
| `Iteration.PrefixRun` | roo/kvdisk.go:92-98 | from there the prefixed keys are one run that ends at the first foreign key |
| `Iteration.Scan` | roo/kvdisk.go:82-104 | returns exactly the rows whose key has the prefix |
| `Iteration.RangeRun` | roo/kvdisk.go:453-460 | a bounded iteration covers exactly the keys from the lower up to the upper bound |
| `Iteration.ReverseScan` | roo/kvdisk.go:449-464 | returns exactly the rows from the lower bound up to, not including, the upper |
| `Snapshot.CollectRows` | roo/kvdisk.go:564-573 | all rows in key order |
| `Snapshot.WriteFrames` | roo/kvdisk.go:579-592 | appends one length-prefixed frame for each row |
| `Snapshot.SaveToWriter` | roo/kvdisk.go:562-594 | writes the stream that stands for the contents |
| `Snapshot.ReadSnapshot` | roo/kvdisk.go:634-655 | parses count and frames; an error when bytes run out, a panic on an undecodable row |
| `Snapshot.RoundTrip` | roo/kvdisk.go:562-655 | parsing the stream of given contents rebuilds them, empty values included, and leaves nothing unread |
| `Snapshot.StreamLayout` | roo/kvdisk.go:562-594 | the bytes of a stream: the count, then in key order each document behind its length, both in eight little-endian bytes |
| `Snapshot.FrameReads` | roo/kvdisk.go:640-655 | whatever document a frame holds: stored, a nil value as the empty one, or a panic if it cannot be decoded |
| `Snapshot.BadRows` | roo/kvdisk.go:650-653 | a frame is refused if it is no document, no object or null, or its value has the wrong type |
| `Snapshot.StreamInjective` | roo/kvdisk.go:562-594 | different contents have different streams |
| `Snapshot.TruncatedIsShort` | roo/kvdisk.go:635-649 | a stream cut off anywhere is refused, before anything is installed |
| `Snapshot.Utf8Encodable` | roo/kvdisk.go:580-592 | UTF-8 keys are all a row needs to survive its frame |
| `NodeDir.PointerReads` | roo/kvdisk.go:200-258 | a written pointer passes its digest check and gives back the name |
| `NodeDir.ReadPointerIff` | roo/kvdisk.go:230-258 | a pointer is believed if and only if it is a name behind the first eight bytes of its digest |
| `NodeDir.SaveNameEnds` | roo/kvdisk.go:200-228 | the five calls of saving a name, then rename and sync, leave a synced pointer |
| `NodeDir.CoveredSurvives` | roo/kvdisk.go:191-228 | if every pointer that may survive a power loss names a complete database, so does the one that does |
| `NodeDir.PointTrailCovered` | roo/kvdisk.go:191-228 | at every point of a pointer switch, what may survive names the complete old or new database |
| `NodeDir.CleanKeeps` | roo/kvdisk.go:277-289 | cleanup never harms the named database, at any point |
| `NodeDir.CleanLeavesOne` | roo/kvdisk.go:267-291 | after a cleanup only the named directory is left |
| `NodeDir.CleanupSafeIff` | roo/kvdisk.go:267-291 | a cleanup survives a power loss if and only if no older pointer can come back |
| `DiskKV.StateMachine.constructor` | roo/kvdisk.go:307-313 | a new process serves nothing yet and leaves the disk alone |
| `DiskKV.StateMachine.SaveCurrentDBDirName` | roo/kvdisk.go:200-228 | digest, name, file sync, directory sync, with every disk on the way |
| `DiskKV.StateMachine.ReplaceCurrentDBFile` | roo/kvdisk.go:191-198 | rename, then directory sync |
| `DiskKV.StateMachine.PointTo` | roo/kvdisk.go:659-664 | `current` durably names the directory |
| `DiskKV.StateMachine.RemoveAll` | roo/kvdisk.go:682-684 | removes a directory, through a state in which it is torn |
| `DiskKV.StateMachine.RemoveOthers` | roo/kvdisk.go:277-289 | removes every listed directory but one, with every disk on the way |
| `DiskKV.StateMachine.CleanupNodeDataDir` | roo/kvdisk.go:267-291 | drops `current.updating`, then all directories not named; nothing when the pointer is corrupt |
| `DiskKV.StateMachine.FinishOpen` | roo/kvdisk.go:362-372 | opens the database and takes over its applied index |
| `DiskKV.StateMachine.OpenFirst` | roo/kvdisk.go:353-372 | the first run: pointer first, directory second |
| `DiskKV.StateMachine.Open` | roo/kvdisk.go:333-373 | new state, outcome and every disk on the way, for first and later runs and all panics |
| `DiskKV.StateMachine.Collect` | roo/kvdisk.go:481-511 | the effects of all entries in order and a result for each, its size if it was applied; or that one of them panics |
| `DiskKV.StateMachine.Update` | roo/kvdisk.go:472-524 | stores the effects of the entries with their last index, and its panics; the result of each entry |
| `DiskKV.UpdateOutcome` | roo/kvdisk.go:472-524 | Update returns exactly for an open replica, entries of which none panics, and a new last index; then it serves their effects |
| `DiskKV.PairServed` | roo/kvdisk.go:472-524 | an open replica takes one more encoded pair and serves its value at its coerced key, and every other key as before |
| `DiskKV.StateMachine.PrepareSnapshot` | roo/kvdisk.go:542-554 | the contents of the moment |
| `DiskKV.StateMachine.SaveSnapshot` | roo/kvdisk.go:599-614 | writes what was prepared, whatever was updated since |
| `DiskKV.StateMachine.RecoverFromSnapshot` | roo/kvdisk.go:619-686 | new state, outcome and every disk on the way, error and panic paths included |
| `DiskKV.StateMachine.SwitchTo` | roo/kvdisk.go:656-685 | rows stored, pointer and handle switched, previous directory gone, in that order |
| `DiskKV.StateMachine.Lookup` | roo/kvdisk.go:413-434 | the current value, a missing key, or an error without a database |
| `DiskKV.StateMachine.Scan` | roo/kvdisk.go:437-447 | exactly the prefixed rows of the current contents |
| `DiskKV.StateMachine.ReverseScan` | roo/kvdisk.go:449-464 | exactly the rows of the range |
| `DiskKV.StateMachine.Close` | roo/kvdisk.go:689-700 | drops the handle; panics when closed twice |
| `Recovery.InstallStages` | roo/kvdisk.go:619-686 | what is on disk, and what may survive, after each system call of an install: the complete old database named up to the rename, the complete new one from then on |
| `Recovery.InstallLeaves` | roo/kvdisk.go:656-685 | an install that returns leaves the new database on disk for good, its entry and its pointer |
| `Recovery.InstallOutcome` | roo/kvdisk.go:619-686 | how an install ends, exactly: short streams fail, undecodable rows and an index that goes back panic, else it returns and serves the rows of the stream |
| `Recovery.InstallServes` | roo/kvdisk.go:674-686 | the whole stream of a state not older than the replica's own leaves it open on that state, with that index |
| `Recovery.InstallCrashAtomic` | roo/kvdisk.go:619-686 | a power loss at a point of an install leaves the complete old or the complete new database named, if and only if the point is past the directory sync before the rename, or the old one was on disk for good when the install began |
| `Recovery.OpenSelects` | roo/kvdisk.go:333-373 | on any disk whose `current` names a complete database, Open selects it, reports its index and removes everything else; killed anywhere, the next Open does the same |
| `Recovery.OpenOutcome` | roo/kvdisk.go:333-373 | how Open ends where there is a pointer, exactly: it returns for the right digest, a whole directory and a readable index, fails on a damaged directory, panics otherwise |
| `Recovery.OpenKeepsSettled` | roo/kvdisk.go:333-373 | where no older pointer can come back, Open is safe against a power loss at every point |
| `Recovery.KilledInstallReopens` | roo/kvdisk.go:619-686 | a process killed at any point of an install and restarted opens the complete old database up to the rename and the complete new one after it, a replica that was never synced since its first run included |
| `Recovery.CanBeLostIff` | roo/kvdisk.go:267-373 | main result: after a power loss Open may fail or panic if and only if some pointer that may survive names a directory that is not there for good and whole |
| `Recovery.InstallWindow` | roo/kvdisk.go:191-198 | kill, restart, power loss: the replica can be lost if and only if the kill came between rename and directory sync, or before the sync that precedes the rename when the replica could be lost already |
| `Recovery.FirstRunWindow` | roo/kvdisk.go:348-362 | in the first run, or one begun again after a kill, a power loss can make every later Open panic if and only if the rename has happened |
| `Recovery.FirstRunUnsynced` | roo/kvdisk.go:353-372 | when the first Open has returned, its database is selected and empty and the directory's entry is still not synced |
| `Recovery.FirstRunKilled` | roo/kvdisk.go:348-362 | a process killed in its first run opens again, empty, if and only if the kill did not come between the rename of the pointer and the creation of the directory; else it panics |
| `Replication.CodecSetup` | roo/kvdisk.go:562-594 | for a lawful codec every log state can travel as a snapshot |
| `Replication.ArrivingParses` | roo/kvdisk.go:634-655 | a stream of some replica's snapshot, or a part of it, is a log state or is refused |
| `Replication.OpenInv` | roo/kvdisk.go:333-373 | Open, finished or killed anywhere, keeps the replica invariant, unsynced renames included |
| `Replication.UpdateInv` | roo/kvdisk.go:472-524 | Update keeps the replica invariant |
| `Replication.PowerInv` | roo/kvdisk.go:191-228 | so does a power loss while no pointer that may come back names a damaged or removed directory |
| `Replication.PowerSafeIff` | roo/kvdisk.go:191-291 | after a power loss `current` never leads to wrong or damaged contents, if and only if no pointer that may come back names a removed or damaged directory; a missing directory is the next row's matter |
| `Replication.LostIff` | roo/kvdisk.go:267-373 | on every disk of a run: Open may fail after a power loss if and only if some pointer that may survive names a directory that is not there for good and whole |
| `Replication.InstallInv` | roo/kvdisk.go:619-686 | so does a snapshot install, finished or killed anywhere |
| `Replication.StepInv` | roo/kvdisk.go:333-700 | no step of any replica breaks the invariant of all |
| `Replication.EveryReplicaHoldsAPrefix` | roo/kvdisk.go:315-373 | main result: in every run, with kills and restarts anywhere, each open replica is the fold of a prefix of the log, and lastApplied is its index |
| `Replication.UpdateCatchesUp` | roo/kvdisk.go:472-524 | in every run an open replica given the next entries, none of which panics, is then open on the later log state |
| `Replication.InstallCatchesUp` | roo/kvdisk.go:619-686 | in every run an open replica given the stream of a log state no older than its own is then open on it |
| `Replication.BothWaysLeadThere` | roo/kvdisk.go:333-686 | whatever the log, some run has one replica take it, another take the snapshot of the first, and both open on the state of the whole log |
| `Replication.ProposedPairIsRead` | roo/kvdisk.go:413-434 | main result: in every run a replica that applied an encoded pair, and nothing that touches its key since, answers with its value |
| `Replication.NothingElseIsRead` | roo/kvdisk.go:413-434 | and has no key that nothing applied so far touches |
| `Replication.EqualIndexEqualReplicas` | roo/kvdisk.go:472-524 | replicas with equal lastApplied, at any two moments of a run, are equal |
| `Replication.ReopensUnlessPowerLost` | roo/kvdisk.go:333-373 | main result: in every run, once an Open of a replica has returned, every later Open of it succeeds after any kills at any points, as long as it does not lose power |
| `Readers.StepInv` | roo/kvdisk.go:82-132 | lock discipline: who passed the check reads an open database |
| `Readers.NoUseAfterClose` | roo/kvdisk.go:82-132 | main result: in every interleaving no reader uses a closed database |
| `Readers.ReadsAreWhole` | roo/kvdisk.go:413-447 | main result: a successful read is the answer on the contents of one database at one moment of the request |
| `Readers.AnswerIs` | roo/kvdisk.go:413-464 | what Get, Scan and ReverseScan answer on given contents, key by key |
| `Readers.LoneRequestIsAnswered` | roo/kvdisk.go:413-464 | with nobody in the way every request is answered |
| `Readers.UpdateIsSeen` | roo/kvdisk.go:472-524 | a request that starts after an Update is answered from what it wrote |
| `Readers.RefusedIff` | roo/kvdisk.go:82-132 | a reader is refused exactly if there is no database to load, or the one it loaded is closed at its check |
| `Readers.LateReaderIsRefused` | roo/kvdisk.go:82-132 | a reader that loads just before an install gets the lock afterwards and is refused |
| `Readers.ReverseScanSafeIff` | roo/kvdisk.go:449-464 | a ReverseScan goes wrong in its next step if and only if its database was closed since it loaded the pointer |
| `Readers.ReverseScanCanCrash` | roo/kvdisk.go:449-464 | and an install makes that happen |
| `Rights.BitwiseAnd` | roo/utils.go:165-175 | true exactly if equally long and some bit is set in both |
| `Rights.MeetsIff` | roo/utils.go:169-173 | two bytes have a set bit in common exactly if their & is not zero |
| `Rights.BitwiseGreaterOrEqual` | roo/utils.go:177-190 | compares the last bytes and never looks at another |
| `Rights.RightIff` | roo/utils.go:177-190 | as a little-endian comparison it is right if and only if the last bytes differ or the rest is not smaller |
| `Rights.NeverTooStrict` | roo/utils.go:177-190 | a number at least as large always passes |
| `Rights.CheckPermission` | roo/permissions.go:95-122 | no row or an empty one fails, an odd single byte passes, else the configured comparison decides |
| `Rights.GrantsMeans` | roo/permissions.go:103-118 | when a row passes, bit by bit: one odd byte, or equal length and either a shared bit at some byte or a last byte that is not larger |
| `Expiry.DecimalOrder` | roo/permissions.go:330-333 | byte order on zero-padded decimals is numeric order |
| `Expiry.TtlBelowBound` | roo/permissions.go:330-372 | an expiry row sorts below the bound of a sweep exactly if its time is earlier |
| `Expiry.SweepExact` | roo/permissions.go:370-380 | a sweep picks up exactly the rows that expire before now |
| `Expiry.Sweep` | roo/permissions.go:382-404 | deletes, for each picked row, first it and then the row it names, in the order given, until a write fails |
| `Expiry.SweptAll` | roo/permissions.go:382-404 | with all writes through, the order makes no difference |
| `Expiry.Prune` | roo/permissions.go:366-409 | scan and sweep together, stopping at the first failing write |
| `Expiry.PruneExact` | roo/permissions.go:366-409 | prune removes exactly the expired rows and the rows they name, at coerced keys, and changes nothing else |
| `Expiry.StoppedExactly` | roo/permissions.go:382-404 | a sweep that stops early has removed exactly what its first writes name, the expiry row before the row it names |
| `PermKeys.PermKeyUnique` | roo/permissions.go:248-256 | a permission key determines its fields, five or seven |
| `PermKeys.PermKeySpelled` | roo/permissions.go:248-256 | the permission key as a text, p:e:entity:rune:context and perhaps :rune:action |
| `PermKeys.CacheKeySpelled` | roo/permissions.go:279-290 | the cache key as a text |
| `PermKeys.CacheValueSpelled` | roo/permissions.go:306-310 | the cached value as a text |
| `PermKeys.TtlKeySpelled` | roo/permissions.go:330-333 | the expiry key as a text, its time digit by digit |
| `PermKeys.CacheKeyUnique` | roo/permissions.go:279-290 | a cache key determines user and resource, whatever bytes the right holds |
| `PermKeys.PermKeyStable` | roo/permissions.go:248-256 | permission keys of UTF-8 names are stored as they are |
| `PermKeys.CacheKeyCoerced` | roo/permissions.go:279-312 | of a cache key only the right may change on its way into the store |
| `PermKeys.CacheValueSplits` | roo/permissions.go:136-137 | a cached value splits into four fields |
| `PermKeys.HitReadsPermission` | roo/permissions.go:150-158 | the row a hit is checked against is the permission row of the cached triple |
| `PermKeys.KeyFamilies` | roo/permissions.go:248-333 | permission, cache and expiry keys keep to their families |
| `Paths.TriedExactly` | roo/permissions.go:176-187 | the tried paths are exactly the slash-boundary prefixes from the first slash on, the empty one included |
| `Paths.TriedBelow` | roo/permissions.go:176-187 | what is tried for a resource is tried for everything below it |
| `Permissions.TriedByParts` | roo/permissions.go:184-187 | the growing path of the loop goes through these paths |
| `Permissions.KvService.Permiss` | roo/permissions.go:241-277 | writes all permissions in one batch |
| `Permissions.PermissRead` | roo/permissions.go:241-277 | what a permission's row reads as: nothing if deleted, the byte 1 for an action, else the right; the last one of the batch counts |
| `Permissions.PermissSpares` | roo/permissions.go:241-277 | a key of none of the permissions of a batch reads as before |
| `Permissions.KvService.Check` | roo/permissions.go:95-122 | reads one row and compares |
| `Acl.OriginIsSame` | roo/permissions.go:349-363 | what is cached under the key a request looks up was cached for the same user and resource, and with one rune for each resource for the same rune |
| `Permissions.NotedExpires` | roo/permissions.go:296-345 | what cache and ttl note is found until its lifetime has passed and is gone after the next sweep |
| `Permissions.KvService.Cache` | roo/permissions.go:296-323 | cache row at the coerced key, then an expiry row naming the key; nothing with a lifetime of a second or less |
| `Permissions.KvService.TryCache` | roo/permissions.go:130-171 | yes exactly if the cached value names the user or an entity and its row still passes |
| `Permissions.KvService.TryPath` | roo/permissions.go:188-231 | stops at the user, else at the first entity whose row at this path passes, and notes who; skipping the user's name among entities changes nothing |
| `Permissions.KvService.WalkParts` | roo/permissions.go:184-232 | stops at the first tried path that grants and notes where |
| `Permissions.KvService.Walk` | roo/permissions.go:176-234 | yes exactly if some tried path and candidate grant; notes the first |
| `Permissions.KvService.Authorize` | roo/permissions.go:124-234 | yes exactly if cache or walk grants; a cache hit writes nothing, a walk what its first success notes |
| `Permissions.FirstSuccessGranted` | roo/permissions.go:184-234 | the ordered walk finds a success if and only if some tried path and candidate grant |
| `Permissions.StopsAtFirst` | roo/permissions.go:184-232 | the success is the first path at which anybody is granted, and there the first candidate |
| `Permissions.CandidatesInOrder` | roo/permissions.go:188-208 | the user is asked about before the entities, and those in their order |
| `Permissions.AuthorizeNotes` | roo/permissions.go:124-234 | a cache hit and a refusal write nothing, a walk notes exactly its first success |
| `Permissions.NotedRead` | roo/permissions.go:296-345 | what noting changes, key by key, with either write failing |
| `Permissions.KvService.Prune` | roo/permissions.go:366-409 | the store after a sweep, complete or stopped at a failing write |
| `Permissions.KvService.Revoke` | roo/permissions.go:412-441 | removes the cache rows of every name that begins with the coerced user name, except failed deletes |
| `Permissions.RevokeExact` | roo/permissions.go:412-441 | exactly the rows beginning with c: and the user's name are gone, but for failed deletes |
| `Permissions.RevokedForgets` | roo/permissions.go:412-441 | so no decision for the user is found any more, whatever was asked |
| `Acl.WrittenAgrees` | roo/permissions.go:241-277 | permission rows spell the list decided by all batches; the last word counts |
| `Acl.WrittenFrame` | roo/permissions.go:241-277 | permiss touches no other family of keys |
| `Acl.CacheAddsNothing` | roo/permissions.go:130-171 | the cache admits nobody the walk does not, but for empty contexts |
| `Acl.WalkReadsList` | roo/permissions.go:176-234 | the walk grants if and only if some tried path and candidate has a live passing entry |
| `Acl.SubpathsInherit` | roo/permissions.go:176-231 | who may use a resource may use everything below it |
| `Acl.NextInv` | roo/permissions.go:124-441 | every operation, cut short or not, and every single write of one, keeps rows and list in agreement |
| `Acl.LastWord` | roo/permissions.go:241-277 | what the list holds: the last permission about an entry counts, gone, the byte 1, or its right |
| `Acl.AclGrantsMeans` | roo/permissions.go:124-234 | what the list lets in, without any function of the engine: a path that covers the resource, somebody the request is made for, and an entry that passes bit by bit; the root is "/", an action is asked for with the byte 1 |
| `Acl.AuthorizeMeansList` | roo/permissions.go:124-234 | in every state of every run authorize answers as the list; the cache makes no difference |
| `Acl.AuthorizeAdmits` | roo/permissions.go:124-234 | main result: so it answers in those terms |
| `Acl.HitMeans` | roo/permissions.go:130-171 | a cached decision is believed exactly if the cache is on, the value names somebody the request is made for, and the row of the value passes now |
| `Acl.HitCountsWhenChecked` | roo/permissions.go:130-168 | a value cached earlier admits only whom the list admits when the row is read |
| `Acl.EmptyContextBreaks` | roo/permissions.go:69-72 | with an empty context a removed root grant stays in force through the cache |
| `Acl.TwoRunesBreak` | roo/permissions.go:279-290 | what is cached for one rune answers for another |
| `Acl.TransparentIffSound` | roo/permissions.go:124-234 | main result: without colons, the cache makes no difference in any reachable store if and only if the deployment keeps its promise about it |
| `Acl.ColonsBreak` | roo/permissions.go:125-125 | with colons somebody is let in whom the list does not know |
| `Acl.MeansListIff` | roo/permissions.go:124-234 | main result: authorize answers as the list, in the terms of AclGrantsMeans, in every reachable store if and only if names hold no colon and the deployment keeps its promise about the cache |
| `Acl.SpreadWalkMeans` | roo/permissions.go:176-234 | rows read at different times, with anything happening between: a yes is the list's at the granting read, and a no was right for each path and candidate when its row was read |
| `Acl.LastingGrantIsSeen` | roo/permissions.go:176-234 | such a walk lets in whoever one entry of the list admits throughout |
| `Acl.AtOneMoment` | roo/permissions.go:176-234 | with all rows read at one moment it is the walk of authorize |
| `Acl.NotedFoundIff` | roo/permissions.go:287-312 | in every run, a decision whose cache write got through is found under the request's key if and only if that key is valid UTF-8 |
| `Acl.BinaryRightNeverHits` | roo/permissions.go:287-312 | a decision whose key is no UTF-8 text, as with a right like 128, is never found in the cache |
| `Orphans.NextInv` | roo/permissions.go:296-441 | a sweep under way still knows what each of its expiry rows names |
| `Orphans.NextKeeps` | roo/permissions.go:296-441 | no single write orphans a cache row |
| `Orphans.NoOrphansIffNothingLost` | roo/permissions.go:296-441 | main result: in every interleaving each cache row has an expiry row naming it, or one or its own delete on the way, if and only if neither second write gets lost |
| `Orphans.LostTtlOrphans` | roo/permissions.go:312-320 | a cache row whose expiry write is lost is an orphan |
| `Orphans.LostDeleteOrphans` | roo/permissions.go:390-400 | so is a row whose expiry row was swept and whose own delete is lost |
| `Orphans.SweptClean` | roo/permissions.go:366-409 | with nothing halfway, a sweep after the last expiry leaves no cache row |
| `Orphans.CacheAlone` | roo/permissions.go:296-345 | the single writes of a cache operation left alone do what cache and ttl do |
| `Orphans.PruneAlone` | roo/permissions.go:366-409 | those of a sweep left alone do what prune does |
| `Orphans.RevokeAlone` | roo/permissions.go:412-441 | and those of a revoke what revoke does |
| `Proxy.KeySpelled` | roo/proxy.go:21-25 | the key is com.roo.host:, the host, and :https or :http as the request came |
| `Proxy.KeyUnique` | roo/proxy.go:21-25 | host and scheme can be read back from it |
| `Proxy.RouteTable.Proxy` | roo/proxy.go:14-98 | answer and new table: trusted routes as they are, else what the store says now, refreshed or replaced |
| `Proxy.ReplyIs` | roo/proxy.go:14-98 | what a request gets and what is kept of it, exactly, in terms of session, flag, kept route and the value at that key |
| `Proxy.RunInv` | roo/proxy.go:25-96 | every kept route was the store's 60 seconds before its flag lapses |
| `Proxy.ServedWithinLife` | roo/proxy.go:25-96 | main result: a served request goes where the store sent the key of its host and scheme at some moment of the last 60 seconds |
| `Proxy.StaleExactlyForLife` | roo/roo.go:557-557 | a changed route is still used for up to 60 seconds and not longer |
| `Discovery.GetNodeStatus` | roo/kv.go:181-199 | every poll before the last failed, the last is the reply, or the budget is spent on failed polls |
| `Discovery.Ask` | roo/kv.go:175-280 | what one host adds to the tally, or why the node gives up on it |
| `Discovery.Poll` | roo/kv.go:173-282 | a round asks the hosts in order, each from the poll after the last reply on, and tallies what they say; the second query is never repeated |
| `Discovery.RoundEnds` | roo/kv.go:283-301 | what a round decides, in terms of what was heard |
| `Discovery.Connect` | roo/kv.go:164-304 | ends with failed polls plus rounds within the budget, out of time exactly when it is spent; only the last round decides; members are exactly those heard of |
| `Discovery.Determined` | roo/kv.go:164-304 | main result: the replies alone determine exit, failed polls, polls, rounds, members and join |
| `Discovery.MembersAreWhatWasHeard` | roo/kv.go:164-221 | main result: a node that starts without having been let in starts with exactly the replicas named to it, each at the binding of the last reply that named it, port 6300, and itself |
| `Discovery.FirstDecisionCounts` | roo/kv.go:224-301 | main result: the first complete round that decides anything is the last, and the first of no cluster, oldest, may join that holds of it is the exit |
| `Discovery.GivesUpBecause` | roo/kv.go:193-213 | failed polls and rounds stay within 60 and reach it exactly when out of time; contention means a peer replied with the node's own time |
| `Discovery.HeardIs` | roo/kv.go:169-199 | only the node itself and what is no IPv4 address is passed over; anybody else is heard with what it replied |
| `Discovery.StartIsConsistentUnlessJoinedAsOldest` | roo/kv.go:284-308 | main result: PEERING joins without members, BOOTSTRAPPING knows itself, OLDEST too unless it joined in that round; exactly that start is inconsistent |
| `Discovery.OldestJoins` | roo/kv.go:261-292 | one younger host with a cluster that lets the node join at the first poll always leads to the inconsistent start |
| `Discovery.OldestHeardAll` | roo/kv.go:214-292 | OLDEST means every listed host answered with a later time in one round |
| `Discovery.AtMostOneOldest` | roo/kv.go:214-292 | main result: of two nodes that list each other at most one leaves as the oldest |

## Left out

- Replication.EveryReplicaHoldsAPrefix: its runs have no power loss on a disk where a pointer that may come back names a damaged directory; `Replication.PowerSafeIff` and `Recovery.InstallWindow` show that the code is not safe there.
- Readers.NoUseAfterClose: one install or Close at a time, as Raft issues them; the later panic check on the closed flag is not modelled.
- Acl.MeansListIff: nobody but these operations writes keys of the three families; requests with a name that is no UTF-8 do not occur.
- Proxy.ServedWithinLife: a request is one step; two requests interleaved inside the handler, and data races on the route map, are not modelled.
- Commands.ActionApplied: values given as JSON arrays of numbers, letters that match field names under Unicode case folding only, and repeated Batch members in one object are not modelled; no proposer writes them.
- DiskKV.StateMachine.Open: failing file system calls are not modelled, only interrupted ones; neither is the creation of the node directory itself.
- DiskKV.StateMachine.Lookup: takes the key, prefix or bounds; how the bytes of a query are told apart as an action, a pair or a plain key is not modelled.
- DiskKV.StateMachine.RecoverFromSnapshot: closing the previous database is part of `Readers`.
- Permissions.KvService.Check: a failing read counts as a missing row, as in the code.
- Permissions.KvService.Permiss: the applied-index row that every write updates is not among the rows of this part.
- GetHash, Sync and the never-set aborted flag of the state machine, and the unused delete of one key.
- What Dragonboat makes of the start parameters, and membership changes on a join request.
- HTTP handlers, TLS certificates, rate limits, Docker, NATS, the memory cache and the peer watcher.
