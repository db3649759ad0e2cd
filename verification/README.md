# Homelab control plane: a verified model

The plugin `autonomous-dev-homelab` keeps a signed audit log, locked YAML and JSON stores, a connection pool,
persisted delayed actions, resumable migrations, an inventory that ages, a certificate authority, gated
restores and health scores. This project models the parts of it whose correctness is decided by code rather
than by a library, and proves what the code keeps over every input, schedule, crash and restart.

| modules | what they model |
|---|---|
| `Texts`, `Json`, `JsonScan`, `CanonicalJson`, `JsonText`, `Utf8` | JavaScript strings as UTF-16 code units, `JSON.stringify`, an explicit decoder, the sorted-key printer and its text unit by unit, UTF-8 |
| `AuditChain`, `AuditRecovery`, `AuditWriter` | the HMAC chain, `audit verify`, tail recovery, the writer under every schedule |
| `FileMutex`, `LockedStore`, `Stores`, `AtomicWrite` | the promise-chain lock, read-modify-write stores on top of it, the temp-and-rename write |
| `Semaphore`, `Pool` | the prober's semaphore and the connection pool |
| `Delay`, `Migration` | delayed actions and the five-phase orchestrator composed with them |
| `Words`, `Cidr` | 32-bit arithmetic, CIDR enumeration, consent lookup |
| `Refresh`, `Health` | sweeps over the inventory graph, health scores |
| `Ca` | key rotation, revocation, serials |
| `Backup`, `Restore`, `ArchitecturalGate` | backup verification, the approval gate and gated restore, the 24-hour approval composed with `Delay` |

Reading conventions. A stretch of code between two `await`s is one step; a schedule is any sequence of steps;
a crash drops memory and keeps the disk. Code that changes fields in place is a class; each of its methods is
proved equal to a step function, and the lemmas are about that function over all runs. Where a function only
computes, a lemma beside it says what it computes without it. `Wrappers` holds the option and result shapes. `dafny verify dfyconfig.toml` checks the whole project.

## Assumptions

- HMAC-SHA256 is an arbitrary function with 64-character results. It cannot be injective, so the tamper
  result concludes "the same log, or two different hashed inputs with one hash".
- `JSON.parse` is any function with the four laws of `AuditChain.FaithfulParser`. The laws about printing speak
  of the values as JavaScript holds them, a parameter `js`: each number with its shortest token, each object with
  its keys in their own order. Other numerals may be read as any number or as infinity. `Json.Decode` is proved to
  have the laws, alone and followed by a reading of numerals.
- A number is its printed token. Sequence numbers are exact up to a parameter `limit` (2^53 - 1 for doubles), and
  a run is no longer than that. Properties of an object are distinct; `toJSON`, sparse arrays and `-0` are
  outside the value type.
- Malformed UTF-8 yields one U+FFFD per byte. WHATWG decoders may yield fewer; no result depends on the count.
- `appendFile` (also to the revocation list), `saveMigrationState` and the writes of delayed actions either happen or do not: no torn record.
- Delayed actions: `cancelDelayedAction` and `fireAction` read, check and persist in one step.
- Migrations: one live run per id, no concurrent `MigrationOrchestrator.cancel`; the id is new at `start`.
- The half-life decay is any function with the laws of `Health.HalfLife`; scores are real numbers, with `NaN` as the
  total that a window of zero can give. Weights are not negative.

## Where the code does not give the stronger form

- `audit verify` throws instead of reporting: on a line that parses to `null`, and on a numbered line with a string
  `hmac` that lacks a signed property or has one that holds infinity, which is how a numeral like `1e999` is
  read. `AuditChain.VerifyThrowsIff` has the exact condition, and `NullLineThrows`, `MissingActorThrows` and
  `OverflowThrows` the inputs. It accepts every prefix of an accepted log (`AuditChain.ChainedPrefix`).
- A last line of 4096 bytes or more leaves the log verifiable, but after a restart no append succeeds again
  (`AuditWriter.WedgedForever`).
- A newcomer can overtake a woken waiter of the semaphore (`Semaphore.NewcomerBreaksBound`); `scan` never has
  newcomers.
- The pool checks its cap before connecting, so `m` concurrent creations can reach `maxConnections - 1 + m`
  (`Pool.CapacityBoundIsTight`), and `getConnection` does not look at the entries again after evicting a stale
  one. A connection is lost exactly when a creation sets its entry over one that the id has got meanwhile
  (`Pool.StepLosesIff`, in every state; `Pool.ResumeLosesIff`, from the resumption, below the cap).
- A delay of 2^31 milliseconds or more fires after one millisecond (`Delay.LongDelayFiresEarly`,
  `Migration.LongDelayIsNotHonoured`), and an earlier timer of the same id resolves a later call's promise. A
  delay is honoured exactly when it fits a timer and no such timer runs (`Delay.HonouredIff`). So an
  architectural approval is confirmed at least 24 hours after the action's first backup check
  (`ArchitecturalGate.ADayPasses`), but a repeated attempt gets 24 hours after its own check exactly when no earlier
  timer of the action is due within them (`ArchitecturalGate.OwnDayIff`).
- Cancelling a pending action settles its caller exactly when the caller's resolver is registered
  (`Delay.CancelSettlesIff`). A cancel between persist and timer leaves the caller waiting in every continuation
  (`Delay.CancelBeforeArmNeverSettles`, `Delay.CancelBeforeArmHangs`).
- Discovery selects a consent by the target's first host only, so the selected consent covers the scan exactly
  when its prefix is no longer than the target's (`Cidr.ConsentCoversScanIff`).
- `markedGone` and the `entity_gone` events: an entity is counted without an event exactly when it is new, or was
  gone before, and is enumerated old enough to be gone; it is reported without being counted exactly when the
  enumeration itself brought it in as gone (`Refresh.MarkedReportedIff`). The two numbers agree exactly when these
  kinds are equally many (`Refresh.MarkedGoneAgainstEvents`), so always when enumerators stamp what they see and
  the threshold is positive (`Refresh.MarkedGoneIsReported`); a threshold of zero is enough for
  `Refresh.NewAndOldGoesUnreported`.
- A rotation that stops between the last rename and the append leaves an old certificate that is neither
  canonical nor revoked (`Ca.InterruptedRotation`).
- A comment in `backup/orchestrator.ts` says that entries with an empty `hmac` are skipped for gating; the code
  makes them candidates, and when it succeeds its result is unsigned exactly when the platform's freshest entry is
  (`Backup.VerifiedSignatureIff`, `Backup.UnsignedEntryIsReturned`). `Backup.UnsignedAreSkippedIff` says exactly when
  the comment holds. `reVerifyEntry` likewise skips an empty `hmac`, an empty checksum and OpenSearch locations;
  `Restore.DryRunPassed` says so.
- A comment in `discovery/refresh.ts` says that an edge is reconciled only if both endpoints belong to succeeded
  platforms; the code looks at the first endpoint that has a platform. `Refresh.EdgeRulesAgreeIff` says on which edges
  the two agree, `Refresh.EdgeIsLeftAsCommentedIff` when a sweep shows the difference.
- The gate of a restore checks the platform's freshest backup and not the entry being restored; the two are the same
  exactly when that entry is the freshest one (`Restore.RestoresCheckedIff`).
- `revokeKeys` and `rotateKey` can throw with the fingerprint already listed
  (`Ca.CertificateManager.RevokeKeys`, `Ca.CertificateManager.RotateKey`).

## Model

| member | source | states |
|---|---|---|
| `Json.RoundTrip` | plugins/autonomous-dev-homelab/src/audit/canonical-json.ts:23-44 | the decoder reads every printed value back unchanged |
| `Json.PrefixFree` | plugins/autonomous-dev-homelab/src/audit/canonical-json.ts:42-58 | a printed string, array or object is never a proper prefix of a printed value |
| `Json.PrintIsClean` | plugins/autonomous-dev-homelab/src/audit/writer.ts:147 | printed text has no raw newline and no unpaired surrogate |
| `CanonicalJson.CanonicalIffSameMeaning` | plugins/autonomous-dev-homelab/src/audit/canonical-json.ts:19-61 | two canonical texts are equal exactly when the values are equal up to property order at every depth |
| `CanonicalJson.CanonicalRoundTrip` | plugins/autonomous-dev-homelab/src/audit/canonical-json.ts:19-61 | decoding a canonical text gives the value back up to property order |
| `CanonicalJson.CanonicalPrefixFree` | plugins/autonomous-dev-homelab/src/audit/canonical-json.ts:19-61 | no canonical string, array or object is a proper prefix of a canonical text |
| `CanonicalJson.SortPermutes` | plugins/autonomous-dev-homelab/src/audit/canonical-json.ts:47 | sorting the keys loses and repeats no property |
| `CanonicalJson.SortDeepSorts` | plugins/autonomous-dev-homelab/src/audit/canonical-json.ts:45-58 | sorting at every depth keeps the meaning and orders every object strictly |
| `CanonicalJson.CanonicalJson` | plugins/autonomous-dev-homelab/src/audit/canonical-json.ts:15-41 | returns the canonical text, or the TypeError exactly for values that are not JSON |
| `CanonicalJson.CanonicalArray` | plugins/autonomous-dev-homelab/src/audit/canonical-json.ts:42-44 | maps and joins the items into the canonical array text, or throws if one cannot be encoded |
| `CanonicalJson.CanonicalObject` | plugins/autonomous-dev-homelab/src/audit/canonical-json.ts:45-59 | the loop over sorted keys builds the canonical object text, or throws if a value cannot be encoded |
| `JsonText.UnitText` | plugins/autonomous-dev-homelab/src/audit/canonical-json.ts:32 | the text of a one-unit string: which units stand raw, which take a short escape, and which `\u` with lower-case digits |
| `JsonText.PairText` | plugins/autonomous-dev-homelab/src/audit/canonical-json.ts:32 | a surrogate pair stands raw |
| `JsonText.ConcatText` | plugins/autonomous-dev-homelab/src/audit/canonical-json.ts:32 | the text of a string is that of its parts, cut anywhere but inside a surrogate pair |
| `JsonText.AtomText` | plugins/autonomous-dev-homelab/src/audit/canonical-json.ts:19-31 | null, booleans, numbers and the empty string, spelled out |
| `JsonText.ArrayText` | plugins/autonomous-dev-homelab/src/audit/canonical-json.ts:42-44 | items in order, commas, brackets, nothing else |
| `JsonText.ObjectText` | plugins/autonomous-dev-homelab/src/audit/canonical-json.ts:45-58 | sorted properties as key, colon and value, commas, braces, nothing else |
| `JsonText.CanonicalIsShortest` | plugins/autonomous-dev-homelab/src/audit/canonical-json.ts:19-61 | no well-paired text that decodes to the same value up to property order is shorter |
| `Texts.LessIff` | plugins/autonomous-dev-homelab/src/audit/canonical-json.ts:47 | the key order is decided at the first differing code unit, a proper prefix coming first |
| `JsonScan.ObjectSuffixIsNotObject` | plugins/autonomous-dev-homelab/src/audit/writer.ts:196-205 | a proper suffix of a printed object never parses as an object |
| `Utf8.Utf8RoundTrip` | plugins/autonomous-dev-homelab/src/audit/writer.ts:150 | encoding well-formed text and decoding it gives the text back |
| `Utf8.UnitBytes` | plugins/autonomous-dev-homelab/src/audit/writer.ts:150 | the bytes of a code unit hold its bits as RFC 3629 says |
| `Utf8.PairBytes` | plugins/autonomous-dev-homelab/src/audit/writer.ts:150 | a surrogate pair takes four bytes that hold its code point |
| `Utf8.DecodeSplitsAtNewline` | plugins/autonomous-dev-homelab/src/audit/writer.ts:190-197 | decoding and cutting at a newline byte commute, even after malformed bytes |
| `Utf8.DecodeFromMiddle` | plugins/autonomous-dev-homelab/src/audit/writer.ts:186-190 | text decoded from the middle of a line is a proper suffix of it or starts with U+FFFD |
| `AuditChain.DecodeIsFaithful` | plugins/autonomous-dev-homelab/src/audit/writer.ts:198-205 | the explicit decoder has every property the proofs ask of the parser, for any choice of values |
| `AuditChain.ReadJsonIsFaithful` | plugins/autonomous-dev-homelab/src/audit/writer.ts:198-205 | a parser that rewrites numerals, overflow to infinity included, has them for the values whose numbers are in shortest form |
| `AuditChain.NatTokenIsInjective` | plugins/autonomous-dev-homelab/src/audit/writer.ts:134 | different sequence numbers have different tokens |
| `AuditChain.NatTokenIsDecimal` | plugins/autonomous-dev-homelab/src/audit/writer.ts:134 | a sequence number is printed in decimal, most significant digit first |
| `AuditChain.EntryProperties` | plugins/autonomous-dev-homelab/src/audit/writer.ts:141-148 | which property of a line holds what, and the order of the properties |
| `AuditChain.SignedProperties` | plugins/autonomous-dev-homelab/src/cli/commands/audit.ts:184-191 | the hash covers exactly six properties of the line |
| `AuditChain.RunAuditVerify` | plugins/autonomous-dev-homelab/src/cli/commands/audit.ts:142-210 | the loop over the lines computes the verdict that `AcceptsExactlyChains`, `VerifyBreaksIff` and `VerifyThrowsIff` characterise |
| `AuditChain.AcceptsExactlyChains` | plugins/autonomous-dev-homelab/src/cli/commands/audit.ts:166-210 | verify accepts exactly the files whose non-empty lines parse to entries numbered 1..n, each hashed over its predecessor |
| `AuditChain.VerifyBreaksIff` | plugins/autonomous-dev-homelab/src/cli/commands/audit.ts:166-204 | verify reports a broken chain, with count, reason and number, exactly when behind lines that form a chain one does not parse or is no entry, has another number, or has an hmac that is not its hash |
| `AuditChain.SameHeadSameLog` | plugins/autonomous-dev-homelab/src/audit/types.ts:78-79 | two chains that end in one hmac have the same length and signed contents, or exhibit a hash collision |
| `AuditChain.TamperEvidence` | plugins/autonomous-dev-homelab/src/cli/commands/audit.ts:166-210 | two accepted logs that end in the same hmac are the same log, or exhibit a hash collision |
| `AuditChain.ChainedPrefix` | plugins/autonomous-dev-homelab/src/cli/commands/audit.ts:166-210 | every prefix of an accepted chain is accepted: truncation does not show |
| `AuditChain.VerifyAcceptsFile` | plugins/autonomous-dev-homelab/src/audit/writer.ts:140-150 | verify accepts the text of every chain the writer builds and counts all its entries |
| `AuditChain.VerifyThrowsIff` | plugins/autonomous-dev-homelab/src/cli/commands/audit.ts:161-199 | verify throws exactly when the first line it does not accept is `null`, or has the expected number and a string hmac and lacks a signed property or has one that is not JSON |
| `AuditChain.NullLineThrows` | plugins/autonomous-dev-homelab/src/cli/commands/audit.ts:161-175 | after any accepted lines a `null` line makes verify throw |
| `AuditChain.MissingActorThrows` | plugins/autonomous-dev-homelab/src/cli/commands/audit.ts:161-199 | after any accepted lines the next number with a string hmac but without an actor makes verify throw |
| `AuditChain.OverflowThrows` | plugins/autonomous-dev-homelab/src/audit/canonical-json.ts:25-29 | after any accepted lines a numbered line whose payload holds a numeral read as infinity makes verify throw |
| `AuditRecovery.RecoverIffLastLineFits` | plugins/autonomous-dev-homelab/src/audit/writer.ts:172-216 | reading only the last 4096 bytes recovers the state of the whole-file fold exactly when the last line with its newline fits |
| `AuditWriter.EveryScheduleVerifies` | plugins/autonomous-dev-homelab/src/audit/writer.ts:102-165 | in every schedule of appends, failures, crashes and restarts verify accepts the file, numbers are 1..n and n counts the successful appends |
| `AuditWriter.AppendSucceedsIff` | plugins/autonomous-dev-homelab/src/audit/writer.ts:119-160 | an undisturbed append succeeds exactly when the payload is JSON and the state is in memory or recoverable, and then records the call under the next number, hashed over its predecessor |
| `AuditWriter.LogFollowsCalls` | plugins/autonomous-dev-homelab/src/audit/writer.ts:102-165 | in every schedule each new entry carries what one call was given, none is recorded twice, and entries stand in call order |
| `AuditWriter.WedgedForever` | plugins/autonomous-dev-homelab/src/audit/writer.ts:120-131 | after a restart behind a line longer than the tail no schedule appends anything |
| `AuditWriter.FreshInv` | plugins/autonomous-dev-homelab/src/audit/writer.ts:179-183 | a missing log satisfies the invariant of every run |
| `AuditWriter.Writer.constructor` | plugins/autonomous-dev-homelab/src/audit/writer.ts:172-183 | a new writer knows no state |
| `AuditWriter.Writer.RecoverState` | plugins/autonomous-dev-homelab/src/audit/writer.ts:172-216 | sets the cached state to what the tail holds, or leaves it and fails |
| `AuditWriter.Writer.Append` | plugins/autonomous-dev-homelab/src/audit/writer.ts:119-160 | one critical section is the corresponding run of the machine; a successful one returns and logs an entry with the call's actor, event, payload, platform and time; a failed one leaves log and file alone |
| `FileMutex.MutualExclusion` | plugins/autonomous-dev-homelab/src/util/file-mutex.ts:24-32 | in every schedule at most one call per path holds the lock and grants follow call order |
| `FileMutex.PathsAreIndependent` | plugins/autonomous-dev-homelab/src/util/file-mutex.ts:21-30 | steps on other paths leave a path alone |
| `FileMutex.RefinesTicketQueue` | plugins/autonomous-dev-homelab/src/util/file-mutex.ts:24-40 | every step of the promise chain is a step of a ticket queue |
| `FileMutex.GrantIsHead` | plugins/autonomous-dev-homelab/src/util/file-mutex.ts:30-31 | only the first waiting call can be granted, and only while nobody holds |
| `FileMutex.QueueIsFifo` | plugins/autonomous-dev-homelab/src/util/file-mutex.ts:24-40 | the requests not yet granted form a first-in-first-out queue: a call joins at the end, and a grant takes the head while nobody holds |
| `FileMutex.HeadWaiterCanProceed` | plugins/autonomous-dev-homelab/src/util/file-mutex.ts:30-40 | when nobody holds a path with waiters its head waiter can proceed without any step of a holder |
| `FileMutex.Mutex.Enter` | plugins/autonomous-dev-homelab/src/util/file-mutex.ts:24-30 | the synchronous part of `acquire` takes the next ticket |
| `FileMutex.Mutex.Continue` | plugins/autonomous-dev-homelab/src/util/file-mutex.ts:31 | after its await the caller is the only holder |
| `FileMutex.Mutex.Release` | plugins/autonomous-dev-homelab/src/util/file-mutex.ts:32-40 | the release function ends the caller's hold and no other |
| `LockedStore.EveryScheduleIsSerial` | plugins/autonomous-dev-homelab/src/discovery/graph-store.ts:162-200 | in every schedule the file is the fold of the successful operations in lock-grant order, and each operation ended as it would have serially |
| `LockedStore.ReadsArePrefixes` | plugins/autonomous-dev-homelab/src/discovery/graph-store.ts:86-147 | a lock-free read returns the state after a prefix of that order, which later writes only extend |
| `LockedStore.PropertyHoldsInEverySchedule` | plugins/autonomous-dev-homelab/src/discovery/inventory.ts:51-123 | a property kept by each single operation holds of the file in every schedule |
| `Stores.UpsertIsMapUpdate` | plugins/autonomous-dev-homelab/src/discovery/graph-store.ts:162-172 | an upsert merges at its id, leaves every other id and deletes nothing |
| `Stores.UpsertedEntity` | plugins/autonomous-dev-homelab/src/discovery/graph-store.ts:162-172 | the stored entity has the new properties, keeps the old platform where none is given, and its place |
| `Stores.UpsertedEdge` | plugins/autonomous-dev-homelab/src/discovery/graph-store.ts:186-196 | the stored edge has the new properties and keeps the old attributes where none are given |
| `Stores.GraphIdsStayUnique` | plugins/autonomous-dev-homelab/src/discovery/graph-store.ts:162-200 | entity and edge ids stay unique in every schedule of upserts, failures and crashes |
| `Stores.GraphStore.Upsert` | plugins/autonomous-dev-homelab/src/discovery/graph-store.ts:162-176 | writes the merged document, or leaves it when the write fails |
| `Stores.GraphStore.UpsertLink` | plugins/autonomous-dev-homelab/src/discovery/graph-store.ts:186-200 | the same for edges |
| `Stores.AddInserts` | plugins/autonomous-dev-homelab/src/discovery/inventory.ts:51-69 | adding inserts a new id and throws for a known one; every other id keeps its platform |
| `Stores.UpdateReplaces` | plugins/autonomous-dev-homelab/src/discovery/inventory.ts:76-98 | updating patches a known id and throws for an unknown one; every other id keeps its platform |
| `Stores.UpdatedPlatform` | plugins/autonomous-dev-homelab/src/discovery/inventory.ts:76-98 | an update keeps id and discovery time and takes patch or present |
| `Stores.RemoveDeletes` | plugins/autonomous-dev-homelab/src/discovery/inventory.ts:112-123 | removing deletes a known id and leaves the file alone for an unknown one; every other id keeps its platform |
| `Stores.InventoryIdsStayUnique` | plugins/autonomous-dev-homelab/src/discovery/inventory.ts:51-123 | platform ids stay unique in every schedule |
| `Stores.InventoryManager.AddPlatform` | plugins/autonomous-dev-homelab/src/discovery/inventory.ts:51-69 | rejects a duplicate id, otherwise appends; a failed write changes nothing |
| `Stores.InventoryManager.UpdatePlatform` | plugins/autonomous-dev-homelab/src/discovery/inventory.ts:76-98 | rejects an unknown id, otherwise merges in place |
| `Stores.InventoryManager.RemovePlatform` | plugins/autonomous-dev-homelab/src/discovery/inventory.ts:112-123 | deletes the platform, and does not rewrite the file when it is absent |
| `Stores.GrantGoesLast` | plugins/autonomous-dev-homelab/src/consent/manager.ts:205-246 | a grant goes to the end of the file and leaves the others |
| `Stores.WithoutRemovesExactly` | plugins/autonomous-dev-homelab/src/consent/manager.ts:252-264 | a revocation removes every entry of the CIDR and no other |
| `Stores.RevokedStaysRevoked` | plugins/autonomous-dev-homelab/src/consent/manager.ts:247-277 | once revoked, a CIDR has no consent in any later state until it is granted again |
| `Stores.ManifestListsEveryAppend` | plugins/autonomous-dev-homelab/src/backup/manifest-io.ts:78-94 | the manifest lists exactly the successful appends in grant order |
| `AtomicWrite.CrashConsistent` | plugins/autonomous-dev-homelab/src/util/atomic-write.ts:28-69 | at every crash or failure point the target holds its old or the complete new contents; a throw leaves it unchanged; no other file but the temp file changes |
| `AtomicWrite.FileSystem.AtomicWriteFile` | plugins/autonomous-dev-homelab/src/util/atomic-write.ts:39-68 | succeeds exactly when every effect does, and then only the target has changed |
| `Semaphore.ScanIsBoundedAndComplete` | plugins/autonomous-dev-homelab/src/discovery/prober.ts:137-159 | in every wake-up order of a scan permits in use and promised stay within the limit, the order is finite, and at its end every job has had exactly one permit |
| `Semaphore.StepKeepsBoundIff` | plugins/autonomous-dev-homelab/src/discovery/prober.ts:97-113 | a step keeps the bound exactly when it is not a newcomer overtaking a woken waiter |
| `Semaphore.NewcomerBreaksBound` | plugins/autonomous-dev-homelab/src/discovery/prober.ts:97-113 | one late arrival gives two probes under a limit of one |
| `Semaphore.NoPermitNoProgress` | plugins/autonomous-dev-homelab/src/discovery/prober.ts:98-104 | with a limit of zero no job ever starts |
| `Semaphore.WakesFirstArrival` | plugins/autonomous-dev-homelab/src/discovery/prober.ts:109-113 | a release wakes the waiting job that arrived first and changes no other |
| `Semaphore.Sem.Acquire` | plugins/autonomous-dev-homelab/src/discovery/prober.ts:97-104 | takes a permit at once exactly when one is free, else queues |
| `Semaphore.Sem.Continue` | plugins/autonomous-dev-homelab/src/discovery/prober.ts:102-106 | a woken waiter takes its permit without checking again |
| `Semaphore.Sem.Release` | plugins/autonomous-dev-homelab/src/discovery/prober.ts:109-113 | frees the permit and wakes the first waiter |
| `Pool.EverySchedule` | plugins/autonomous-dev-homelab/src/connection/pool.ts:74-95 | at most one creation per id at a time; every opened connection is in the pool, disconnected or lost, exactly one of these; only opened connections are handed out |
| `Pool.CapacityBound` | plugins/autonomous-dev-homelab/src/connection/pool.ts:153-181 | size plus creations past the check stays within `maxConnections - 1 + m` for `m` concurrent creations; one at a time keeps the cap |
| `Pool.CapacityBoundIsTight` | plugins/autonomous-dev-homelab/src/connection/pool.ts:153-181 | for every cap and `m` a schedule reaches that bound |
| `Pool.CachedHandOut` | plugins/autonomous-dev-homelab/src/connection/pool.ts:74-79 | a call is answered from the cache exactly for an entry within the idle timeout, with that entry's connection, and stamps it |
| `Pool.StartEvictsLeastRecent` | plugins/autonomous-dev-homelab/src/connection/pool.ts:74-89 | a starting call takes another id's entry exactly when its id has none, nothing is in flight for it and the pool is full, and then the least recently used one; it takes its own exactly when that is stale |
| `Pool.ResumeEvictsLeastRecent` | plugins/autonomous-dev-homelab/src/connection/pool.ts:153-159 | the same when a call goes on after its stale entry is disconnected |
| `Pool.EntriesAreStamped` | plugins/autonomous-dev-homelab/src/connection/pool.ts:74-181 | each entry after a step is an old one or carries the present as its last use |
| `Pool.ReapEvictsIff` | plugins/autonomous-dev-homelab/src/connection/pool.ts:138-151 | the reaper takes an entry exactly when it has been idle for longer than the timeout |
| `Pool.CloseEvicts` | plugins/autonomous-dev-homelab/src/connection/pool.ts:106-121 | closing takes each entry away and disconnects it |
| `Pool.OneIdPerConnection` | plugins/autonomous-dev-homelab/src/connection/pool.ts:74-95 | calls that end with one connection have asked for one id, and entries with it are that id's, in every schedule |
| `Pool.JoinersShareTheOutcome` | plugins/autonomous-dev-homelab/src/connection/pool.ts:84-95 | a call that joins a creation ends with the creator's connection or exception |
| `Pool.ResumeLosesIff` | plugins/autonomous-dev-homelab/src/connection/pool.ts:80-88 | below the cap and with nothing in flight for the id, a call that resumes after evicting and connects loses a connection exactly when the id has been set meanwhile |
| `Pool.StepLosesIff` | plugins/autonomous-dev-homelab/src/connection/pool.ts:181 | in every state a step loses a connection exactly when a creation sets its entry over one the id has got meanwhile, and then that one |
| `Pool.CarefulRunsLoseNothing` | plugins/autonomous-dev-homelab/src/connection/pool.ts:80-88 | without that oversight nothing is lost in any schedule |
| `Pool.SerialUse` | plugins/autonomous-dev-homelab/src/connection/pool.ts:74-95 | serial use keeps the cap, and every opened connection is pooled or disconnected |
| `Pool.TwoCallersLoseOne` | plugins/autonomous-dev-homelab/src/connection/pool.ts:80-93 | a schedule of two callers that loses a connection |
| `Pool.Oldest` | plugins/autonomous-dev-homelab/src/connection/pool.ts:265-273 | the victim is the first entry with the least `lastUsedAt` |
| `Pool.ReapedAll` | plugins/autonomous-dev-homelab/src/connection/pool.ts:138-147 | an uninterrupted reap leaves exactly the fresh entries and disconnects the others |
| `Pool.KeptIsTheFreshOnes` | plugins/autonomous-dev-homelab/src/connection/pool.ts:138-151 | the entries kept are those within the idle timeout |
| `Pool.ConnectionPool.Find` | plugins/autonomous-dev-homelab/src/connection/pool.ts:75 | finds the entry of an id |
| `Pool.ConnectionPool.FindOldest` | plugins/autonomous-dev-homelab/src/connection/pool.ts:265-273 | the scan returns the first entry with the least `lastUsedAt`, or none for an empty pool |
| `Pool.ConnectionPool.Evict` | plugins/autonomous-dev-homelab/src/connection/pool.ts:240-245 | takes exactly the entry out of the pool and disconnects it, losing nothing |
| `Pool.ConnectionPool.GetConnection` | plugins/autonomous-dev-homelab/src/connection/pool.ts:74-89 | the first stretch of a call; a returned connection is pooled and not disconnected |
| `Pool.ConnectionPool.CreateOrJoin` | plugins/autonomous-dev-homelab/src/connection/pool.ts:84-89 | joins a creation in flight, or starts one, evicting the least recently used entry if the pool is full (`StartEvictsLeastRecent`) |
| `Pool.ConnectionPool.AfterEvict` | plugins/autonomous-dev-homelab/src/connection/pool.ts:82-89 | the stretch after a stale eviction |
| `Pool.ConnectionPool.AfterMakingRoom` | plugins/autonomous-dev-homelab/src/connection/pool.ts:155-159 | the stretch after the LRU victim is disconnected |
| `Pool.ConnectionPool.AfterConnect` | plugins/autonomous-dev-homelab/src/connection/pool.ts:181 | sets the entry, overwriting one that is there |
| `Pool.ConnectionPool.AfterSettle` | plugins/autonomous-dev-homelab/src/connection/pool.ts:90-94 | settles the promise and clears `inflight` |
| `Pool.ConnectionPool.Release` | plugins/autonomous-dev-homelab/src/connection/pool.ts:97-104 | stamps the entry |
| `Pool.ConnectionPool.ReapOne` | plugins/autonomous-dev-homelab/src/connection/pool.ts:140-146 | evicts a stale entry, keeps a fresh one |
| `Pool.ConnectionPool.ReapIdle` | plugins/autonomous-dev-homelab/src/connection/pool.ts:138-147 | the loop equals one reap step per entry of the snapshot |
| `Delay.SettlesAtMostOnce` | plugins/autonomous-dev-homelab/src/safety/delay.ts:68-75 | in every run, with crashes and rescheduling, a promise settles at most once |
| `Delay.TerminalStatesAbsorb` | plugins/autonomous-dev-homelab/src/safety/delay.ts:83-158 | with each id scheduled once, cancelled and fired are final, the moment never changes and nothing fires before it |
| `Delay.ReloadRestoresAll` | plugins/autonomous-dev-homelab/src/safety/delay.ts:113-144 | after a reload every pending record is returned as past due or has a timer for exactly its original moment |
| `Delay.WrittenIsWatched` | plugins/autonomous-dev-homelab/src/safety/delay.ts:55-76 | until a crash every written pending record has its call under way or a timer |
| `Delay.ScheduledMoment` | plugins/autonomous-dev-homelab/src/safety/delay.ts:55-66 | the moment is the time of the call plus the delay |
| `Delay.ArmedTimer` | plugins/autonomous-dev-homelab/src/safety/delay.ts:68-75 | the timer is due exactly the delay after it is made, or one millisecond if that does not fit 31 bits |
| `Delay.CancelledTimer` | plugins/autonomous-dev-homelab/src/safety/delay.ts:83-99 | cancelling removes the live timer of a pending action and no other |
| `Delay.StepKeepsNotBefore` | plugins/autonomous-dev-homelab/src/safety/delay.ts:55-144 | rescheduling, crashing and reloading never bring an id's moment forward |
| `Delay.HonouredIff` | plugins/autonomous-dev-homelab/src/safety/delay.ts:55-76 | however a process goes on, a delay is honoured exactly when it fits a timer and no earlier timer of the id still runs; one that is not positive always is |
| `Delay.LongDelayFiresEarly` | plugins/autonomous-dev-homelab/src/safety/delay.ts:71-73 | every delay above 2^31-1 ms can fire after one millisecond |
| `Delay.CancelSettlesIff` | plugins/autonomous-dev-homelab/src/safety/delay.ts:83-99 | in every reachable state with each id scheduled once, cancelling a pending action settles its caller exactly when the resolver is registered |
| `Delay.CancelBeforeArmNeverSettles` | plugins/autonomous-dev-homelab/src/safety/delay.ts:66-99 | after a cancel between persist and timer the promise stays unsettled in every continuation, with crashes and reloads |
| `Delay.CancelBeforeArmHangs` | plugins/autonomous-dev-homelab/src/safety/delay.ts:66-99 | a literal schedule in which this happens |
| `Delay.StepKeepsSafe` | plugins/autonomous-dev-homelab/src/safety/delay.ts:55-158 | while the process lives every pending record on disk has its call under way, a timer, a place in the returned list, or is still to be loaded |
| `Delay.Daemon.Begin` | plugins/autonomous-dev-homelab/src/safety/delay.ts:55-66 | fixes the moment before the record is written |
| `Delay.Daemon.Persist` | plugins/autonomous-dev-homelab/src/safety/delay.ts:160-165 | puts the pending record on disk |
| `Delay.Daemon.SetTimeout` | plugins/autonomous-dev-homelab/src/safety/delay.ts:68-75 | registers promise and timer after the record is written |
| `Delay.Daemon.FireAction` | plugins/autonomous-dev-homelab/src/safety/delay.ts:146-158 | fires a pending record and resolves its promise; anything else is left alone; no other pending record is forgotten |
| `Delay.Daemon.CancelAction` | plugins/autonomous-dev-homelab/src/safety/delay.ts:83-99 | cancels a pending record, clears its timer and rejects its promise |
| `Delay.Daemon.LoadOne` | plugins/autonomous-dev-homelab/src/safety/delay.ts:129-141 | one record: ignored, returned past due or put on a timer |
| `Delay.Daemon.LoadPendingActions` | plugins/autonomous-dev-homelab/src/safety/delay.ts:113-144 | the loop restores every pending record of the listed files, in order; from any state a crash can leave no pending record is forgotten |
| `Migration.ExecuteIsGuarded` | plugins/autonomous-dev-homelab/src/migration/orchestrator.ts:98-146 | in every run with crashes and resumes `execute` is called only after a backup verification, the approval delay counted from the first entry of its phase, and a later CONFIRM |
| `Migration.SavedProgressIsKept` | plugins/autonomous-dev-homelab/src/migration/orchestrator.ts:31-50 | an in-flight state on disk with index k has phases 0..k-1 complete; a phase is entered again only if its completion was never saved; the loop never runs off the end |
| `Migration.RunTerminates` | plugins/autonomous-dev-homelab/src/migration/orchestrator.ts:75-96 | a live run ends within a fixed number of awaits however they go, and finishes if all succeed |
| `Migration.LongDelayIsNotHonoured` | plugins/autonomous-dev-homelab/src/migration/orchestrator.ts:118-122 | an approval delay above 2^31-1 ms lets `execute` run one millisecond after the phase is entered |
| `Migration.Orchestrator.Run` | plugins/autonomous-dev-homelab/src/migration/orchestrator.ts:75-96 | the loop follows the machine to its end and never returns an in-flight state |
| `Migration.Orchestrator.RunPhase` | plugins/autonomous-dev-homelab/src/migration/orchestrator.ts:98-152 | one phase: entered and saved, worked, left and saved, or failed |
| `Migration.Orchestrator.Save` | plugins/autonomous-dev-homelab/src/migration/orchestrator.ts:103 | writes the state or fails without writing |
| `Migration.Orchestrator.Start` | plugins/autonomous-dev-homelab/src/migration/orchestrator.ts:31-39 | a start that does not throw leaves the finished migration on disk |
| `Migration.Orchestrator.Resume` | plugins/autonomous-dev-homelab/src/migration/orchestrator.ts:46-50 | a terminal state is returned unchanged; an in-flight one is run |
| `Words.MaskRoundsDown` | plugins/autonomous-dev-homelab/src/discovery/cidr.ts:30-32 | masking rounds an address down to its block |
| `Words.OrDisjoint` | plugins/autonomous-dev-homelab/src/discovery/cidr.ts:28 | joining words without a common bit adds them |
| `Words.BlocksNest` | plugins/autonomous-dev-homelab/src/consent/manager.ts:137-145 | the block of a longer prefix lies within the block of a shorter one |
| `Cidr.ParsePrintedIp` | plugins/autonomous-dev-homelab/src/discovery/cidr.ts:12-15 | every 32-bit address survives printing and parsing |
| `Cidr.PrintParsedIp` | plugins/autonomous-dev-homelab/src/consent/manager.ts:128-135 | printing a parsed address gives the text back exactly when no octet has a leading zero |
| `Cidr.QuadIs` | plugins/autonomous-dev-homelab/src/discovery/cidr.ts:12-29 | a dotted quad stands for its four bytes, highest first, and is what that number prints as |
| `Cidr.CidrIs` | plugins/autonomous-dev-homelab/src/consent/manager.ts:111-126 | address, slash and prefix length stand for the block in which the address lies |
| `Cidr.ParsersAgree` | plugins/autonomous-dev-homelab/src/consent/manager.ts:111-126 | the two CIDR readers accept the same texts with the same meaning, except prefix lengths with a leading zero |
| `Cidr.InCidrIff` | plugins/autonomous-dev-homelab/src/consent/manager.ts:137-145 | an address passes `ipInCidr` exactly when it lies in the block |
| `Cidr.BroadcastAddress` | plugins/autonomous-dev-homelab/src/discovery/cidr.ts:34 | `network | ~mask` is the last address of the block |
| `Cidr.HostsExactly` | plugins/autonomous-dev-homelab/src/discovery/cidr.ts:36-49 | the hosts strictly increase, number 2^(32-p)-2, two or one, and are exactly the usable addresses of the block |
| `Cidr.EnumerateHosts` | plugins/autonomous-dev-homelab/src/discovery/cidr.ts:17-50 | succeeds exactly for a valid CIDR and yields its hosts |
| `Cidr.YieldHosts` | plugins/autonomous-dev-homelab/src/discovery/cidr.ts:36-49 | the three cases of the generator yield the hosts of the block |
| `Cidr.CountUp` | plugins/autonomous-dev-homelab/src/discovery/cidr.ts:47-49 | the counting loop lists the addresses of a range |
| `Cidr.FirstHostIs` | plugins/autonomous-dev-homelab/src/cli/commands/discover.ts:114-131 | the looked-up address is the second of the target's block, is enumerated, and is covered by a consent for the target |
| `Cidr.HostsAreInTheTarget` | plugins/autonomous-dev-homelab/src/consent/manager.ts:137-145 | every enumerated host passes `ipInCidr` for the target |
| `Cidr.ConsentCoversScanIff` | plugins/autonomous-dev-homelab/src/cli/commands/discover.ts:269-272 | a consent that contains the first host covers every enumerated host exactly when its prefix is no longer than the target's |
| `Cidr.FirstGrant` | plugins/autonomous-dev-homelab/src/consent/manager.ts:178-197 | the loop returns the first entry in file order that contains the address, is unexpired and fits the network |
| `Cidr.SelectConsent` | plugins/autonomous-dev-homelab/src/cli/commands/discover.ts:269-272 | the selected consent allows every probed host exactly when its prefix is no longer than the target's |
| `Refresh.JudgeIsWorse` | plugins/autonomous-dev-homelab/src/discovery/refresh.ts:266-288 | on a succeeded platform a status becomes the worse of itself and what its age calls for |
| `Refresh.ReconciledEntity` | plugins/autonomous-dev-homelab/src/discovery/refresh.ts:266-288 | gone and stale by the thresholds, spelled out; other platforms and fields stay |
| `Refresh.ReconciledEdge` | plugins/autonomous-dev-homelab/src/discovery/refresh.ts:290-311 | the same for edges, by source or else target |
| `Refresh.ReconciliationIsLocal` | plugins/autonomous-dev-homelab/src/discovery/refresh.ts:266-288 | reconciliation touches only statuses, only on succeeded platforms, and never improves one |
| `Refresh.NothingIsDeleted` | plugins/autonomous-dev-homelab/src/discovery/refresh.ts:222-311 | over any sequence of sweeps no entity or edge disappears and ids stay unique |
| `Refresh.UnseenEntityAges` | plugins/autonomous-dev-homelab/src/discovery/refresh.ts:257-288 | under a non-decreasing clock an entity never seen again has exactly the status its age at the last sweep of its platform calls for, all other fields unchanged |
| `Refresh.UpsertAllFinds` | plugins/autonomous-dev-homelab/src/discovery/deep-enumerator.ts:206-221 | enumeration shows an upserted id as one of its upserts and leaves every other entity |
| `Refresh.UpsertAllLast` | plugins/autonomous-dev-homelab/src/discovery/deep-enumerator.ts:206-221 | the last upsert of an id wins, except that an absent platform stays |
| `Refresh.EdgeRulesAgreeIff` | plugins/autonomous-dev-homelab/src/discovery/refresh.ts:291-300 | the code reconciles every edge whose endpoints both belong to succeeded platforms, and only those exactly under a condition on the endpoints' platforms |
| `Refresh.EdgeIsLeftAsCommentedIff` | plugins/autonomous-dev-homelab/src/discovery/refresh.ts:291-310 | a sweep leaves an edge as that rule would exactly when the rules agree on it or its age calls for nothing worse than its status |
| `Refresh.DiffExactly` | plugins/autonomous-dev-homelab/src/discovery/refresh.ts:390-450 | each drift event is reported exactly when its entity shows it; `entity_gone` exactly for known entities of succeeded platforms that became gone |
| `Refresh.EventsAreDistinct` | plugins/autonomous-dev-homelab/src/discovery/refresh.ts:390-450 | no event is reported twice |
| `Refresh.TransitionsAreCounted` | plugins/autonomous-dev-homelab/src/discovery/refresh.ts:278-286 | a counter is the number of places that changed to the status |
| `Refresh.UnseenEdgeAges` | plugins/autonomous-dev-homelab/src/discovery/refresh.ts:290-311 | the same for an edge, whose platform is looked up through its endpoints at each sweep |
| `Refresh.MarkedReportedIff` | plugins/autonomous-dev-homelab/src/discovery/refresh.ts:278-280 | an entity is counted without an event exactly when it is new or was gone and is old enough, and reported without being counted exactly when enumeration brought it in gone |
| `Refresh.MarkedGoneAgainstEvents` | plugins/autonomous-dev-homelab/src/discovery/refresh.ts:278-280 | `markedGone` and the number of `entity_gone` events are equal exactly when those two kinds are equally many, and differ by exactly their difference |
| `Refresh.MarkedGoneIsReported` | plugins/autonomous-dev-homelab/src/discovery/refresh.ts:278-280 | with stamped enumerations `markedGone` is the number of `entity_gone` events |
| `Refresh.NewAndOldGoesUnreported` | plugins/autonomous-dev-homelab/src/discovery/refresh.ts:278-280 | an entity found for the first time and old enough is counted without an event |
| `Refresh.PartialSweepIsLocal` | plugins/autonomous-dev-homelab/src/discovery/refresh.ts:263-311 | a sweep that throws half-way has deleted nothing, touched only statuses of succeeded platforms, and improved none |
| `Refresh.RefreshEngine.Enumerate` | plugins/autonomous-dev-homelab/src/discovery/refresh.ts:240-246 | upserts the reports of the succeeded platforms in order, skipping the upserts that fail |
| `Refresh.RefreshEngine.ReconcileEntity` | plugins/autonomous-dev-homelab/src/discovery/refresh.ts:266-288 | at most one upsert, which sets the judged status or throws |
| `Refresh.RefreshEngine.ReconcileEntities` | plugins/autonomous-dev-homelab/src/discovery/refresh.ts:263-288 | every entity is judged in place, and both counters equal the transitions |
| `Refresh.RefreshEngine.ReconcileEdge` | plugins/autonomous-dev-homelab/src/discovery/refresh.ts:291-310 | one edge is judged by the platform of its first endpoint that has one |
| `Refresh.RefreshEngine.ReconcileEdges` | plugins/autonomous-dev-homelab/src/discovery/refresh.ts:290-311 | every edge is judged in place |
| `Refresh.RefreshEngine.ComputeDiff` | plugins/autonomous-dev-homelab/src/discovery/refresh.ts:390-450 | the loop builds the diff in the order of the final graph |
| `Refresh.RefreshEngine.Sweep` | plugins/autonomous-dev-homelab/src/discovery/refresh.ts:222-371 | one sweep: the reconciled enumeration, exact counters, the diff against the prior graph; it throws exactly when a failing upsert is one that is made |
| `Refresh.RefreshEngine.Reconcile` | plugins/autonomous-dev-homelab/src/discovery/refresh.ts:256-311 | entities, then edges; a failing upsert leaves the ones before it judged |
| `Ca.CanonicalIsNotRevoked` | plugins/autonomous-dev-homelab/src/ca/manager.ts:239-434 | at every failure and crash point the canonical certificate is not listed as revoked unless it was revoked by hand |
| `Ca.RevocationsOnlyGrow` | plugins/autonomous-dev-homelab/src/ca/manager.ts:250-255 | the revocation list only grows |
| `Ca.PhaseTwoTouchesNothing` | plugins/autonomous-dev-homelab/src/ca/manager.ts:344-379 | until phase 2 is over a failure leaves all canonical files as they were |
| `Ca.InterruptedRotation` | plugins/autonomous-dev-homelab/src/ca/manager.ts:384-405 | a completed rotation installs the new key and lists the old one; an old certificate is left unlisted exactly by a stop between the last rename and the append |
| `Ca.SerialsIncrease` | plugins/autonomous-dev-homelab/src/ca/manager.ts:492-510 | serials handed out over any run with crashes strictly increase |
| `Ca.CertificateManager.NextSerial` | plugins/autonomous-dev-homelab/src/ca/manager.ts:492-510 | hands out the counter, greater than every serial before, and writes its successor; a failed write leaves the counter, a failed chmod loses the serial |
| `Ca.CertificateManager.RevokeKeys` | plugins/autonomous-dev-homelab/src/ca/manager.ts:239-269 | lists the certificate's fingerprint, or fails without a certificate; a failure after the append leaves it listed |
| `Ca.CertificateManager.RotateKey` | plugins/autonomous-dev-homelab/src/ca/manager.ts:322-434 | a rotation whose n-th effect fails, also one after the append, leaves exactly the state after n effects, with the error of that phase |
| `Ca.CertificateManager.MakePending` | plugins/autonomous-dev-homelab/src/ca/manager.ts:344-379 | phases 1 and 2: a pending key, a serial, a pending certificate |
| `Ca.CertificateManager.Rename` | plugins/autonomous-dev-homelab/src/ca/manager.ts:384-400 | the three renames up to the failing one |
| `Ca.CertificateManager.Install` | plugins/autonomous-dev-homelab/src/ca/manager.ts:384-405 | three renames, then the append |
| `Backup.SortedHead` | plugins/autonomous-dev-homelab/src/backup/orchestrator.ts:92-94 | the head of the sort is the first of the freshest entries |
| `Backup.SortedPermutes` | plugins/autonomous-dev-homelab/src/backup/orchestrator.ts:92-94 | the sort loses and repeats no entry |
| `Backup.VerifyBackup` | plugins/autonomous-dev-homelab/src/backup/orchestrator.ts:74-111 | succeeds with the first freshest entry of the platform when it is within its limit, and fails as tampered, missing or stale exactly when it should |
| `Backup.VerifiedWithinLimit` | plugins/autonomous-dev-homelab/src/backup/orchestrator.ts:98-109 | the age limit is the caller's for the platform, else the entry's, else the platform's default, else a day |
| `Backup.Collect` | plugins/autonomous-dev-homelab/src/backup/orchestrator.ts:79-88 | collects the platform's entries, or stops exactly at an entry that does not verify |
| `Backup.VerifiedSignatureIff` | plugins/autonomous-dev-homelab/src/backup/orchestrator.ts:80-88 | when the check succeeds its result carries a verified signature exactly when the freshest entry of the platform is signed |
| `Backup.UnsignedAreSkippedIff` | plugins/autonomous-dev-homelab/src/backup/orchestrator.ts:80-88 | the check answers as if unsigned entries were absent exactly when an entry does not verify, the platform has none, its freshest is signed, or that one and the freshest signed one are too old |
| `Backup.UnsignedEntryIsReturned` | plugins/autonomous-dev-homelab/src/backup/orchestrator.ts:80-110 | in any manifest that verifies, an unsigned entry newer than the platform's others is returned |
| `Restore.Session.RunBackupCheck` | plugins/autonomous-dev-homelab/src/safety/gate.ts:218-242 | passes only with an acceptable backup or an audited admin bypass |
| `Restore.Session.ConfirmAndRecord` | plugins/autonomous-dev-homelab/src/safety/gate.ts:107-132 | approves only after CONFIRM and a recorded `gate.allowed` |
| `Restore.Session.GateApproval` | plugins/autonomous-dev-homelab/src/safety/gate.ts:49-84 | approves exactly with the ordered events of the action's kind, and never records `gate.allowed` otherwise |
| `Restore.ApprovalMeans` | plugins/autonomous-dev-homelab/src/safety/gate.ts:49-208 | what stands where in an approval of each kind: check or bypass, delay, CONFIRM, `gate.allowed` last |
| `Restore.Session.DataAffectingApproval` | plugins/autonomous-dev-homelab/src/safety/gate.ts:134-164 | check, CONFIRM, `gate.allowed` |
| `Restore.Session.ArchitecturalApproval` | plugins/autonomous-dev-homelab/src/safety/gate.ts:166-208 | check, delay, CONFIRM, `gate.allowed` in order; a missing report fails first; times are in `ArchitecturalGate` |
| `ArchitecturalGate.ADayPasses` | plugins/autonomous-dev-homelab/src/safety/gate.ts:166-208 | in every run with crashes, reloads, cancellations and repeated attempts an approval has its events in order, and CONFIRM comes 24 hours or more after the first backup check passed for the action |
| `ArchitecturalGate.OwnDayIff` | plugins/autonomous-dev-homelab/src/safety/gate.ts:178-186 | an attempt, also a repeated one, gets the 24 hours after its own backup check exactly when no earlier timer of the action is due within them |
| `Restore.Session.DryRun` | plugins/autonomous-dev-homelab/src/backup/restore.ts:304-360 | passes exactly when both probes succeed and signature and checksum verify |
| `Restore.DryRunMeans` | plugins/autonomous-dev-homelab/src/backup/restore.ts:304-360 | the probes in order, and the checksum exactly for an entry that has one outside OpenSearch |
| `Restore.Session.ExecRestore` | plugins/autonomous-dev-homelab/src/backup/restore.ts:374-454 | runs the platform's commands in order up to the first failure |
| `Restore.Session.RunRestore` | plugins/autonomous-dev-homelab/src/backup/restore.ts:502-541 | every restore command follows, in order, a passing dry run, a clearance, CONFIRM and `gate.allowed`; a dry run issues none |
| `Restore.RestoresCheckedIff` | plugins/autonomous-dev-homelab/src/backup/restore.ts:522-537 | without the bypass a restore command acts on the backup the gate has checked exactly when the entry is the freshest of its platform in the manifest |
| `Health.ScoreIsBounded` | plugins/autonomous-dev-homelab/src/observability/health.ts:295-296 | the score is a number between 0 and 100, whatever the window |
| `Health.ZeroWindowIgnoresObservations` | plugins/autonomous-dev-homelab/src/observability/health.ts:271-293 | with a window of zero the observations take nothing off, though their total may be `NaN` |
| `Health.ObservationNeverHelps` | plugins/autonomous-dev-homelab/src/observability/health.ts:271-293 | one more observation never raises the score |
| `Health.ReplicaLossNeverHelps` | plugins/autonomous-dev-homelab/src/observability/health.ts:251-269 | losing a replica never raises the score |
| `Health.AgeingNeverHurts` | plugins/autonomous-dev-homelab/src/observability/health.ts:274-283 | with fixed observations the score never falls as time passes; with a negative window it never rises, with a window of zero it stays |
| `Health.StatusScores` | plugins/autonomous-dev-homelab/src/observability/health.ts:75-78 | active, stale and gone alone score 100, 80 and 40 |
| `Health.ObservationScores` | plugins/autonomous-dev-homelab/src/observability/health.ts:273-293 | a fresh observation takes off the weight of its severity, half of it at one window's age, up to the cap and down to zero |
| `Health.ReplicaScores` | plugins/autonomous-dev-homelab/src/observability/health.ts:251-269 | a missing share of the replicas takes off that share of the replica weight |
| `Health.PenaltiesAdd` | plugins/autonomous-dev-homelab/src/observability/health.ts:239-296 | the three penalties add up |
| `Health.ObservationsAdd` | plugins/autonomous-dev-homelab/src/observability/health.ts:273-293 | observations add up within the cap |
| `Health.GradeIs` | plugins/autonomous-dev-homelab/src/observability/health.ts:298-306 | healthy from 80, degraded from 50 |
| `Health.WorseStatusWorseGrade` | plugins/autonomous-dev-homelab/src/observability/health.ts:242-249 | gone never scores above stale, nor stale above active, and grades follow |
| `Health.GradeIsMonotone` | plugins/autonomous-dev-homelab/src/observability/health.ts:298-306 | the grade follows the score |
| `Health.IndexIsFilter` | plugins/autonomous-dev-homelab/src/observability/health.ts:429-461 | an entity's indexed list holds each observation the plain filter keeps, exactly as often, and scores the same |
| `Health.ComputeHealthScore` | plugins/autonomous-dev-homelab/src/observability/health.ts:224-309 | computes the score and grade characterised above; each penalty has its reason, and there is none exactly for a full score |
| `Health.Combine` | plugins/autonomous-dev-homelab/src/observability/health.ts:239-308 | the running score with its reasons, from the three penalties; a `NaN` total takes nothing off |
| `Health.SumPenalties` | plugins/autonomous-dev-homelab/src/observability/health.ts:273-283 | the loop adds the decayed weights; a fresh observation under a window of zero makes the total `NaN` |
| `Health.BuildIndex` | plugins/autonomous-dev-homelab/src/observability/health.ts:430-438 | every resource maps to its observations in order |
| `Health.CollectFor` | plugins/autonomous-dev-homelab/src/observability/health.ts:448-461 | direct matches, then kind/name matches that are not yet in the list |
| `Health.ScoredSetsTwo` | plugins/autonomous-dev-homelab/src/observability/health.ts:471-481 | scoring sets the two attributes with the default weights and leaves everything else |
| `Health.WindowIs` | plugins/autonomous-dev-homelab/src/observability/health.ts:170-177 | a window is a number of minutes, hours or days |
| `Health.HealthScorer.ScoreOne` | plugins/autonomous-dev-homelab/src/observability/health.ts:441-480 | one entity is scored and written back; a failed write is skipped |
| `Health.HealthScorer.ScoreAll` | plugins/autonomous-dev-homelab/src/observability/health.ts:404-480 | for any windows, every entity whose write succeeds carries the score of the plain filter, the others are unchanged, and the successes are counted |

## Left out

- Cryptography, `ssh-keygen`, YAML, schema and date parsing: parsed, well-formed values are assumed.
- Network and shell code, and the text of restore commands: a command is its position in the platform's list.
- CLI output, portal, runbook text, metrics, role catalog, fingerprints, policy rules: single lookups.
- Number printing beyond integers, and JSON numbers as doubles; a last line whose `seq` is a number but not a
  natural one counts as a bad last line.
- Two attempts at an architectural approval for one action at the same time.
- `getLastHmac`, which recovers state outside the writer's queue: excluded during the first append.
- `MigrationOrchestrator.cancel` beside a live run: it saves its own copy, which the run may overwrite.
- HMAC checks on pending-action and migration files: a tampered file stops the daemon before anything modelled here.
- Refresh.RefreshEngine.Sweep: nothing else writes the graph during the sweep.
- Which of the three `chmod` calls, the append, the fingerprint or an audit append of a certificate fails: all that
  come before the list is written count as one effect, and so do all that come after.
- Ca.SerialsIncrease: serial runs only; `nextSerial` takes no lock, so two concurrent calls can read one counter.
- Delay.TerminalStatesAbsorb: each id scheduled once and delays within 31 bits; the other runs are covered by
  `Delay.SettlesAtMostOnce`, `Delay.StepKeepsNotBefore` and `Delay.LongDelayFiresEarly`.
- Other writers of the graph during a sweep or a scoring pass: both write back entities from their snapshot.
- Observation records and their deduplication after the drift diff.
- Files written by other processes; a second daemon.
