# Cypra, verified

A Dafny model of the parts of Cypra, a multi-tenant authentication server, that are hard to get right by reading:
resumable re-keying, encrypted backups, concurrent outbox workers, the tenant deletion lifecycle, the authorize
continuation flow, first-boot setup tokens, the tenant setting on pooled connections, and the byte-level parsers and
codecs below them. Check it with `dafny verify dfyconfig.toml`.

The state machines (`Outbox`, `Tenants`, `AuthorizeFlow`, `Bootstrap`, the histories in `Rotation`) are step functions
folded over arbitrary event lists, so each theorem about `Run` or `IsRun` speaks of every interleaving. Code that
updates state in place is a class or a method whose contract ties it to the step functions.

What is assumed, each as an explicit parameter or precondition:

- AES-GCM is a pair of functions with the laws of `Envelope.LawfulAead`: fixed expansion of 12 + 16 bytes, opening
  inverts sealing, and only a sealing under the same key and nonce opens. That a foreign key fails is asked only for the
  two keys at hand (`Separates`).
- JSON is a pair of functions that round-trip on UTF-8; in continuations, where other strings can arrive, these come
  back coerced, as `encoding/json` does. PostgreSQL text is UTF-8. `Envelope.LawsSatisfiable` shows that the laws of the
  cipher and of the envelope's JSON have a model.
- HMAC is a function; a payload that comes with its MAC was signed here (`AuthorizeFlow.Genuine`).
- Clocks never go back. A database transaction takes effect at one moment, except where steps are given separately
  (a worker's claim, processing and commit; a cleanup's snapshot and deletions; the reads of an authorization request;
  the statements of a minting or claiming call).
- Client ids and row ids are unique and not given out again, and only the consent handler writes consents.
- Nonces, salts, random ids, the answers of mail providers and the failures of the database are inputs.

Where a promise does not hold of the code as it is, the code is kept, the failing input is given and the exact condition
is proved:

- A backup is not restored when a row refers to one inserted later: tenants with a logo, storage objects with an owner,
  refresh tokens dumped before their parent (`References.LogoIsNotRestorable`, `References.RestorableExactly`,
  `BackupTransfer.ExportThenImport`). The import also empties tables that no backup holds
  (`References.NotBackedUp`, `BackupTransfer.TruncationIsClosed`).
- Bootstrap can create a second admin through claims that overlap (`Bootstrap.TwoAdminsAreReachable`,
  `Bootstrap.ClaimAfterAdminIff`), and a token can be minted after an admin exists by a call already in flight
  (`Bootstrap.InFlightIsReachable`, `Bootstrap.MintAfterAdminIff`). An expired token still occupies the unique index
  (`Bootstrap.UnusedTokenBlocksMint`).
- A scheduled tenant can have an active key, from settings supplied at creation or a rotation
  (`Tenants.LawHoldsExactlyIfHonest`, `Tenants.CreateKeepsTheLaw`, `Tenants.RotateKeepsTheLaw`), and can then lose the
  ability to rotate (`TenantDeletion.RotationCanCollide`, `Tenants.RotationNeverCollides`).
- A tenant created with windows of its own can be cancellable and due for deletion at once
  (`TenantDeletion.BothAtOnce`, `TenantDeletion.BothAfterCreationIff`), and one scheduled again while a cleanup is under
  way can be deleted while cancellable (`TenantDeletion.RescheduledIsRemoved`,
  `TenantDeletion.RemovedWhileCancellable`).
- A continuation returns the request only if it is UTF-8 (`Continuation.IllFormedStateIsAltered`,
  `Continuation.ParseIssued`).
- The two rewrappers differ on envelopes with non-canonical base64 (`Envelope.NonCanonicalExists`,
  `Envelope.RewrappersAgree`).
- A Row or Scan statement has no callback and can miss the tenant (`TenantScope.RowAfterSeesNothing`); rolled-back
  tries are not spaced (`Outbox.RolledBackRowsAreDueAtOnce`); a raw key with outer white space is refused
  (`MasterKey.NormalizeRaw`).

## Model

| member | source | states |
|---|---|---|
| `Rotation.RotationService.CountRows` | internal/crypto/master_key_rotation.go:123-134 | the total is the number of non-null cells of all targets; fails exactly when a query fails |
| `Rotation.RotationService.Start` | internal/crypto/master_key_rotation.go:49-59 | counts, inserts a record and resumes it, or changes nothing |
| `Rotation.RotationService.Resume` | internal/crypto/master_key_rotation.go:61-108 | rewraps exactly the next `processed` slots in the fixed order, moves the cursor with them, and stops for the reported reason: completed, incomplete, drift, a bad row, a database error |
| `Rotation.RotationService.WalkTarget` | internal/crypto/master_key_rotation.go:82-98 | the inner loop keeps the walk's bookkeeping and stops only for a stated reason |
| `Rotation.RotationService.CommitRow` | internal/crypto/master_key_rotation.go:168-189 | row and cursor change together |
| `Rotation.RotationService.ConfirmCutover` | internal/crypto/master_key_rotation.go:110-116 | marks the record done whatever its phase, and touches nothing else |
| `Rotation.FrontierStep` | internal/crypto/master_key_rotation.go:61-108 | every start, resume or confirmation keeps a frontier, which never moves back |
| `Rotation.EveryRunKeepsAFrontier` | internal/crypto/master_key_rotation.go:61-108 | after any history of starts, resumes and confirmations, stopped or failing anywhere: the first f cells hold their original DEK and payload under the new key only, all others are unchanged, each cursor is at f or never moved, cutover means f is everything |
| `Rotation.NothingLeftAtCutover` | internal/crypto/master_key_rotation.go:100-107 | at cutover no cell of the encrypted columns of the schema opens under the old KEK; each opens under the new one to what it held, and what the column's writer stored is read as its DEK and ciphertext |
| `Rotation.LaggingStuck` | internal/crypto/master_key_rotation.go:86-95 | a second rotation record that lags behind the frontier can never move |
| `Rotation.RunsToCutover` | internal/crypto/master_key_rotation.go:75-107 | with MaxRows = m and no failures, run max(1, ceil(N/m)) is the first to reach cutover; each earlier one is incomplete after m more rows |
| `Rotation.NeverCutoverAfterLoss` | internal/crypto/master_key_rotation.go:100-107 | once rows were deleted below the counted total, no later history newly marks cutover |
| `Rotation.LossEndsInDrift` | internal/crypto/master_key_rotation.go:100-102 | after any interruptions and deletions, an unlimited run without database errors ends in the drift error |
| `Rotation.DeleteAny` | internal/crypto/master_key_rotation.go:147-166 | deleting any row drops at most its own place and shifts the later ones down |
| `Columns.EncryptedColumnsDistinct` | cmd/cypra/main.go:781-794 | the targets are pairwise distinct columns and have known formats |
| `Columns.EveryColumnHasATarget` | db/migrations/0001_init.up.sql:115-311 | every encrypted column of the schema has a target, in a format that reads what the column's writer stores |
| `Columns.TargetsAreTheSchema` | cmd/cypra/main.go:781-794 | targets and encrypted columns of the schema correspond one to one, in the formats of the columns' writers |
| `Columns.TargetSlotsAscend` | internal/crypto/master_key_rotation.go:147-166 | within a target all its cells are visited, by ascending id |
| `Columns.SlotsDistinct` | internal/crypto/master_key_rotation.go:77-98 | with distinct columns no cell is visited twice |
| `Columns.SlotsRemove` | internal/crypto/master_key_rotation.go:147-166 | the visiting order without a cell is the order with its place removed |
| `Envelope.RewrapDekMeaning` | internal/crypto/envelope.go:77-86 | rewrapping succeeds exactly when the old KEK opens the DEK, keeps DEK and length, and shuts the old KEK out |
| `Envelope.EnvelopeRoundTrip` | internal/crypto/signing_keys.go:140-161 | unmarshalling a marshalled envelope gives back both parts |
| `Envelope.SigningKeyRoundTrip` | internal/crypto/signing_keys.go:50-75 | an encrypted signing key reads back from its envelope |
| `Envelope.PrefixRoundTrip` | internal/httpserver/provider_crypto.go:7-23 | the 60-byte split inverts the append for provider secrets and e-mail configurations, for every plaintext and key |
| `Envelope.WrittenIsRead` | internal/auth/totp/totp.go:34-39 | every writer of encrypted columns stores a value that one of the rotation's formats reads as exactly its DEK and its ciphertext |
| `Envelope.SealedLayout` | internal/crypto/envelope.go:88-124 | a sealing is the nonce and 16 bytes more than its plaintext, 60 bytes for a DEK; opening undoes it; keys of other lengths and values no longer than a nonce are refused |
| `Envelope.KekLengthChecked` | internal/crypto/envelope.go:66-86 | a KEK that is not 32 bytes is refused before anything is opened |
| `Envelope.UnencryptedRead` | internal/httpserver/provider_crypto.go:18-23 | without a master key stored values are read as they are, and so are provider secrets too short to be encrypted; e-mail configurations are not |
| `Envelope.RewrapPreserves` | internal/crypto/master_key_rotation.go:191-218 | in every format, re-keying succeeds exactly when the old KEK reads the column; then the new KEK reads the same DEK and payload and the old one nothing |
| `Envelope.ReadersUnaffected` | internal/email/sender.go:159-178 | the readers of signing keys, provider secrets and e-mail configurations decrypt after re-keying what they decrypted before |
| `Envelope.SecretDeterminesPlaintext` | internal/crypto/signing_keys.go:69-75 | columns with the same DEK and payload read the same, whatever their KEKs |
| `Envelope.RewrappersAgree` | cmd/cypra/backup.go:355-390 | the rotation's and the backup's rewrapper of an envelope agree exactly when its ciphertext string is canonical base64 |
| `Envelope.NonCanonicalExists` | internal/crypto/signing_keys.go:147-161 | "AB" decodes like "AA" and is not canonical |
| `Envelope.MarshalledAgree` | internal/crypto/signing_keys.go:140-145 | they agree on every envelope that marshalEnvelope produces |
| `Envelope.BackupRewrapPreserves` | cmd/cypra/backup.go:355-390 | the backup's rewrapper keeps the secret, and what it writes can be re-keyed to any third key |
| `Envelope.BackupRewrapSucceeds` | cmd/cypra/backup.go:355-390 | it succeeds on everything the rotation can read; on envelopes exactly when the wrapped DEK decodes and opens, whatever the ciphertext string |
| `Backup.ByteaRoundTrip` | cmd/cypra/backup.go:392-401 | decoding undoes encoding of byte columns |
| `Backup.ByteaBase64` | cmd/cypra/backup.go:392-397 | a byte column without the hex prefix is read as base64 |
| `Backup.FieldPreserved` | cmd/cypra/backup.go:331-348 | a re-keyed field protects the same secret, its readers decrypt the same plaintext, and it can be re-keyed again |
| `Backup.FieldSucceeds` | cmd/cypra/backup.go:331-342 | what is no string or empty stays; any other field is re-keyed exactly when it decodes and the rewrapper takes it |
| `Backup.RowWellFormed` | cmd/cypra/backup.go:343-348 | re-keying keeps every string well-formed UTF-8, so that JSON carries it unchanged |
| `Backup.PayloadTables.RewrapBackupTables` | cmd/cypra/backup.go:315-353 | on success every target column of every row was re-keyed exactly once and nothing else changed, although tables with two targets are visited twice in place; an error names a field that fails |
| `Backup.PayloadTables.RewrapColumn` | cmd/cypra/backup.go:324-351 | one pass extends the re-keyed targets by one, row by row |
| `BackupTransfer.EncryptedTablesBackedUp` | cmd/cypra/backup.go:23-59 | every encrypted column belongs to a backed-up table |
| `BackupTransfer.TargetMatchesSchema` | cmd/cypra/main.go:781-794 | a column has a target exactly if the schema encrypts it, in the format of its writer |
| `References.GroundedExactly` | cmd/cypra/backup.go:141-148 | rows whose references are intact can be inserted in order exactly if each reference to the same or a later table is null or, within its table, points no further than its own row |
| `References.RestorableExactly` | db/migrations/0016_tenant_logo_object.up.sql:1-2 | for the schema's foreign keys: exactly if no tenant has a logo, no storage object an owner, and no refresh token precedes its parent |
| `References.LogoIsNotRestorable` | internal/httpserver/branding_logo.go:72-75 | one tenant with a logo and its storage object: intact, and refused |
| `References.LateReferences` | db/migrations/0001_init.up.sql:253-253 | these three are the only foreign keys that do not point to an earlier table |
| `References.KeysAreTheSchema` | db/migrations/0001_init.up.sql:38-311 | the positional foreign keys are the references of the schema by name, in both directions |
| `References.OutsideRefers` | db/migrations/0004_personal_access_tokens.up.sql:3-6 | a table outside the backup that a truncation reaches refers to the truncated one |
| `References.NotBackedUp` | cmd/cypra/backup.go:23-59 | personal access tokens, the passkeys of instance admins and their challenges are not in a backup |
| `References.BackedUpExactly` | cmd/cypra/backup.go:23-59 | every other table of the schema is in the backup, and nothing else |
| `References.ReferenceFound` | cmd/cypra/backup.go:141-148 | in rows that can be inserted, a reference to an earlier table names the id of one of its rows |
| `References.SameGrounded` | cmd/cypra/backup.go:343-350 | whether rows can be inserted depends on their key columns only |
| `BackupTransfer.OpenSealed` | cmd/cypra/backup.go:228-280 | opening undoes sealing; a different passphrase key and another format version are refused |
| `BackupTransfer.OpenRefuses` | cmd/cypra/backup.go:246-275 | undecodable parts and nonces of another length are refused, and otherwise the cipher decides |
| `BackupTransfer.Dump` | cmd/cypra/backup.go:83-89 | the dump holds exactly the named tables |
| `BackupTransfer.ExportBackup` | cmd/cypra/backup.go:81-107 | the file seals the dump with every encrypted column moved to the passphrase key; it fails exactly for a failing query, an unreadable master key, a field the key cannot read, or unreadable storage |
| `BackupTransfer.Truncate` | cmd/cypra/backup.go:136-140 | empties the named tables and those outside the backup that refer to them, and no others |
| `BackupTransfer.TruncationIsClosed` | cmd/cypra/backup.go:136-140 | every table of the schema that refers to an emptied one is emptied with it |
| `BackupTransfer.InsertRows` | cmd/cypra/backup.go:142-147 | the rows of a table go in exactly if each finds what it refers to at that moment |
| `BackupTransfer.Restore` | cmd/cypra/backup.go:136-148 | succeeds exactly if every reference is null or points to a row of an earlier table, or of the same table no later than itself; then each named table holds exactly the payload's rows in order |
| `BackupTransfer.Install` | cmd/cypra/backup.go:131-156 | the transaction succeeds exactly if the payload's references are in order, and leaves each listed table with the payload's rows, plus one audit row when resurrecting |
| `BackupTransfer.Database.ImportTables` | cmd/cypra/backup.go:110-156 | up to the commit: the re-keyed payload, or nothing changed and the error explained, a dangling reference among them |
| `BackupTransfer.Database.ImportBackup` | cmd/cypra/backup.go:109-158 | past the commit the tables are the re-keyed payload, whether or not the storage objects can then be written; before it nothing changed and the error is explained |
| `BackupTransfer.RekeyTwice` | cmd/cypra/backup.go:315-353 | re-keying to the passphrase key and on to a second master key preserves every secret and every other column |
| `BackupTransfer.ExportedNeverFails` | cmd/cypra/backup.go:315-353 | a field that was exported never fails to be re-keyed on import |
| `BackupTransfer.PreservedKeys` | cmd/cypra/backup.go:331-350 | re-keying leaves the columns that rows are found by alone |
| `BackupTransfer.ExportThenImport` | cmd/cypra/backup.go:81-158 | under any second master key, an exported backup is imported exactly when the importing side has no I/O failure, no deleted user would be resurrected, and the references of the source's rows are in order; then every backed-up row is there, every column the schema encrypts decrypts under the new key to its original plaintext, and every other column is unchanged |
| `StoragePath.StoragePathExact` | cmd/cypra/backup.go:282-296 | fails exactly when the key's segments cancel out; otherwise the result is the root's segments followed by the key's, strictly below the root, and the later guards never fire |
| `StoragePath.NormalRender` | cmd/cypra/backup.go:282-296 | cleaning and rendering are inverse on plain segments |
| `StoragePath.CleaningSegments` | cmd/cypra/backup.go:282-286 | a name adds a segment, "." and empty segments add nothing, ".." takes the segment before it away, and the root has none to take |
| `StoragePath.AbsSegments` | cmd/cypra/backup.go:287-290 | a rooted path is its own absolute path; any other continues the working directory and fails without one |
| `Outbox.EveryInterleaving` | internal/email/worker.go:96-183 | in every interleaving: no row in two open transactions, never sent and failed, attempts = committed unsuccessful processings, deliveries = committed send + open or rolled-back transactions that sent it |
| `Outbox.OutcomeOf` | internal/email/worker.go:138-172 | a message goes out exactly with a sender, a rendered template and a successful send; a retry is an unresolved provider or a failed send |
| `Outbox.StepKeepsInv` | internal/email/worker.go:96-183 | every step keeps the invariant these follow from |
| `Outbox.EveryTryIsSpaced` | internal/email/worker.go:143-167 | two tries of a row, the first a committed retry, are as far apart as the backoffs between them; 63+32(k-6) minutes after the first of k >= 6 |
| `Outbox.EveryTryHasAFirst` | internal/email/worker.go:143-167 | a try that k > 0 committed processings precede has a first of them, a retry, and starts at least the sum of the first k backoffs after it |
| `Outbox.BackoffSumClosed` | internal/email/worker.go:185-193 | the sum of the first k backoffs is 2^k - 1 minutes up to k = 6 and 63+32(k-6) from there |
| `Outbox.CommitSettles` | internal/email/worker.go:143-182 | a commit makes every row of its batch not due, and makes no row due |
| `Outbox.CommitWrites` | internal/email/worker.go:143-172 | a commit writes per outcome: a retry one more attempt and a next time of min(attempts, 6) doublings after its own time, in whole minutes; a failure one more attempt and the batch's time as failed; a send the batch's time as sent; nothing else changes |
| `Outbox.RetriedIsDueThen` | internal/email/worker.go:185-193 | a retried row can be claimed again from exactly that time on |
| `Outbox.BatchTakes` | internal/email/worker.go:105-109 | a batch takes as many due and free rows as there are, up to its size, 10 if that is not positive |
| `Outbox.BatchesBounded` | internal/email/worker.go:47-60 | with a frozen clock and no inserts, in any interleaving, there are at most as many committed non-empty batches as rows were due |
| `Outbox.RolledBackRowsAreDueAtOnce` | internal/email/worker.go:104-104 | a rollback leaves each held row claimable at once, whatever was delivered |
| `Outbox.Worker.Select` | internal/email/worker.go:109-109 | the earliest due and unlocked rows, up to the limit, in order |
| `Outbox.Worker.ProcessNext` | internal/email/worker.go:133-178 | processing a row is a step of the model with the outcome the branches give |
| `Outbox.Worker.ProcessAll` | internal/email/worker.go:133-178 | the loop processes every claimed row once, in order, and knows whether a statement failed |
| `Outbox.Worker.Finish` | internal/email/worker.go:179-182 | a commit succeeds exactly when no statement failed and then every row is settled as its outcome asks; otherwise everything is rolled back |
| `Outbox.Worker.RunBatch` | internal/email/worker.go:96-183 | a batch is a run of the model, commits exactly when every statement worked, leaves its rows settled, and is empty only if nothing is due and free |
| `Outbox.Worker.Drain` | internal/email/worker.go:47-61 | the loop terminates and leaves nothing due and free |
| `Tenants.StepKeepsSound` | internal/httpserver/handlers.go:112-351 | every step, rotations included, keeps: at most one active key per tenant and that the newest, exactly one while no deletion is scheduled, and all keys sunsetting when there is none |
| `Tenants.StepKeepsInv` | internal/httpserver/handlers.go:201-351 | as long as no tenant is created scheduled and no scheduled tenant's key is rotated: scheduled means all keys sunset together, with windows counted from the latest schedule |
| `Tenants.ActiveKeysOverRuns` | internal/httpserver/handlers.go:112-117 | over every run an unscheduled tenant has exactly one active key; a scheduled one has at most one, and none only if all its keys sunset |
| `Tenants.LawHoldsExactlyIfHonest` | internal/httpserver/handlers.go:262-300 | "one active key exactly while unscheduled, none otherwise" holds at every moment of a run exactly if the run never creates a scheduled tenant and never rotates the key of one |
| `Tenants.CreateKeepsTheLaw` | internal/httpserver/handlers.go:98-117 | the law survives a creation exactly if the supplied settings schedule no deletion |
| `Tenants.RotateKeepsTheLaw` | internal/oidc/rotation.go:42-68 | the law survives a rotation exactly if no deletion is scheduled |
| `Tenants.RotateMeans` | internal/oidc/rotation.go:50-64 | a rotation retires overlapping keys, turns active ones into overlapping ones, adds a new active one and leaves other keys alone |
| `Tenants.RotationNeverCollides` | internal/oidc/rotation.go:136-142 | while the law is kept, the name made from the number of keys is always free |
| `TenantDeletion.RotationCanCollide` | internal/oidc/rotation.go:136-142 | after a scheduled tenant was rotated and its old key cleaned, no rotation succeeds |
| `Tenants.CancelOne` | internal/httpserver/handlers.go:300-300 | a cancel that the index on active keys lets through leaves exactly one active key and no sunset, whatever the tenant went through |
| `Tenants.ClashesExactly` | db/migrations/0001_init.up.sql:293-293 | a cancel is refused by the index exactly if it would make a second key active |
| `TenantDeletion.HardDeleteOnlyExpired` | internal/httpserver/handlers.go:333-349 | from any state, a tenant disappears only through the cleanup, with every key sunsetting at or before the cutoff |
| `TenantDeletion.CancelledSurvives` | internal/httpserver/handlers.go:313-351 | a tenant whose deletion is cancelled is never removed by a cleanup that took its snapshot before, whatever happens in between |
| `TenantDeletion.NeverBoth` | internal/httpserver/handlers.go:290-316 | over every run that creates no tenant with overlapping windows, the condition of the cancel and the condition of the cleanup's SELECT are never true together |
| `TenantDeletion.BothLaterIff` | internal/httpserver/handlers.go:290-316 | from any state, waiting makes both true exactly if the tenant's windows overlap |
| `TenantDeletion.BothAfterCreationIff` | internal/httpserver/handlers.go:98-112 | after a creation both become true exactly if the supplied windows overlap |
| `TenantDeletion.BothAtOnce` | internal/httpserver/handlers.go:98-112 | settings for which both are true at once |
| `TenantDeletion.LawIsDisjoint` | internal/httpserver/handlers.go:266-266 | windows set by scheduling never overlap |
| `TenantDeletion.RemovedWhileCancellable` | internal/httpserver/handlers.go:262-342 | a tenant listed by a snapshot is cancellable when the cleanup reaches it only if it was scheduled anew; it is then removed exactly if it was not cancelled in between |
| `TenantDeletion.RescheduledIsRemoved` | internal/httpserver/handlers.go:262-342 | a run in which a tenant is deleted with seven days left to cancel |
| `TenantDeletion.RotatedStays` | internal/oidc/rotation.go:42-68 | after a rotation no cleanup removes a scheduled tenant, and no cancel succeeds while an old key is left, until it is scheduled once more |
| `TenantDeletion.BlockedUntilCancelled` | internal/httpserver/handlers.go:372-376 | from schedule to a successful cancel the tenant is blocked, through any other steps |
| `TenantDeletion.SuspensionBlocks` | internal/httpserver/handlers.go:214-266 | suspending blocks, resuming unblocks exactly if no deletion is scheduled, scheduling keeps the time of an earlier suspension |
| `TenantDeletion.ScheduleWindows` | internal/httpserver/handlers.go:262-266 | scheduling opens seven days to cancel and sets 30 days to deletion, for the tenant and for each of its keys that has no time yet; other keys stay |
| `TenantDeletion.JunkStopsCleanups` | internal/httpserver/handlers.go:316-316 | one tenant whose deletion time is no timestamp stops every cleanup |
| `Tenants.RestoreOne` | internal/httpserver/handlers.go:300-300 | cancelling makes the newest key the one active key and retires all others |
| `TenantDeletion.ScheduleThenCancel` | internal/httpserver/handlers.go:254-300 | within seven days, cancelling restores the strictly newest active key, retires the tenant's others, clears every sunset and every setting, suspension included, and leaves other tenants alone |
| `Tenants.CleanWhole` | internal/httpserver/handlers.go:338-342 | under the law, cleaning takes all of a tenant's keys or none: none if it is not scheduled, all if it is and the SELECT lists it |
| `TenantHandlers.Server.CreateTenant` | internal/httpserver/handlers.go:112-117 | inserts the tenant with the supplied settings and one active key |
| `TenantHandlers.Server.ApplySuspension` | internal/httpserver/handlers.go:201-222 | sets or clears the suspension of an existing tenant, nothing else |
| `TenantHandlers.Server.ScheduleDeletion` | internal/httpserver/handlers.go:224-276 | is the schedule step, or reports an unknown tenant |
| `TenantHandlers.Server.CancelDeletion` | internal/httpserver/handlers.go:278-310 | is the cancel step with a newest key, exactly while the window is open and the index on active keys permits it; a window that is no timestamp and a second active key fail |
| `TenantHandlers.Server.ForceRotate` | internal/oidc/rotation.go:42-68 | rotates the key of any existing tenant, exactly if the next name is free |
| `TenantHandlers.Server.SelectIds` | internal/httpserver/handlers.go:316-332 | exactly the live tenants due by the cutoff; fails only on a value that is no timestamp |
| `TenantHandlers.Server.RunCleanup` | internal/httpserver/handlers.go:313-351 | from any state: the expired keys of the cleaned tenants are gone, and so is each of them without another key; a run that completes cleans exactly the listed tenants, one that fails says why |
| `TenantHandlers.SweptUnderTheLaw` | internal/httpserver/handlers.go:333-349 | under the law that is the removal of the listed scheduled tenants with all they have |
| `Continuation.CoercedRequestIdentity` | internal/httpserver/oidc_handlers.go:308-311 | a request survives JSON exactly when every field is well-formed UTF-8 |
| `Continuation.IssuedVerifies` | internal/httpserver/oidc_handlers.go:312-328 | an issued token verifies, and its payload is the signed one: base64url holds no separator |
| `Continuation.VerifiedExactly` | internal/httpserver/oidc_handlers.go:316-328 | a token verifies exactly if it is two non-empty parts around the first dot, of which the second is base64url of the MAC of the first |
| `Continuation.ParseExactly` | internal/httpserver/oidc_handlers.go:316-340 | a token yields a continuation exactly if it verifies, its payload decodes to it and it has not expired |
| `Continuation.Lifetime` | internal/httpserver/oidc_handlers.go:305-337 | despite truncation to seconds: live up to 600 s, dead from 601 s |
| `Continuation.ParseIssued` | internal/httpserver/oidc_handlers.go:295-340 | parsing an issued token yields the original request, while it lives, exactly when that is well-formed UTF-8, and nothing from 601 s on |
| `Continuation.IllFormedStateIsAltered` | internal/httpserver/oidc_handlers.go:295-311 | a one-byte state that is not UTF-8 comes back as the replacement character |
| `AuthorizeFlow.EveryCodeWasAskedFor` | internal/httpserver/oidc_handlers.go:76-166 | every code of every run is for the client, redirect URI, scope, state, nonce and challenge of an earlier validated request of the same tenant; the worlds of the run since the request arrived held an open tenant, a live session, the client and its consent when read; and that consent was written by an earlier allow of the same user for that client and these scopes, itself descending from a validated request |
| `AuthorizeFlow.ValidatedFromRequest` | internal/httpserver/oidc_handlers.go:101-118 | over every run what counts as validated came in as a request to an open tenant and passed the checks |
| `AuthorizeFlow.GoneBeforeArrival` | internal/httpserver/oidc_handlers.go:76-166 | no code comes through a session revoked before the request arrived, nor through a consent that did not stand by then unless the user allowed the client again |
| `AuthorizeFlow.StepKeepsInv` | internal/httpserver/oidc_handlers.go:76-280 | every request, decision and change of the database keeps the lineage of continuations, consents and codes, even if the database changes between any two reads of a request |
| `AuthorizeFlow.FinishAuthorizes` | internal/httpserver/oidc_handlers.go:128-166 | a code means that the tables read held an open tenant, a live session of that user, a client of the tenant allowing redirect URI and scopes with an S256 challenge, and an unrevoked consent of the tenant for all scopes |
| `AuthorizeFlow.ValidatedExactly` | internal/oidc/provider.go:106-121 | the conditions on which a request is valid |
| `AuthorizeFlow.LiveUserExactly` | internal/httpserver/session_helpers.go:41-56 | the conditions on which a cookie stands for a user of the tenant |
| `AuthorizeFlow.ConsentedExactly` | internal/oidc/provider.go:291-301 | the conditions on which a consent covers the scopes |
| `AuthorizeFlow.OpenExactly` | internal/httpserver/handlers.go:372-376 | only a tenant that exists and is not blocked is open |
| `AuthorizeFlow.ResumeNeedsLogin` | internal/httpserver/oidc_handlers.go:87-98 | a live continuation without a session leads back to the login with the same token |
| `AuthorizeFlow.FreshReady` | internal/httpserver/oidc_handlers.go:101-166 | a valid request of a signed-in user yields a code exactly with consent, and otherwise leads to the consent page with a token for that request |
| `AuthorizeFlow.GenuineDescends` | internal/httpserver/oidc_handlers.go:282-293 | what a token with the right MAC says descends from a validated request of the tenant it names |
| `AuthorizeFlow.TwoRedirects` | internal/httpserver/oidc_handlers.go:114-150 | from any reachable state, the run with a login and an allow answers with at most the login and the consent redirect before a code for exactly the original request |
| `AuthorizeFlow.AllowReady` | internal/httpserver/oidc_handlers.go:263-280 | an allow with a live token and session is recorded for the token's client and scopes |
| `AuthorizeFlow.DecideExactly` | internal/httpserver/oidc_handlers.go:244-247 | only "allow" and a missing decision are recorded, and they are the same |
| `AuthorizeFlow.AllowFromDecision` | internal/httpserver/oidc_handlers.go:224-280 | over every run each recorded allow comes from a decision event of its tenant with one of these two |
| `AuthorizeFlow.NoAllowNoCode` | internal/httpserver/oidc_handlers.go:224-280 | a run without such an event records nothing and grants nothing |
| `AuthorizeFlow.AllowTakes` | internal/oidc/provider.go:286-301 | recorded consent covers exactly the scopes just allowed, unless the row belongs to another tenant |
| `AuthorizeFlow.ConsentTenantIsClients` | internal/oidc/provider.go:286-310 | in every reachable world a consent row belongs to the tenant of its client |
| `AuthorizeFlow.EveryAllowTakes` | internal/oidc/provider.go:286-301 | so in a run every allow takes effect, for exactly its scopes |
| `Argon2.ParseArgon2Params` | internal/crypto/argon2.go:132-154 | the loop computes the parameters of the last value of each field; those accepted fit in 32, 32 and 8 bits and are positive |
| `Argon2.ParamsExactly` | internal/crypto/argon2.go:132-162 | the texts that give a parameter set: every part an assignment, the last one of each name the digits of a number in range |
| `Argon2.ParamsRoundTrip` | internal/crypto/argon2.go:132-162 | the parameter field parses back for every parameter set in range |
| `Argon2.DecodeEncode` | internal/crypto/argon2.go:98-130 | decoding undoes encoding exactly when salt and hash are not empty |
| `Argon2.DecodesExactly` | internal/crypto/argon2.go:109-130 | the texts that decode: six fields, the algorithm and version fixed, parameters in range, salt and hash non-empty base64 |
| `Argon2.VerifyHashed` | internal/crypto/argon2.go:63-90 | a stored hash accepts exactly the passwords that derive the same key, so the one it was made from |
| `Argon2.VerifyEncoded` | internal/crypto/argon2.go:77-90 | a hash with any parameters in range accepts exactly the passwords whose key under these parameters is the stored one, and none if that key has 2^32 bytes or more |
| `Argon2.NewHash` | internal/crypto/argon2.go:63-76 | a new hash carries the fixed parameters and the 32-byte key under them; a password on the denylist gets none |
| `MasterKey.Unambiguous` | internal/crypto/envelope.go:126-145 | at most one of the four readings yields 32 bytes, on every input |
| `MasterKey.DecodeKeyForms` | internal/crypto/envelope.go:126-145 | every key is recovered from its padded base64, unpadded base64 and hex, and every 32-byte raw string is itself |
| `MasterKey.WeakRawMasterKey` | cmd/cypra/main.go:771-779 | true exactly when all bytes are the same |
| `MasterKey.NormalizeRaw` | cmd/cypra/main.go:758-769 | a 32-byte raw key is accepted exactly when it is not one repeated byte and has no outer white space |
| `MasterKey.NormalizeForms` | cmd/cypra/main.go:758-769 | every key is accepted in padded and unpadded base64 and in hex, and an empty value stands for no key |
| `MasterKey.WrongLengthRefused` | cmd/cypra/main.go:758-769 | what has none of the four lengths of a key is refused |
| `TenantScope.Connection.SetConfig` | internal/db/tenant_scoped_db.go:112-122 | PostgreSQL's local and session settings in a transaction, aborted or not |
| `TenantScope.Connection.RunStatement` | internal/db/tenant_plugin.go:36-56 | a statement with callbacks runs with the tenant and leaves the setting empty; one without sees what is there |
| `TenantScope.Connection.WithTenant` | internal/db/tenant_scoped_db.go:85-110 | every statement that runs sees the tenant, except exactly one without a callback after one with; the session value is empty after a commit and unchanged after a rollback; commits exactly when everything works |
| `TenantScope.Serve` | internal/db/tenant_scoped_db.go:85-122 | over every sequence of calls on any connections of a pool, no call finds or leaves a tenant |
| `TenantScope.RegisteredSeeTheirTenant` | internal/db/tenant_plugin.go:58-86 | closures of query, create, update, delete and raw statements see only their tenant |
| `TenantScope.RowAfterSeesNothing` | internal/db/tenant_plugin.go:58-86 | a row statement after one of these sees no tenant |
| `Bootstrap.EveryRun` | internal/bootstrap/bootstrap.go:44-150 | over every interleaving a token is redeemed at most once, before it expires, and claimed at most once, after that; at most one token is unused; and there is at most one bootstrap admin if no two claims stand between count and commit at once |
| `Bootstrap.ClaimAfterAdminIff` | internal/bootstrap/bootstrap.go:121-150 | once an admin exists, bootstrap can create another exactly when a claim has already counted, for an admin not there yet and a token that is claimable, redeemable or still being minted |
| `Bootstrap.TwoAdminsAreReachable` | internal/bootstrap/bootstrap.go:44-150 | from an empty database, a run that creates two admins |
| `Bootstrap.OverlapMakesTwo` | internal/bootstrap/bootstrap.go:130-148 | two claims that have both counted, of two claimable tokens, create two admins |
| `Bootstrap.UndisturbedClaim` | internal/bootstrap/bootstrap.go:121-150 | a claim that nothing interrupts succeeds exactly for a claimable token while there is no admin |
| `Bootstrap.StepKeepsInv` | internal/bootstrap/bootstrap.go:44-164 | every statement keeps the invariant |
| `Bootstrap.AdminStopsMinting` | internal/bootstrap/bootstrap.go:44-150 | once an admin exists, only minting calls past their last look at the admins can still mint, and only claims that had already counted can still create one |
| `Bootstrap.MintAfterAdminIff` | internal/bootstrap/bootstrap.go:59-84 | a token can be minted after an admin exists exactly when such a call was in flight |
| `Bootstrap.InFlightIsReachable` | internal/bootstrap/bootstrap.go:59-84 | from an empty database, a run that mints a token after an admin exists |
| `Bootstrap.UnusedTokenBlocksMint` | db/migrations/0001_init.up.sql:387-387 | an unused token, expired or not, blocks every insertion |
| `Bootstrap.Service.IsFirstBoot` | internal/bootstrap/bootstrap.go:44-57 | true exactly when there is no admin and no live token |
| `Bootstrap.Service.MintSetupToken` | internal/bootstrap/bootstrap.go:59-84 | mints exactly when there is no admin and no unused token |
| `Bootstrap.Service.RedeemSetupToken` | internal/bootstrap/bootstrap.go:86-96 | consumes exactly the live token with this hash, or reports that there is none |
| `Bootstrap.Service.CreateFirstInstanceAdmin` | internal/bootstrap/bootstrap.go:121-150 | succeeds exactly for a redeemed, unclaimed, unexpired token while there is no admin |
| `Bootstrap.Service.RevokeSetupToken` | internal/bootstrap/bootstrap.go:152-164 | revokes every unused token and mints exactly when there is no admin |
| `Text.SplitJoin` | internal/crypto/argon2.go:110-110 | splitting undoes joining of separator-free fields |
| `Text.CutAt` | internal/httpserver/oidc_handlers.go:317-317 | cutting finds the first separator |
| `Base64.RoundTrip` | internal/crypto/argon2.go:98-130 | base64 decoding undoes encoding, padded and unpadded, in both alphabets |
| `Base64.HexRoundTrip` | cmd/cypra/backup.go:392-401 | hex decoding undoes encoding |
| `Base64.DecodedLength` | internal/crypto/envelope.go:126-145 | the decoded length is fixed by the length without newlines, up to two pad characters |
| `Base64.DecodesExactly` | internal/crypto/argon2.go:117-124 | unpadded base64 decodes exactly if, newlines apart, every character is in the alphabet and no single one is left over |
| `Base64.DecodesPaddedExactly` | cmd/cypra/backup.go:254-260 | padded base64 decodes exactly if, newlines apart, it consists of whole groups that are in the alphabet up to one or two pad characters at the end |
| `Base64.HexDecodesExactly` | cmd/cypra/backup.go:392-395 | hex decodes exactly if it consists of whole pairs of digits, and then byte by byte |
| `Base64.DecodeIgnoresNewlines` | internal/crypto/envelope.go:126-145 | newlines anywhere are ignored |
| `Base64.Alphabets` | internal/crypto/envelope.go:130-134 | the two alphabets and the hex digits, upper and lower case |
| `Base64.KnownTexts` | internal/crypto/envelope.go:130-134 | the vectors of section 10 of RFC 4648 for "f", "fo" and "foo" |
| `Utf8.CoercedIdentity` | internal/httpserver/oidc_handlers.go:308-308 | coercing a string to UTF-8 changes it exactly when it is ill-formed |
| `Utf8.WellFormedExactly` | internal/httpserver/oidc_handlers.go:308-308 | a string is well-formed exactly if it is the encoding of Unicode scalar values |
| `Utf8.CoercedAt` | internal/httpserver/oidc_handlers.go:308-308 | a byte that starts no code point becomes U+FFFD; what is well-formed before it stays |

## Left out

- AES-GCM, HMAC-SHA256, Argon2, SHA-256 and randomness themselves: only the laws named above are used.
- BackupTransfer.Database.ImportBackup: the contents of the storage objects (`dumpLocalStorage`, `restoreLocalStorage`); only whether they can be written after the commit is an input.
- The JSON of rows: a row is a map of exact values; Go reads JSON numbers as float64 there, so numeric fidelity is not claimed.
- BackupTransfer.Restore: unique, not-null and check constraints, which rows dumped from a database with the same schema satisfy; the tables outside the backup that a truncation empties are not restored, in the code as here.
- Rotation.EveryRunKeepsAFrontier: rows inserted or rewritten by other writers during a rotation; the cursor is positional, so the row set is fixed there, and shrinks only between runs in the drift results.
- Rotation.RotationService.Resume: the targets are required to be distinct columns, which `Columns.EncryptedColumnsDistinct` gives for the list in use; `validateTarget` and BatchSize, which the code never uses, are not modelled.
- Outbox: deletion of outbox rows with their tenant, the texts of errors, templates and the mail providers. The database's and the worker's clock are one clock.
- Tenants.StepKeepsInv: the sessions and refresh tokens that suspending and scheduling revoke, slugs and their confirmation, and `deleted_at`, which nothing sets.
- Tenants.ActiveKeysOverRuns: retiring overlapped keys after their window, and the sunset and pruning functions that nothing calls.
- AuthorizeFlow.EveryCodeWasAskedFor: restoring consents from a backup; the comparison of redirect URIs is a parameter, and exchanging a code for tokens is not modelled.
- AuthorizeFlow.TwoRedirects: the login itself; the user's session is part of the world the next request sees.
- MasterKey.NormalizeRaw: `strings.TrimSpace` is a parameter that takes away only ASCII white space and bytes beyond ASCII, at both ends; which Unicode spaces it knows is not modelled.
- TenantScope.Connection.WithTenant: nested transactions, closures that change the context, and GORM's own internals.
- Bootstrap.EveryRun: admins are never deleted; the claim of a token, the insertion and the commit are one step, since the claim locks the token's row.
- The dashboard, hosted login pages, HTTP plumbing, audit writes, rate limits, authorization guards and the command line: user interface or easy members.
