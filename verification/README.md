# CipherSpace: the encrypted note sync protocol and what it rests on

A Dafny model of CipherSpace's note synchronisation, with proofs. The browser queues creates, edits and deletes
while offline; a sync engine pushes them one at a time and then pulls the workspace's change log by cursor; the
server keeps linear version chains, an operation record per pushed change, and the log. Around that core stand the
membership and key-share tables, the claim and reclaim of e-mail addresses, the chain of identity bundles, and the
codecs: canonical base64, the byte strings that are signed or authenticated, the text of a cursor.

Each state machine is written twice. A functional form (a datatype of tables, one function per transaction, a
`Step` datatype) is what the invariants, the runs and the theorems are about. A class in the source's own form
reads and writes rows one at a time, in loops, with explicit rollback where the source's transaction throws, and each
of its methods is proved to compute exactly that function.

| files | what they model |
|---|---|
| `ServerTables`, `ServerInvariants`, `ServerTheorems`, `Rights`, `Paging` | notes, versions, operations and change log under both note APIs; who may write; paging |
| `SyncServer`, `SyncService` | the repositories and the sync service as classes over the stored rows |
| `LocalStore`, `StoreInvariants`, `Workspaces`, `PullSafety`, `Resolution`, `PullConvergence`, `Migration`, `LocalEffects` | the browser's tables, conflicts, pulling, plaintext migration |
| `LocalRepository` | the browser's repository as a class |
| `SealedWork`, `Envelopes`, `SyncTypes` | envelopes and which document each queued payload holds |
| `SyncSystem`, `SyncSafety`, `WrittenVersions` | device, network and server as one system whose requests may be lost, delayed and repeated |
| `MigrationSafety`, `MigrationRace`, `KeepLocal`, `KeepLocalRun`, `CrashSafety`, `RetrySafety`, `SelfConflictRun`, `RemoteVersions` | the plaintext migration, keep_local, crashes, retries and recorded conflicts in any run of that system |
| `SyncRun`, `SyncEngine`, `SyncRefinement` | one run of the engine, the engine as a class, and the proof that a run is a run of the system |
| `LoneOwner`, `LoneOwnerSync` | a lone owner's offline work and the run that follows it |
| `EmailClaims`, `AuthRepository`, `IdentityChain`, `IdentityRepository`, `Membership`, `WorkspaceRepository` | the smaller server state machines |
| `Base64`, `Text`, `Json`, `JsonArray`, `CanonicalBytes`, `CursorText`, `SafetyNumber`, `CodecTexts` | codecs |

Conventions. One transaction, SQL or Dexie, is one atomic step, and a throw leaves the tables as they were. UUIDs are
natural numbers (strings where their text matters); an identifier that is already in a table makes its insertion
throw, as the primary keys do. `log[k]` is the change with sequence number k + 1: a sequence number is taken to be
the next one at commit. SHA-256 is injective: a request hash is the request itself, a bundle hash stands for its
bundle. AES-GCM is ideal: a sealed text opens under its own key, nonce and additional data and under nothing else.
The server's clock, identifiers drawn at random and the order in which the browser's index returns rows are
parameters, so every statement holds for all of them.

Six statements one might expect are false of the code, and the model proves the true one:

- `keep_local` prefers the stored local envelope, sealed for an earlier revision, to the one made for the resolution.
  In every run the change it queues opens exactly if neither the note nor the conflict stores an envelope, or the
  stored one is of version 1 (`KeepLocal.KeepLocalInAnyRun`); otherwise it opens for nobody, and a run of ten steps
  from an empty device gets there (`KeepLocalRun.ReachesUnopenable`).
- A crash leaves an attempt in `syncing` exactly if its answer was awaited and nothing took it out since
  (`CrashSafety.CrashStrandsExactly`); nothing ever retries it (`CrashSafety.StrandedIsNeverRetried`). So only a run
  that returned or threw leaves nothing in `syncing`.
- A retry after a lost answer is safe exactly if the change is still the one that was sent (`RetrySafety.RetryExactly`). An
  edit reuses the failed change under its id, which the server has on record with the earlier content: the retry is
  rejected, the change is never marked `synced` (`RetrySafety.EditedAttemptNeverSyncs`), and the next pull stops it in a
  conflict with the device's own version, without anybody else doing anything (`SelfConflictRun.ReachesSelfConflict`).
  So a lone owner needs a reliable transport.
- `putKeyShare` reads the member's role before its transaction: the stored share agrees with the role exactly if the
  role is still the one checked (`Membership.PutKeyShareWindow`, with the race itself in `PutKeyShareRace`).
- A migrated resolution opens under the revision its settling change had when the migration was planned. An edit before
  the commit can raise that change's revision (`MigrationRace.SettlingRevisionMayRise`); it opens under the later one
  exactly if the revision is still the same or the envelope is of version 1 (`Migration.ResolutionOpensExactly`).
- After a pull, a note without outstanding changes is at the server's version and deletion flag; its local payload is
  not replaced (`PullConvergence.FullPullConverges` says the former, `PullSafety.PullNeverOverwritesWork` the latter).

## Model

The last rows, marked as case tables, each spell out one call's outcomes and frame; they follow from the definitions
and stand beside the results about whole runs, not among them.

| member | source | states |
|---|---|---|
| `SyncSafety.SyncedMeansStored` | apps/web/src/sync/engine.ts:86-103 | in every run, from any well-formed tables, with lost, delayed and repeated requests, lost answers, concurrent edits and any other writers, a change marked `synced` has an accepted operation of this device under its id; a create or update operation's version carries exactly the change's payload, revision and author, and no other accepted write holds that version; a delete left the note deleted |
| `SyncSafety.AcceptedVersionsOpen` | apps/web/src/local-storage/repository.ts:214-274 | any version the server ever accepts from a request that create, edit, accept_remote, manual_merge, the engine's encryption, the plaintext migration, or keep_local where no local envelope is stored prepared opens, for whoever holds the key and only the returned version row, to the document that operation was given or the plaintext the change had, even when the answer was lost |
| `WrittenVersions.WrittenTextOpensElsewhere` | apps/web/src/local-storage/repository.ts:214-274 | in the user's terms: a text written with create, edit, a resolution that does not keep a stored local text, or the encryption of a queued one, then sent and ever accepted, is stored in a version that opens to that text on every device with the key, whatever happens in between and after |
| `WrittenVersions.SentDocumentOpens` | apps/web/src/sync/engine.ts:86-103 | the same of any change that remembers a document, from any reachable state |
| `SyncTypes.StoredEnvelopeOpens` | apps/web/src/local-storage/notePayloadCrypto.ts:55-93 | an envelope that opens under a change's metadata survives the wire, the server's columns and the cache: the revision printed and read back, the key id and the note suffice to open it |
| `SyncTypes.PushedVersionOpens` | apps/web/src/sync/engine.ts:30-40 | the same for a freshly sealed envelope |
| `SyncTypes.ColumnsDetermineEnvelope` | apps/api/src/sync/service.ts:222-230 | the columns the server stores of an envelope determine it, key version included |
| `Envelopes.SealedOpens` | apps/web/src/local-storage/notePayloadCrypto.ts:35-53 | what is sealed opens to the same title and body under its own key and metadata, and under no other |
| `Envelopes.ParsePrinted` | apps/web/src/local-storage/notePayloadCrypto.ts:10-45 | parsing undoes printing of a note document, whatever characters it holds |
| `Envelopes.Utf8Adds` | packages/crypto/src/content-aad.ts:72-74 | the byte lengths of two texts add up |
| `Envelopes.Utf8OfChar` | packages/crypto/src/content-aad.ts:72-74 | a character takes one to four bytes by its value |
| `SealedWork.NextKeepsBound` | apps/web/src/local-storage/repository.ts:929-957 | every step keeps every remembered document sealed under the note, workspace and revision its change is pushed with |
| `KeepLocal.KeepLocalInAnyRun` | apps/web/src/local-storage/repository.ts:993-1018 | in every run, resolving with keep_local and the document on the screen queues a change that opens under its own note and revision, for a key and to a document, if and only if neither the note nor the conflict stores an envelope, and they are the device's key and that document, or the stored envelope is of version 1 and opens to it |
| `KeepLocal.KeepLocalOpensExactly` | apps/web/src/local-storage/repository.ts:993-1018 | the same of the transaction alone, for any envelope handed to it |
| `KeepLocal.EnvelopesAreDated` | apps/web/src/local-storage/repository.ts:171-260 | in every run no stored envelope of a note, a change or a conflict authenticates a revision above its row's |
| `KeepLocalRun.ReachesUnopenable` | apps/web/src/local-storage/repository.ts:993-1018 | from an empty device and server: create, push, edit, another member's edit, push, conflict, keep_local; the change then queued opens for no key to no document |
| `SyncSafety.FinishedRunLeavesNothingSyncing` | apps/web/src/sync/engine.ts:85-132 | a run that returned or threw leaves none of its attempts in `syncing`, whatever the transport and the user did |
| `CrashSafety.CrashStrandsExactly` | apps/web/src/local-storage/repository.ts:677-731 | in every run, a crash at any point leaves an attempt of the run in `syncing` if and only if it is the one whose answer is awaited and its row is still in `syncing` |
| `CrashSafety.StrandedIsNeverRetried` | apps/web/src/local-storage/repository.ts:636-640 | after such a crash and any further steps, runs and crashes the change is in `syncing`, `conflict` or `resolved`, never `synced`, and no run can start it |
| `RetrySafety.RetryExactly` | apps/api/src/sync/repository.ts:284-314 | in every run, sending again a change whose id is on record changes nothing at the server; if the change is still what was recorded, the recorded status is repeated, and an acceptance marks it `synced`; otherwise it is rejected and fails |
| `RetrySafety.EditedAttemptNeverSyncs` | apps/web/src/local-storage/repository.ts:1191-1224 | a change that was edited after the server recorded it never becomes `synced`, in any later run |
| `SelfConflictRun.ReachesSelfConflict` | apps/web/src/local-storage/repository.ts:1191-1224 | from an empty device and server, with no step of anybody else: create, sync, edit, lose the answer, edit again, sync; the change ends in a conflict with the device's own version |
| `SyncSafety.ExecuteKeepsInv` | apps/web/src/local-storage/repository.ts:677-819 | every run of the system keeps its invariant: answers are true, only the awaited attempt is in `syncing`, what is synced is stored, promises are sealed |
| `SyncSafety.NewDeviceStarts` | apps/web/src/local-storage/repository.ts:1114-1130 | a new device in front of any server is one of the states these runs may start from |
| `SyncRefinement.SyncRefinesSystem` | apps/web/src/sync/engine.ts:85-132 | every run of the engine, for all faults and wherever it stops, is a run of the distributed system that ends idle with the same tables on both sides |
| `SyncRefinement.EngineRunIsSafe` | apps/web/src/sync/engine.ts:85-132 | so a run keeps both sides' invariants, leaves nothing it attempted in `syncing`, and marks `synced` only what the server stored |
| `SyncEngine.NoteSyncEngine.RunSync` | apps/web/src/sync/engine.ts:80-132 | the engine's loops compute exactly `SyncRun.Sync` of both sides' tables, over a listing of the prepared changes in creation and revision order |
| `SyncEngine.NoteSyncEngine.PushRound` | apps/web/src/sync/engine.ts:86-103 | one round re-reads the change, begins the attempt, sends it and applies the answer, as `Exchange` says, for every fault |
| `SyncRun.ExchangeSendsExactly` | apps/web/src/sync/engine.ts:86-103 | a round sends exactly a change that is there, of the workspace, and pending or failed, as one more attempt in `syncing` |
| `SyncEngine.NoteSyncEngine.PullPages` | apps/web/src/sync/engine.ts:105-116 | the do/while loop over pages is the pull phase, from the stored cursor, for every point at which the transport stops |
| `SyncEngine.NoteSyncEngine.ListPrepared` | apps/web/src/sync/engine.ts:80-83 | exactly the retryable changes that can be sent, once each, by creation time and then revision |
| `LoneOwnerSync.LoneOwnerNeverConflicts` | apps/web/src/sync/engine.ts:78-116 | from tables in sync, after any offline creates, edits and deletes with a clock that does not go back, one run over a reliable transport returns, marks every queued change `synced`, records no conflict, leaves the last text of every written note and exactly the deletions on the server, and ends in sync |
| `LoneOwnerSync.SessionsNeverConflict` | apps/web/src/sync/engine.ts:78-116 | so for any number of sessions, each of offline work and a run: every one delivers everything, records no conflict and ends where the next may start |
| `LoneOwnerSync.NewDeviceIsAtRest` | apps/web/src/local-storage/repository.ts:1114-1130 | a new device of the workspace's owner may start such sessions in front of any server |
| `LoneOwner.OfflineKeepsAlone` | apps/web/src/local-storage/repository.ts:171-295 | each offline step keeps the queue of a note a create, an update and a delete in rising revisions, all based where the note is, ending in the last text |
| `LoneOwnerSync.RoundIsAccepted` | apps/api/src/sync/repository.ts:316-435 | the first queued change of a note is accepted and the rest of its queue is rebased on the answered version |
| `LoneOwnerSync.RoundKeepsAlone` | apps/web/src/local-storage/repository.ts:1306-1340 | rebasing after an accepted change keeps the rest of the queue acceptable and the last text last |
| `LoneOwnerSync.ListedFirst` | apps/web/src/local-storage/repository.ts:620-634 | for a lone owner the order by creation time lists a note's changes in revision order |
| `LoneOwnerSync.PullKeepsInSync` | apps/web/src/local-storage/repository.ts:821-876 | a pull in front of an unchanged server keeps tables in sync in sync and brings no conflict, from any cursor |
| `PullConvergence.FullPullConverges` | apps/web/src/local-storage/repository.ts:1355-1375 | a pull loop from the start of the log ends with every workspace note that has no outstanding change at the server's current version and deletion flag, whatever the tables were |
| `PullConvergence.PullMovesToCurrent` | apps/web/src/sync/engine.ts:105-116 | from any cursor a note without outstanding changes is moved to the server's current state or left as it was |
| `PullConvergence.LoopAppliesFeed` | apps/web/src/sync/engine.ts:105-116 | page boundaries leave no trace: the loop applies the rest of the feed in order and stores the last cursor |
| `PullSafety.PullNeverOverwritesWork` | apps/web/src/local-storage/repository.ts:821-876 | for any page and any tables, every outstanding change of a touched note ends in `conflict` or based on each version pulled for it; notes with outstanding changes keep base and deletion flag; no local payload, revision or queued payload changes |
| `LocalEffects.PulledOverWork` | apps/web/src/local-storage/repository.ts:821-876 | a pulled entry of a note with open changes stops exactly those on another base |
| `ServerTheorems.LogDeterminesNotes` | apps/api/src/sync/repository.ts:346-435 | folding the change log rebuilds every note's workspace, current version and deletion flag, and no other note |
| `ServerTheorems.LogListsVersionsOnce` | apps/api/src/sync/repository.ts:346-435 | a note's log is its versions 1..n in order, once each, each with the one before as parent, then exactly one deletion entry carrying version n when it is deleted; the current pointer is version n |
| `ServerTheorems.StoredVersionsAreListed` | apps/api/src/notes/repository.ts:290-353 | every stored version is the one of its number in its note's chain |
| `ServerTheorems.AcceptedOperationsHold` | apps/api/src/sync/repository.ts:316-435 | after any run, an accepted update's version has the stated base as parent, an accepted create is version 1, an accepted delete left the note deleted at its base, and creates and updates stored exactly their payload and revision |
| `ServerTheorems.DeletedNotesAreFrozen` | apps/api/src/notes/repository.ts:375-405 | once deleted, neither a note nor its log ever changes |
| `ServerTheorems.ReplayIsIdempotent` | apps/api/src/sync/repository.ts:284-314 | repeating an operation after any further operations changes nothing and returns its status and version as a duplicate |
| `ServerTheorems.ReusedIdIsRejected` | apps/api/src/sync/repository.ts:290-297 | reusing an operation id with another request, user, client or workspace changes nothing and is rejected, whenever it comes |
| `Rights.ReadersLeaveNoTrace` | apps/api/src/sync/repository.ts:316-390 | over any run of both note APIs, whoever is an outsider or a viewer of a workspace throughout writes no entry of its log, and whoever is no owner throughout deletes nothing |
| `Rights.EntryIsAllowed` | apps/api/src/notes/repository.ts:187-405 | every log entry is written by an owner or an editor, and every deletion by an owner |
| `Rights.DirectAppendStores` | apps/api/src/notes/repository.ts:290-353 | the direct append, exactly: of a live note by an owner or an editor, the next version with the content, client version and author given, on the old current version, one log entry, nothing else; otherwise nothing |
| `ServerTheorems.AcceptedExactly` | apps/api/src/sync/repository.ts:316-435 | a new operation is accepted if and only if its user is an owner or an editor, for a deletion an owner, its note is where it expects it and its version can be written |
| `ServerTheorems.ConflictsExactly` | apps/api/src/sync/repository.ts:333-345 | it conflicts if and only if its user's role allows it and the workspace's note is at another version than it expects; the answer is the current note and version and only the operation record is written |
| `ServerInvariants.ProcessKeepsInv` | apps/api/src/sync/repository.ts:276-435 | a sync call keeps the chains and records, takes nothing back, and what it answers is on record and stored |
| `ServerInvariants.RunKeepsInv` | apps/api/src/notes/repository.ts:187-405 | so does any interleaving of both note APIs |
| `SyncServer.PostgresSyncRepository.ProcessOperation` | apps/api/src/sync/repository.ts:276-435 | the row-by-row transaction, with rollback, computes exactly `Process` and its answer |
| `SyncServer.PostgresSyncRepository.CreateOperation` | apps/api/src/sync/repository.ts:316-365 | the create branch: forbidden, conflict against an existing note, a foreign note id that throws, or note, version, operation and log row |
| `SyncServer.PostgresSyncRepository.UpdateOperation` | apps/api/src/sync/repository.ts:418-435 | the update branch throws exactly for a missing version, a missing payload or a used version id, and otherwise adds the next version |
| `SyncServer.PostgresSyncRepository.DeleteOperation` | apps/api/src/sync/repository.ts:399-416 | the delete branch marks the note deleted at its current version and logs it |
| `SyncServer.PostgresSyncRepository.PullChanges` | apps/api/src/sync/repository.ts:439-475 | the scan returns exactly the first visible sequence numbers after the given one |
| `SyncServer.PostgresNoteRepository.CreateNote` | apps/api/src/notes/repository.ts:187-239 | the direct create answers null exactly for an outsider or a viewer and throws exactly for a used note or version id; otherwise it writes and returns the note and its first version with the content given |
| `SyncServer.PostgresNoteRepository.AppendVersion` | apps/api/src/notes/repository.ts:290-353 | the direct append answers null exactly where the workspace has no such live note or the author is an outsider or a viewer; otherwise it throws, or writes and returns the next version with the content given |
| `SyncServer.PostgresNoteRepository.SoftDeleteNote` | apps/api/src/notes/repository.ts:375-405 | the direct delete succeeds exactly for an owner and a live note of the workspace |
| `SyncService.Service.Push` | apps/api/src/sync/service.ts:205-252 | a batch runs its operations in order, one transaction each, answers each, and an operation that throws ends it but keeps what came before |
| `SyncService.BatchAnswersEach` | apps/api/src/sync/service.ts:205-252 | a batch that returns answers every operation, in order and under its own id |
| `SyncService.BatchRunsEach` | apps/api/src/sync/service.ts:205-252 | operation k runs as the pusher's own on the tables that the operations before it left, and answer k is the answer to it |
| `SyncService.BatchKeepsInv` | apps/api/src/sync/service.ts:205-252 | a batch keeps the server's invariant and takes nothing back, also where it ends early |
| `SyncService.Service.Pull` | apps/api/src/sync/service.ts:254-283 | reading one row more than the page gives exactly the page of 500, the cursor and whether there is more; an outsider and a foreign cursor are refused |
| `Paging.PagesAreExact` | apps/api/src/sync/service.ts:254-283 | for any log, start and page size the concatenated pages are the workspace's entries after the start, each once and in order, every page but the last is full, and the loop ends because each leaves fewer entries |
| `Paging.PullAnswersExactly` | apps/api/src/sync/service.ts:254-289 | a pull is refused exactly to outsiders and for cursors of other workspaces, with the right error; otherwise it holds, in order, the first `size` log entries of the workspace above the cursor, each with its note as it is, its deletion mark and its version as stored, says whether there are more, and where to go on |
| `Paging.FeedIsExact` | apps/api/src/sync/repository.ts:439-475 | the query lists exactly the visible entries of the workspace in the range, in strictly increasing order |
| `Paging.PagesDuringWritesAreExact` | apps/api/src/sync/service.ts:254-283 | when anybody writes between the pages, they still carry a prefix of the final feed: nothing lost, nothing twice |
| `Paging.EntriesAreVisible` | apps/api/src/sync/repository.ts:465-475 | the joins never drop a row: every entry's note and version exist and share its workspace |
| `CursorText.CursorRoundTrip` | apps/api/src/sync/service.ts:144-174 | a cursor decodes to the sequence it was made from for its own workspace and is refused for every other |
| `CursorText.CursorReadsExactly` | apps/api/src/sync/service.ts:149-174 | a decoded object is accepted if and only if it has exactly the three names, version 1, the reader's workspace and the canonical digits of the sequence; no cursor means the start |
| `CodecTexts.CursorObjectText` | apps/api/src/sync/service.ts:144-147 | under its base64url text a cursor is the object of the sequence as a string, version 1 and the workspace |
| `CursorText.DecodeUrlUndoesEncodeUrl` | apps/api/src/sync/service.ts:144-147 | base64url without padding decodes to the bytes it was made from |
| `StoreInvariants.RunKeepsInv` | apps/web/src/local-storage/repository.ts:677-819 | over any run with any answers and pages: `synced` and `resolved` are final, `conflict` leaves only to `resolved`, a note's changes have distinct revisions at most the note's, and every `conflict` change has an unresolved record |
| `StoreInvariants.UpsertKeepsInv` | apps/web/src/local-storage/repository.ts:1191-1224 | a new or reused change on a raised revision keeps all of that |
| `LocalEffects.ResolvableExactly` | apps/web/src/local-storage/repository.ts:959-1011 | a conflict can be resolved if and only if it is the latest unresolved one of its note, in the note's workspace, the action's document is valid, there is an envelope to queue, the revision is the next above the note's and all its changes', and the id is free |
| `LocalEffects.DocumentIsValidExactly` | apps/web/src/local-storage/repository.ts:1176-1189 | a document is valid if and only if its trimmed title is not empty and both texts are within their limits |
| `Resolution.ResolveCloses` | apps/web/src/local-storage/repository.ts:959-1074 | afterwards the note has exactly one outstanding change, an update based on the highest-numbered unresolved remote version with a revision above all earlier ones, and no unresolved conflict |
| `RemoteVersions.ConflictsShowServerVersions` | apps/web/src/local-storage/repository.ts:1226-1304 | in every run each conflict shows a version of its note as the server stores it, column by column, number included |
| `RemoteVersions.ResolvesAtHighestVersion` | apps/web/src/local-storage/repository.ts:916-1074 | so a resolution queues an update based on the version that the server numbers highest among those of the note's unresolved conflicts |
| `RemoteVersions.ConflictsShow` | apps/web/src/local-storage/repository.ts:1226-1304 | recording a conflict writes, for each change, one unresolved row that shows the change as it was and the server's version column by column, and keeps every other row |
| `RemoteVersions.PagesAreServed` | apps/api/src/sync/service.ts:254-283 | the pages the server answers show stored versions, each of its entry's note, as those runs suppose |
| `Resolution.ResolutionIsAccepted` | apps/api/src/sync/repository.ts:367-435 | if the server is still at that version, the note is live and the user may write, the push is accepted as the next version |
| `Resolution.ConflictChangesAreResolvable` | apps/web/src/local-storage/repository.ts:916-927 | in every reachable state a `conflict` change's note has a latest unresolved conflict, whatever the ties |
| `Resolution.NothingLaterIsRetryable` | apps/web/src/local-storage/repository.ts:783-810 | after it no change of the note at that revision or later can be sent before the user resolves |
| `LocalEffects.AnswerIsLast` | apps/web/src/local-storage/repository.ts:733-760 | the answer to a change is the last one with its id |
| `MigrationSafety.MigrationKeepsMeaning` | apps/web/src/local-storage/repository.ts:345-548 | in every run, from any tables, and whatever transactions and other migrations happened since it was planned, the migration throws and changes nothing, or leaves no plaintext, moves only rows that held some, and every note, change and conflict that held some holds an envelope that opens under its own ids and revision to that plaintext, and every resolution under the revision its settling change had when the migration was planned |
| `MigrationSafety.MigratedChangeOpensElsewhere` | apps/web/src/local-storage/repository.ts:503-523 | a migrated change, once sent, is stored, if the server ever accepts it, in a version that opens on every client that holds the key to the plaintext it had |
| `MigrationSafety.PlansAreWellFormed` | apps/web/src/local-storage/repository.ts:345-364 | whatever a migration is planned on in a run is well formed, with every conflict in the workspace of its change, and the tables have only moved on from it |
| `Migration.ResolutionOpensExactly` | apps/web/src/local-storage/repository.ts:425-470 | a migrated resolution opens under the revision its settling change has after the commit if and only if that is still the one it had at planning, or the envelope is of version 1 |
| `MigrationRace.SettlingRevisionMayRise` | apps/web/src/local-storage/repository.ts:506-532 | concrete well-formed tables, an edit between planning and commit, and a commit that returns, after which a resolution does not open under its settling change's revision |
| `Migration.SettlingRevisionsAgree` | apps/web/src/local-storage/repository.ts:425-470 | the two revisions agree if and only if the settling change still has its revision, which it does once it is closed |
| `Migration.AllOrNothing` | apps/web/src/local-storage/repository.ts:472-548 | only rows that held plaintext move, and of notes and changes only envelope and plaintext; otherwise nothing changes |
| `Migration.EnvelopesAreKept` | apps/web/src/local-storage/repository.ts:472-532 | a row that has an envelope when the plan is carried out keeps it |
| `Migration.ReturnsWhenPreparable` | apps/web/src/local-storage/repository.ts:365-395 | with nobody writing in between it returns exactly when every row's envelope can be made or verified |
| `Migration.ReturnsExactly` | apps/web/src/local-storage/repository.ts:397-548 | whatever was written in between, it returns if and only if everything could be prepared, every row read with plaintext still has it at the same revision, and no other row has any |
| `Migration.StepTracks` | apps/web/src/local-storage/repository.ts:652-675 | whatever transaction runs, a row that still has its revision and its plaintext still has its envelope, which is why the commit's checks suffice |
| `Workspaces.RunKeepsHome` | apps/web/src/local-storage/repository.ts:1260-1304 | over any run of the tables a note, its changes and their conflicts stay in one workspace |
| `LocalRepository.LocalNotesRepository.EditNote` | apps/web/src/local-storage/repository.ts:228-260 | the transaction is `Edit` for the reusable change it finds, if any |
| `LocalRepository.LocalNotesRepository.CreateNote` | apps/web/src/local-storage/repository.ts:171-212 | the transaction is `Create`, and it succeeds exactly for a valid document and unused ids |
| `LocalRepository.LocalNotesRepository.DeleteNote` | apps/web/src/local-storage/repository.ts:276-295 | the transaction is `Delete` for the reusable change it finds, if any |
| `LocalRepository.LocalNotesRepository.FindReusable` | apps/web/src/local-storage/repository.ts:1197-1205 | finds a retryable change of the kind on the note exactly if there is one, in any row order |
| `LocalRepository.LocalNotesRepository.BeginSyncAttempt` | apps/web/src/local-storage/repository.ts:677-704 | the loop over candidates starts exactly those still retryable at their revision |
| `LocalRepository.LocalNotesRepository.StoreEncryptedPayload` | apps/web/src/local-storage/repository.ts:652-675 | the transaction is `StorePayload` |
| `LocalRepository.LocalNotesRepository.MarkSyncAttemptFailed` | apps/web/src/local-storage/repository.ts:706-731 | the loop fails exactly the attempts still in `syncing` at the attempted revision |
| `LocalRepository.LocalNotesRepository.ApplyPushResults` | apps/web/src/local-storage/repository.ts:733-819 | the loop over attempts applies the last answer with each id: accepted, conflict with its spread, rejected, or missing |
| `LocalRepository.LocalNotesRepository.RecordEach` | apps/web/src/local-storage/repository.ts:1260-1304 | the loop over conflicting changes writes one record each from the change as it was, in any order |
| `LocalRepository.LocalNotesRepository.RebaseAcceptedDescendants` | apps/web/src/local-storage/repository.ts:1306-1340 | the loop moves the note and exactly the later outstanding changes with the pushed base to the accepted version |
| `LocalRepository.LocalNotesRepository.ApplyPullResponse` | apps/web/src/local-storage/repository.ts:821-876 | the loop over entries is `ApplyPage` |
| `LocalRepository.LocalNotesRepository.ListRetryableChanges` | apps/web/src/local-storage/repository.ts:620-640 | exactly the workspace's pending and failed changes, sorted |
| `LocalRepository.LocalNotesRepository.FindLatestConflict` | apps/web/src/local-storage/repository.ts:916-927 | the unresolved conflict of the note with the highest version, latest detection and first key, if there is one |
| `LocalRepository.LocalNotesRepository.NextRevision` | apps/web/src/local-storage/repository.ts:1003-1011 | one more than the highest revision of the note and all its changes |
| `LocalRepository.LocalNotesRepository.ResolveConflict` | apps/web/src/local-storage/repository.ts:959-1074 | the transaction is `Resolve`, and it succeeds exactly when it may |
| `LocalRepository.LocalNotesRepository.CommitMigration` | apps/web/src/local-storage/repository.ts:472-540 | the three loops, with rollback at the first changed row or left-over plaintext, are `Commit` |
| `LocalRepository.LocalNotesRepository.CacheServerNoteDetail` | apps/web/src/local-storage/repository.ts:141-168 | the transaction is `CacheDetail`: the note row as a listing caches it, and the version row |
| `EmailClaims.AddressesAreUnique` | apps/api/src/auth/repository.ts:63-81 | after any run at most one account holds an address, case aside, however the database folds the characters beyond ASCII |
| `EmailClaims.VerifiedAccountsStay` | apps/api/src/auth/repository.ts:188-275 | a verified account keeps its id, address, password and verification through any run |
| `EmailClaims.ConfirmationVerifies` | apps/api/src/auth/repository.ts:188-275 | a successful confirmation sets an account's verification time and nothing else of it, or makes a new account with the challenge's address and password; it displaces only an unverified holder and keeps that account, leaves no challenge for the address and every other challenge, and changes nobody else |
| `EmailClaims.ReclaimGivesRequestedPassword` | apps/api/src/auth/repository.ts:151-275 | from request to confirmation, whatever happens in between: a confirmed reclaim gives a new account with the requested address and the requested password, and nobody else's |
| `EmailClaims.VerificationKeepsPassword` | apps/api/src/auth/repository.ts:122-275 | a confirmed account keeps the password it had when verification was requested, at the address that was asked for |
| `EmailClaims.AddressSettlesOnce` | apps/api/src/auth/repository.ts:122-186 | once an address is verified no token ever succeeds for it again |
| `EmailClaims.TokenSucceedsOnce` | apps/api/src/auth/repository.ts:188-275 | a token succeeds at most once, whatever happens afterwards, unless it is issued again |
| `EmailClaims.SucceedsExactly` | apps/api/src/auth/repository.ts:188-275 | a confirmation succeeds if and only if its token is known and unexpired and the account still holds the address unverified, or, for a reclaim, nobody verified it and the new account's id and the displaced holder's new address are free |
| `EmailClaims.FailureLeaves` | apps/api/src/auth/repository.ts:188-275 | a confirmation that fails drops the token exactly where it is expired or, for a reclaim, the address is verified by then, and changes nothing else |
| `EmailClaims.ReclaimRequestStores` | apps/api/src/auth/repository.ts:151-186 | a reclaim is declined exactly where nobody holds the address unverified; issued, it replaces the address's reclaims by one with the requested password, account id, normalized address and expiry, and keeps the rest |
| `EmailClaims.ChallengesAreSingle` | apps/api/src/auth/repository.ts:122-186 | after any run an account has at most one challenge to verify it and an address at most one to reclaim it |
| `AuthRepository.PostgresAuthRepository.ConsumeEmailVerification` | apps/api/src/auth/repository.ts:188-275 | the statements, with rollback where an insert or a rename collides, compute `Consume` |
| `AuthRepository.PostgresAuthRepository.ReplaceAccountEmailVerification` | apps/api/src/auth/repository.ts:122-149 | the statements compute `IssueAccount` |
| `AuthRepository.PostgresAuthRepository.ReplacePendingEmailReclaim` | apps/api/src/auth/repository.ts:151-186 | the statements compute `IssueReclaim` |
| `AuthRepository.PostgresAuthRepository.CreateUser` | apps/api/src/auth/repository.ts:63-81 | any unique violation answers null and changes nothing |
| `IdentityChain.AcceptedExactly` | apps/api/src/identities/repository.ts:84-151 | a bundle is accepted if and only if it is the next of its user's chain, names its predecessor's hash, keeps the key at the same version or raises the version by one, and agrees with the key on record; nothing changes otherwise |
| `IdentityChain.RefusalsExactly` | apps/api/src/identities/repository.ts:84-151 | what a bundle that is not accepted is told: a wrong hash, the newest one already, another one at its sequence, or out of sequence |
| `IdentityChain.RunKeepsInv` | apps/api/src/identities/repository.ts:84-151 | chains are numbered and hash-linked in every reachable state, only grow at the end, and recorded keys never change |
| `IdentityChain.VersionsRise` | apps/api/src/identities/repository.ts:104-112 | along a chain key versions never go back or skip, and bundles of one version have one key and one fingerprint |
| `IdentityChain.HashPinsHistory` | apps/api/src/identities/repository.ts:104-107 | a bundle hash vouches for its history: two chains that hold the same bundle are the same up to it |
| `IdentityChain.ServersAgree` | apps/api/src/identities/repository.ts:84-151 | whatever two servers were sent since they were empty, where they show the same bundle hash they show the same user's same history up to it |
| `IdentityChain.RegisterAgainKeeps` | apps/api/src/identities/repository.ts:98-103 | registering the newest bundle again changes nothing and answers with it |
| `IdentityRepository.PostgresIdentityRepository.Register` | apps/api/src/identities/repository.ts:84-151 | the statements compute `Insert` |
| `Membership.RunKeepsInv` | apps/api/src/workspaces/repository.ts:314-568 | under any interleaving of transactions every workspace has an owner and every unrevoked share belongs to a member |
| `Membership.LastOwnerExactly` | apps/api/src/workspaces/repository.ts:478-568 | an owner's demotion or removal of a member goes through exactly when another owner remains or the target stays an owner |
| `Membership.RunKeepsServiceInv` | apps/api/src/workspaces/service.ts:125-281 | with service calls as steps every unrevoked share is addressed to its member at the member's current role, from and to bundles on record |
| `Membership.OwnShareIsReadable` | apps/api/src/workspaces/service.ts:228-243 | a stored share can always be read back with its sender's bundle, however far the sender's chain has grown |
| `Membership.OwnShareExactly` | apps/api/src/workspaces/service.ts:228-243 | a share is returned exactly to a member with an unrevoked one, with the bundle of its sender at its sequence and fingerprint; an outsider, a member without or with a revoked share, and a missing bundle get their own errors |
| `Membership.AddAnswersExactly` | apps/api/src/workspaces/service.ts:125-172 | what an owner is told when adding a member, for each check in order, down to success |
| `Membership.AddsExactly` | apps/api/src/workspaces/service.ts:125-172 | a member is added if and only if the actor owns the workspace, the target is verified and no member yet, and a valid share for exactly this role and both current bundles uses a fresh operation id; otherwise nothing changes |
| `Membership.PutAnswersExactly` | apps/api/src/workspaces/service.ts:194-226 | the same when replacing a share |
| `Membership.PutsExactly` | apps/api/src/workspaces/service.ts:194-226 | a share is replaced if and only if the actor owns the workspace, the target is a member and the valid share fits the member's current role and both current bundles; only that share changes |
| `Membership.PutKeyShareRace` | apps/api/src/workspaces/service.ts:210-221 | a demotion in that window leaves an unrevoked share at the old role |
| `WorkspaceRepository.PostgresWorkspaceRepository.AddMember` | apps/api/src/workspaces/repository.ts:314-369 | membership and share are written together or not at all |
| `WorkspaceRepository.PostgresWorkspaceRepository.PutKeyShare` | apps/api/src/workspaces/repository.ts:371-417 | the statements compute `PutKeyShare` |
| `WorkspaceRepository.PostgresWorkspaceRepository.UpdateMemberRole` | apps/api/src/workspaces/repository.ts:478-524 | the statements compute `UpdateMemberRole`, revoking the share exactly when the role changes |
| `WorkspaceRepository.PostgresWorkspaceRepository.RemoveMember` | apps/api/src/workspaces/repository.ts:526-568 | the share is revoked and the membership deleted |
| `WorkspaceRepository.PostgresWorkspaceRepository.CountOwners` | apps/api/src/workspaces/repository.ts:496-503 | the count is the number of owners |
| `Base64.DecodeUndoesEncode` | packages/crypto/src/encoding.ts:5-11 | encoded bytes match the pattern and decode to the same bytes |
| `Base64.EncodeUndoesDecode` | packages/crypto/src/encoding.ts:25-34 | encoding undoes lenient decoding exactly on texts whose pad bits are zero |
| `Base64.CanonicalTextIsEncoding` | packages/crypto/src/encoding.ts:13-43 | a text is accepted if and only if it is the encoding of some non-empty byte string |
| `CodecTexts.GroupsKeepTheirBits` | packages/crypto/src/encoding.ts:5-11 | three bytes and their four symbols of the standard alphabet are the same 24-bit number, first bits highest (section 4 of RFC 4648) |
| `CodecTexts.TailsKeepTheirBits` | packages/crypto/src/encoding.ts:5-11 | one byte left over gives two symbols and two pads, two give three and one, filled with zero bits |
| `Base64.NonZeroPadBitsAreRefused` | packages/crypto/src/encoding.ts:32-34 | text with non-zero pad bits is refused |
| `Base64.EncodeBase64` | packages/crypto/src/encoding.ts:5-11 | the loop over bytes computes the encoding |
| `Base64.DecodeBase64` | packages/crypto/src/encoding.ts:13-43 | accepts exactly non-empty text of the pattern with zero pad bits, and returns the bytes whose encoding it is |
| `CanonicalBytes.NoteDataInjective` | packages/crypto/src/content-aad.ts:82-104 | equal note data mean the same envelope version and, at version 2, the same workspace, note and revision |
| `CanonicalBytes.CommentDataInjective` | packages/crypto/src/content-aad.ts:106-130 | equal comment data mean the same version and, at version 2, the same five fields |
| `CanonicalBytes.NoteAndCommentDataDisjoint` | packages/crypto/src/content-aad.ts:76-130 | no note data is comment data, at any two versions |
| `CodecTexts.CommentDataText` | packages/crypto/src/content-aad.ts:106-130 | comment data is the array of the tag, versions, algorithm and five fields, with null for no parent, and exists exactly for UUIDs; version 1 data names nothing |
| `CodecTexts.UuidIsExactly` | packages/crypto/src/content-aad.ts:11-20 | the ids accepted are five groups of 8, 4, 4, 4 and 12 lower-case hexadecimal digits with dashes, a version digit and a variant digit |
| `CanonicalBytes.BundleTextInjective` | packages/crypto/src/identity-bundle.ts:92-109 | equal bundle bytes mean equal bundles |
| `CanonicalBytes.ShareTextInjective` | packages/crypto/src/workspace-key-share.ts:27-39 | equal share bytes mean equal shares |
| `CanonicalBytes.LabelTextBinds` | packages/crypto/src/workspace-key-share.ts:41-49 | wrap labels are equal if and only if the labelled fields are |
| `CanonicalBytes.PurposesAreDisjoint` | packages/crypto/src/workspace-key-share.ts:27-49 | bytes signed for one purpose are never bytes signed or authenticated for another |
| `JsonArray.ReadPrintedArray` | packages/crypto/src/content-aad.ts:76-80 | reading a printed array returns its fields (arrays and strings as RFC 8259 prints them) |
| `CodecTexts.ArrayText` | packages/crypto/src/content-aad.ts:76-80 | a printed array is its printed fields in brackets with commas between them |
| `CodecTexts.ObjectText` | apps/api/src/sync/service.ts:144-147 | a printed object is its members in braces with commas between them |
| `Json.ReadQuoted` | packages/crypto/src/content-aad.ts:76-80 | a printed string is self-delimiting and reads back, whatever characters it holds |
| `CodecTexts.VerbatimQuotes` | packages/crypto/src/content-aad.ts:76-80 | a string without quotes, backslashes and controls prints as itself in quotes |
| `Text.DecimalRoundTrip` | apps/api/src/sync/repository.ts:209-221 | a revision's text is canonical and reads back to the revision |
| `CodecTexts.DecimalDigits` | apps/api/src/sync/repository.ts:209-221 | the decimal text of ten times n and a digit is n's, where there is any, and then the digit |
| `Text.ParsedPrints` | apps/web/src/local-storage/notePayloadCrypto.ts:67-75 | a canonical text prints back to itself, so text and number determine each other |
| `SafetyNumber.VerificationCodeInjective` | packages/crypto/src/identity-bundle.ts:260-272 | equal verification codes mean the same identity, field by field |
| `CodecTexts.VerificationCodeText` | packages/crypto/src/identity-bundle.ts:260-272 | a verification code is its prefix and the base64url text of the array of tag, version 1 and the six fields |
| `SafetyNumber.SafetyNumberOf` | packages/crypto/src/identity-bundle.ts:274-279 | the loop over the digest shows its big-endian value |
| `SafetyNumber.SameNumberExactly` | packages/crypto/src/identity-bundle.ts:274-279 | two values show the same number if and only if they agree modulo 10^60 |
| `SafetyNumber.NumberShows` | packages/crypto/src/identity-bundle.ts:274-279 | the number is twelve groups of five digits with a space between two, and its sixty digits read back to the value modulo 10^60 |
| `SafetyNumber.BigEndianWeighs` | packages/crypto/src/identity-bundle.ts:276-277 | the digest's value: each byte counts 256 times more for each byte that follows it |
| `Resolution.CacheKeepsWork` | apps/web/src/local-storage/repository.ts:1088-1112 | case table: listing a note from the server keeps base and deletion flag of a note with local revisions, and every payload and revision |
| `Resolution.ConflictStopsLaterWork` | apps/web/src/local-storage/repository.ts:783-810 | case table: a conflict answer stops the answered change and exactly the later outstanding changes of its note, and touches no note and no other change |
| `Resolution.ConflictIsRecorded` | apps/web/src/local-storage/repository.ts:1260-1304 | case table: each stopped change gets an unresolved record of it as it was against the answered version; all other records stay |
| `Resolution.ResolveTouchesOneNote` | apps/web/src/local-storage/repository.ts:1026-1056 | case table: no other note's rows change, nor finished changes of this one |
| `ServerTheorems.RefusedExactly` | apps/api/src/sync/repository.ts:316-390 | case table: it is refused if and only if its user may not do it, with the right reason, and a refusal changes nothing |
| `ServerTheorems.AcceptedLeaves` | apps/api/src/sync/repository.ts:346-435 | case table: an accepted operation leaves its note at the new version with its content, or deleted at its base, one log entry of its user, and everything else untouched |
| `Membership.ChangesRevoke` | apps/api/src/workspaces/repository.ts:478-568 | case table: a role change leaves an unrevoked share exactly if there was one and the role stays; a removal leaves none |
| `Membership.PutKeyShareWindow` | apps/api/src/workspaces/service.ts:210-221 | case table: with other calls between check and transaction, the stored share agrees with the member's role exactly if the role is still the one checked |
| `SyncService.AnswerSays` | apps/api/src/sync/service.ts:176-203 | case table: the answer to each outcome of an operation, new or repeated |
| `ServerTheorems.ThrowsLeaveNothing` | apps/api/src/sync/repository.ts:276-314 | case table: a throw and a repeat change nothing |
| `Rights.CreateForbiddenExactly` | apps/api/src/sync/repository.ts:316-331 | case table: a new create is forbidden exactly to outsiders and viewers |
| `Rights.ChangeForbiddenExactly` | apps/api/src/sync/repository.ts:367-397 | case table: of a live note, a new update is forbidden exactly to viewers and a new deletion exactly to all but owners; an outsider is told there is no such note |
| `Rights.DirectCreateStores` | apps/api/src/notes/repository.ts:187-239 | case table: the direct create, row by row |
| `Rights.DirectDeleteMarks` | apps/api/src/notes/repository.ts:375-405 | case table: the direct delete, row by row |
| `SyncRun.SendLeaves` | apps/web/src/sync/engine.ts:92-103 | case table: what sending leaves on both sides for each fault |
| `SyncRun.ListsExactly` | apps/web/src/local-storage/repository.ts:620-640 | case table: the changes a run lists, and their order |
| `LocalEffects.CreateLeaves` | apps/web/src/local-storage/repository.ts:171-212 | case table: the rows a create writes |
| `LocalEffects.EditLeaves` | apps/web/src/local-storage/repository.ts:228-260 | case table: the rows an edit writes, for a reused and for a new change |
| `LocalEffects.DeleteLeaves` | apps/web/src/local-storage/repository.ts:276-295 | case table: the rows a deletion writes |
| `LocalEffects.BeginLeaves` | apps/web/src/local-storage/repository.ts:677-704 | case table: which candidate is started, and how |
| `LocalEffects.FailLeaves` | apps/web/src/local-storage/repository.ts:706-731 | case table: which attempts are failed |
| `LocalEffects.StorePayloadLeaves` | apps/web/src/local-storage/repository.ts:652-675 | case table: when an encrypted payload is stored |
| `LocalEffects.RefusalLeaves` | apps/web/src/local-storage/repository.ts:733-760 | case table: a rejected or missing answer fails the attempt alone |
| `LocalEffects.AcceptanceLeaves` | apps/web/src/local-storage/repository.ts:760-781 | case table: what an acceptance does to each change |
| `LocalEffects.AcceptanceMovesNote` | apps/web/src/local-storage/repository.ts:1306-1340 | case table: what an acceptance does to the note and the cached versions |
| `LocalEffects.ConflictLeaves` | apps/web/src/local-storage/repository.ts:783-810 | case table: what a conflict answer does to each change |
| `LocalEffects.PulledOverClean` | apps/web/src/local-storage/repository.ts:1355-1375 | case table: a pulled entry of any other note moves it, and nothing else |
| `LocalEffects.CacheLeaves` | apps/web/src/local-storage/repository.ts:1088-1112 | case table: a listed note, with and without local revisions |
| `LocalEffects.LatestIsExactly` | apps/web/src/local-storage/repository.ts:916-927 | case table: the order of unresolved conflicts |
| `LocalEffects.ResolutionQueues` | apps/web/src/local-storage/repository.ts:993-995 | case table: the envelope each action queues |
| `LocalEffects.ResolveLeaves` | apps/web/src/local-storage/repository.ts:1012-1074 | case table: the rows a resolution writes |
| `LocalEffects.WireDetermines` | apps/web/src/sync/engine.ts:30-40 | case table: what is sent of a change |
| `EmailClaims.RegisterStores` | apps/api/src/auth/repository.ts:63-81 | case table: registering stores the account as given exactly if id and address are free |
| `EmailClaims.VerificationRequestStores` | apps/api/src/auth/repository.ts:122-149 | case table: what a verification request stores and when it is declined |
| `Membership.CreateGives` | apps/api/src/workspaces/repository.ts:196-223 | case table: a new workspace is its creator's |
| `Membership.OnlyOwnersServe` | apps/api/src/workspaces/service.ts:289-300 | case table: service calls on members are refused to all but owners, and a refusal changes nothing |
| `Envelopes.SealsExactly` | apps/web/src/local-storage/notePayloadCrypto.ts:18-53 | case table: when sealing succeeds and what envelope it gives |
| `Envelopes.OpensExactly` | apps/web/src/local-storage/notePayloadCrypto.ts:35-53 | case table: what opens, and to what |
| `Envelopes.CachedOpensExactly` | apps/web/src/local-storage/notePayloadCrypto.ts:55-93 | case table: what opens of a cached version |
| `CodecTexts.NoteDataText` | packages/crypto/src/content-aad.ts:82-104 | case table: note data, written out, and when there is none |
| `CodecTexts.EscapesAre` | packages/crypto/src/content-aad.ts:76-80 | case table: the escapes of a printed string |
| `CodecTexts.DocumentText` | apps/web/src/local-storage/notePayloadCrypto.ts:10-34 | case table: the text of a document |
| `LocalEffects.CacheDetailLeaves` | apps/web/src/local-storage/repository.ts:141-168 | case table: an opened note and its cached version |
| `SealedWork.EncryptingIntends` | apps/web/src/local-storage/repository.ts:214-274 | case table: which document each encrypting operation leaves with which change |
| `EmailClaims.FoldsAscii` | apps/api/src/auth/email.ts:5-10 | case table: the case of ASCII letters |

## Left out

- Other users' rows in the browser's tables: one user's tables are modelled; every query of the source filters by user.
- Titles, creation and update times other than those that order or tie-break, last errors, attempt times, client ids in
  the metadata, the base version snapshot of a conflict and change ids of log entries: carried along, never decided on.
- `SyncSafety.AcceptedVersionsOpen`: what keep_local queues where a local envelope is stored is not among its promises,
  because it opens only if that envelope is of version 1.
- `KeepLocal.KeepLocalInAnyRun`: an envelope handed to the local repository directly, past the operations that encrypt,
  is taken to be sealed for at most the revision it is stored under, and so are the envelopes the device starts with;
  every encrypting operation of the source does so.
- `RemoteVersions.ConflictsShowServerVersions`: a page and an opened detail are taken to show versions as the server stored them then or before,
  which the model's own pull answers do (`RemoteVersions.PagesAreServed`).
- `MigrationSafety.MigrationKeepsMeaning`: plaintext of an unsupported shape, which makes the migration throw, is not
  represented. `deleteLegacyPlaintextWorkspace` is not modelled.
- The stored rows a run starts from are those an earlier version of the application may have left: well formed, each
  row in its note's workspace, nothing marked `synced` that the server does not store. A page or a listing from the
  server names a note's own workspace.
- `SyncEngine.NoteSyncEngine.RunSync`: starts after the run's migration and encryption of queued plaintext; two tabs
  syncing at once and the table of active syncs are not modelled.
- `CursorText.CursorRoundTrip`: workspace ids are ASCII; other spellings of the same object that a lenient base64url or
  JSON reader accepts (white space, escapes, foreign characters) are refused by the model's reader.
- UTF-8: canonical bytes are modelled as the text they encode; UTF-8 is injective on well-formed text. Lengths of
  titles and bodies count characters where the source counts UTF-16 units, and lone surrogates are not considered.
- `EmailClaims.AddressesAreUnique`: `lower` turns one character into one, ASCII letters as usual, and changes nothing the
  second time, as the schema's check on normalized addresses expects.
- Foreign keys from operations, shares and bundles to users and keys, the check constraints of the schema, and
  sequence numbers assigned before commit.
- Sessions, passwords, rate limits, comments, offline caches of users and workspaces, pins, key protection and recovery
  kits, and the internals of RSA, ECDSA, PBKDF2, AES-GCM and SHA-256.
- `Membership.OwnShareIsReadable`: shares of protocol version 1 are not modelled; whether a signature verifies is a parameter.
- What the user interface shows after a pull, and liveness across crashes, which the code does not promise.
