/** The browser's tables of one user and what each Dexie transaction does to them, as functions.
    A transaction that throws leaves the tables as they were. */
module LocalStore {
  import opened Wrappers
  import opened Envelopes
  import opened SyncTypes

  datatype Status = Pending | Syncing | Failed | Conflicted | Resolved | Synced

  datatype PendingChange = PendingChange(
    id: Id, noteId: Id, workspaceId: Id, kind: OperationKind, base: Option<Id>, payload: Option<Envelope>,
    legacy: Option<Document>, revision: nat, createdAt: int, attempts: nat, status: Status)

  datatype LocalNote = LocalNote(
    id: Id, workspaceId: Id, base: Option<Id>, deleted: bool, payload: Option<Envelope>, legacy: Option<Document>,
    revision: nat)

  datatype Action = KeepLocal | AcceptRemote(remote: Document) | ManualMerge(merged: Document)

  datatype ConflictKey = ConflictKey(changeId: Id, versionId: Id)

  datatype Settlement = Unresolved | Settled(action: Action, changeId: Id)

  datatype LocalConflict = LocalConflict(
    noteId: Id, workspaceId: Id, base: Option<Id>, remote: CachedVersion, payload: Option<Envelope>,
    legacy: Option<Document>, revision: nat, detectedAt: int, settlement: Settlement,
    resolved: Option<Envelope>, resolvedLegacy: Option<Document>)

  datatype Store = Store(
    notes: map<Id, LocalNote>, changes: map<Id, PendingChange>, conflicts: map<ConflictKey, LocalConflict>,
    versions: map<Id, CachedVersion>, cursors: map<Id, Cursor>)

  /** `wireChange` */
  function Wire(c: PendingChange): PushChange {
    PushChange(c.id, c.kind, c.noteId, c.base, c.revision, c.createdAt, c.payload)
  }

  /** The metadata a change's payload is sealed under. */
  function ChangeContext(c: PendingChange): Context {
    Context(c.workspaceId, c.noteId, c.revision)
  }

  predicate Outstanding(c: PendingChange) {
    c.status != Resolved && c.status != Synced
  }

  predicate Retryable(c: PendingChange) {
    c.status == Pending || c.status == Failed
  }

  /** `listRetryableChanges` orders by creation time, then by revision. */
  predicate Before(a: PendingChange, b: PendingChange) {
    a.createdAt < b.createdAt || (a.createdAt == b.createdAt && a.revision <= b.revision)
  }

  // ---- Notes written by the user ----

  function NewChange(id: Id, kind: OperationKind, note: LocalNote, payload: Option<Envelope>, now: int): PendingChange {
    PendingChange(id, note.id, note.workspaceId, kind, note.base, payload, None, note.revision, now, 0, Pending)
  }

  predicate IsSpace(c: char) {
    var u := c as int;
    u in {9, 10, 11, 12, 13, 32, 160, 5760, 8232, 8233, 8239, 8287, 12288, 65279} || 8192 <= u <= 8202
  }

  /** `validateLocalPayload` */
  predicate ValidDocument(d: Document) {
    (exists k :: 0 <= k < |d.title| && !IsSpace(d.title[k])) && |d.title| <= 200 && |d.body| <= 1000000
  }

  /** The row `upsertPendingChange` reuses: a retryable change of this kind on this note. */
  predicate Reusable(s: Store, noteId: Id, kind: OperationKind, id: Id) {
    id in s.changes && s.changes[id].noteId == noteId && s.changes[id].kind == kind && Retryable(s.changes[id])
  }

  predicate ReuseChoice(s: Store, noteId: Id, kind: OperationKind, existing: Option<Id>) {
    match existing
    case Some(id) => Reusable(s, noteId, kind, id)
    case None => forall id :: id in s.changes ==> !Reusable(s, noteId, kind, id)
  }

  predicate CanCreate(s: Store, noteId: Id, d: Document, changeId: Id) {
    ValidDocument(d) && noteId !in s.notes && changeId !in s.changes
  }

  /** `createNote` */
  function Create(s: Store, workspaceId: Id, noteId: Id, d: Document, e: Envelope, changeId: Id, now: int): Store {
    if !CanCreate(s, noteId, d, changeId) then s
    else
      var note := LocalNote(noteId, workspaceId, None, false, Some(e), None, 1);
      s.(notes := s.notes[noteId := note],
         changes := s.changes[changeId := NewChange(changeId, CreateNote, note, Some(e), now)])
  }

  /** `upsertPendingChange`, for a note whose revision has just been raised. */
  function Upsert(s: Store, kind: OperationKind, note: LocalNote, payload: Option<Envelope>, existing: Option<Id>,
                  changeId: Id, now: int): map<Id, PendingChange>
    requires existing.Some? ==> existing.value in s.changes
  {
    match existing
    case Some(id) =>
      s.changes[id := s.changes[id].(base := note.base, payload := payload, legacy := None, revision := note.revision,
                                     status := Pending)]
    case None => s.changes[changeId := NewChange(changeId, kind, note, payload, now)]
  }

  predicate Active(s: Store, noteId: Id) {
    noteId in s.notes && !s.notes[noteId].deleted
  }

  predicate CanUpsert(s: Store, noteId: Id, kind: OperationKind, existing: Option<Id>, changeId: Id) {
    Active(s, noteId) && ReuseChoice(s, noteId, kind, existing) && (existing.None? ==> changeId !in s.changes)
  }

  /** `editNote` */
  function Edit(s: Store, noteId: Id, d: Document, e: Envelope, expected: Option<nat>, existing: Option<Id>,
                changeId: Id, now: int): Store {
    if !ValidDocument(d) || !CanUpsert(s, noteId, UpdateNote, existing, changeId)
       || (expected.Some? && expected.value != s.notes[noteId].revision) then s
    else
      var note := s.notes[noteId].(payload := Some(e), legacy := None, revision := s.notes[noteId].revision + 1);
      s.(notes := s.notes[noteId := note], changes := Upsert(s, UpdateNote, note, Some(e), existing, changeId, now))
  }

  /** `deleteNote` */
  function Delete(s: Store, noteId: Id, existing: Option<Id>, changeId: Id, now: int): Store {
    if !CanUpsert(s, noteId, DeleteNote, existing, changeId) then s
    else
      var note := s.notes[noteId].(deleted := true, revision := s.notes[noteId].revision + 1);
      s.(notes := s.notes[noteId := note], changes := Upsert(s, DeleteNote, note, None, existing, changeId, now))
  }

  // ---- Sync attempts ----

  /** `storeEncryptedPayload` */
  function StorePayload(s: Store, id: Id, revision: nat, e: Envelope): Store {
    if id !in s.changes || s.changes[id].revision != revision || !Retryable(s.changes[id]) then s
    else s.(changes := s.changes[id := s.changes[id].(payload := Some(e), legacy := None)])
  }

  predicate CanBegin(s: Store, candidate: PendingChange) {
    candidate.id in s.changes && s.changes[candidate.id].revision == candidate.revision
    && Retryable(s.changes[candidate.id])
  }

  /** `beginSyncAttempt` for one candidate, and the changes it started. */
  function Begin(s: Store, candidate: PendingChange): (Store, seq<PendingChange>) {
    if !CanBegin(s, candidate) then (s, [])
    else
      var started := s.changes[candidate.id].(attempts := s.changes[candidate.id].attempts + 1, status := Syncing);
      (s.(changes := s.changes[candidate.id := started]), [started])
  }

  function BeginAll(s: Store, candidates: seq<PendingChange>): (Store, seq<PendingChange>)
    decreases |candidates|
  {
    if candidates == [] then (s, [])
    else
      var (s1, first) := Begin(s, candidates[0]);
      var (s2, others) := BeginAll(s1, candidates[1..]);
      (s2, first + others)
  }

  /** `markSyncAttemptFailed` */
  function FailAll(s: Store, attempted: seq<PendingChange>): Store {
    s.(changes := map id | id in s.changes ::
         var c := s.changes[id];
         if c.status == Syncing && (exists k :: 0 <= k < |attempted| && attempted[k].id == id && attempted[k].revision == c.revision)
         then c.(status := Failed) else c)
  }

  /** `failCurrentChange` */
  function FailOne(s: Store, id: Id): Store {
    if id in s.changes && s.changes[id].status == Syncing
    then s.(changes := s.changes[id := s.changes[id].(status := Failed)]) else s
  }

  // ---- Conflicts ----

  function ConflictRow(c: PendingChange, workspaceId: Id, remote: Version, now: int): LocalConflict {
    LocalConflict(c.noteId, workspaceId, c.base, Cached(workspaceId, remote), c.payload, c.legacy, c.revision, now,
                  Unresolved, None, None)
  }

  function ConflictRows(changes: map<Id, PendingChange>, ids: set<Id>, workspaceId: Id, remote: Version, now: int): map<ConflictKey, LocalConflict>
    requires ids <= changes.Keys
  {
    map id | id in ids :: ConflictKey(id, remote.id) := ConflictRow(changes[id], workspaceId, remote, now)
  }

  function MarkConflicted(changes: map<Id, PendingChange>, ids: set<Id>): map<Id, PendingChange> {
    map id | id in changes :: if id in ids && Outstanding(changes[id]) then changes[id].(status := Conflicted) else changes[id]
  }

  /** `recordConflict` for each of `ids` against one remote version. */
  function RecordConflicts(s: Store, ids: set<Id>, workspaceId: Id, remote: Version, now: int): Store
    requires ids <= s.changes.Keys
  {
    s.(versions := s.versions[remote.id := Cached(workspaceId, remote)],
       conflicts := s.conflicts + ConflictRows(s.changes, ids, workspaceId, remote, now),
       changes := MarkConflicted(s.changes, ids))
  }

  predicate Later(c: PendingChange, than: PendingChange) {
    c.noteId == than.noteId && c.id != than.id && c.revision > than.revision && Outstanding(c)
  }

  /** The changes a conflict answer spreads to, besides the one it answers. */
  function Spread(s: Store, current: PendingChange): set<Id> {
    set id | id in s.changes && Later(s.changes[id], current) && s.changes[id].status != Conflicted
  }

  /** `rebaseAcceptedDescendants` */
  function Rebase(s: Store, pushed: PendingChange, versionId: Id): Store {
    s.(notes := if pushed.noteId in s.notes
                then s.notes[pushed.noteId := s.notes[pushed.noteId].(base := Some(versionId))] else s.notes,
       changes := map id | id in s.changes ::
         if Later(s.changes[id], pushed) && s.changes[id].base == pushed.base
         then s.changes[id].(base := Some(versionId)) else s.changes[id])
  }

  predicate AnswersRevision(s: Store, pushed: PendingChange) {
    pushed.id in s.changes && s.changes[pushed.id].revision == pushed.revision && s.changes[pushed.id].status == Syncing
  }

  function ApplyAccepted(s: Store, workspaceId: Id, pushed: PendingChange, v: Version): Store
    requires pushed.id in s.changes
  {
    var s1 := s.(versions := s.versions[v.id := Cached(workspaceId, v)]);
    var s2 := if AnswersRevision(s1, pushed)
              then s1.(changes := s1.changes[pushed.id := s1.changes[pushed.id].(status := Synced)]) else s1;
    Rebase(s2, pushed, v.id)
  }

  /** `applyPushResults` for one attempted change; None when the server omitted its result. */
  function ApplyResult(s: Store, workspaceId: Id, pushed: PendingChange, r: Option<PushResult>, now: int): Store {
    if pushed.id !in s.changes then s
    else if r.None? then FailOne(s, pushed.id)
    else
      match r.value
      case Accepted(_, _, v) => ApplyAccepted(s, workspaceId, pushed, v)
      case DuplicateAccepted(_, _, v) => ApplyAccepted(s, workspaceId, pushed, v)
      case Conflict(_, _, v) => RecordConflicts(s, {pushed.id} + Spread(s, s.changes[pushed.id]), workspaceId, v, now)
      case DuplicateConflict(_, _, v) => RecordConflicts(s, {pushed.id} + Spread(s, s.changes[pushed.id]), workspaceId, v, now)
      case Rejected(_, _) => FailOne(s, pushed.id)
  }

  /** The answer to an operation: the last one with its id. */
  function ResultFor(results: seq<PushResult>, id: Id): Option<PushResult> {
    if results == [] then None
    else if results[|results| - 1].operationId == id then Some(results[|results| - 1])
    else ResultFor(results[..|results| - 1], id)
  }

  function ApplyResults(s: Store, workspaceId: Id, attempted: seq<PendingChange>, results: seq<PushResult>, now: int): Store
    decreases |attempted|
  {
    if attempted == [] then s
    else ApplyResults(ApplyResult(s, workspaceId, attempted[0], ResultFor(results, attempted[0].id), now),
                      workspaceId, attempted[1..], results, now)
  }

  // ---- Pulling ----

  function Waiting(s: Store, noteId: Id): set<Id> {
    set id | id in s.changes && s.changes[id].noteId == noteId && Outstanding(s.changes[id])
  }

  /** `putRemoteNote` */
  function PutRemote(s: Store, note: Note, versionId: Id): Store {
    var row :=
      if note.id in s.notes
      then s.notes[note.id].(workspaceId := note.workspaceId, base := Some(versionId), deleted := note.deleted)
      else LocalNote(note.id, note.workspaceId, Some(versionId), note.deleted, None, None, 0);
    s.(notes := s.notes[note.id := row])
  }

  /** The outstanding changes on a pulled note that are based on another version. */
  function Diverging(s: Store, p: PullChange): set<Id> {
    set id | id in Waiting(s, p.note.id) && s.changes[id].status != Conflicted && s.changes[id].base != Some(p.version.id)
  }

  function ApplyPulled(s: Store, workspaceId: Id, p: PullChange, now: int): Store {
    if Waiting(s, p.note.id) != {} then RecordConflicts(s, Diverging(s, p), workspaceId, p.version, now)
    else PutRemote(s.(versions := s.versions[p.version.id := Cached(workspaceId, p.version)]), p.note, p.version.id)
  }

  function ApplyPulledAll(s: Store, workspaceId: Id, ps: seq<PullChange>, now: int): Store
    decreases |ps|
  {
    if ps == [] then s else ApplyPulledAll(ApplyPulled(s, workspaceId, ps[0], now), workspaceId, ps[1..], now)
  }

  /** `applyPullResponse` */
  function ApplyPage(s: Store, page: PullPage, now: int): Store {
    var s1 := ApplyPulledAll(s, page.workspaceId, page.changes, now);
    s1.(cursors := s1.cursors[page.workspaceId := page.next])
  }

  /** `cacheServerNote`: a note with local revisions keeps its base and deletion flag. */
  function CacheNote(s: Store, note: Note): Store {
    var row :=
      if note.id !in s.notes then LocalNote(note.id, note.workspaceId, Some(note.current), note.deleted, None, None, 0)
      else if s.notes[note.id].revision > 0 then s.notes[note.id].(workspaceId := note.workspaceId)
      else s.notes[note.id].(workspaceId := note.workspaceId, base := Some(note.current), deleted := note.deleted);
    s.(notes := s.notes[note.id := row])
  }

  /** `cacheServerNoteDetail` */
  function CacheDetail(s: Store, note: Note, v: Version): Store {
    CacheNote(s, note).(versions := s.versions[v.id := Cached(note.workspaceId, v)])
  }

  // ---- Resolution ----

  predicate OpenConflict(s: Store, key: ConflictKey, noteId: Id) {
    key in s.conflicts && s.conflicts[key].noteId == noteId && s.conflicts[key].settlement == Unresolved
  }

  /** Newest remote version first, then latest detection, then key order. */
  predicate Precedes(a: ConflictKey, ca: LocalConflict, b: ConflictKey, cb: LocalConflict) {
    if ca.remote.number != cb.remote.number then ca.remote.number > cb.remote.number
    else if ca.detectedAt != cb.detectedAt then ca.detectedAt > cb.detectedAt
    else if a.changeId != b.changeId then a.changeId < b.changeId
    else a.versionId <= b.versionId
  }

  /** `getUnresolvedConflictForNote` returns this conflict. */
  predicate IsLatest(s: Store, key: ConflictKey, noteId: Id) {
    OpenConflict(s, key, noteId)
    && forall k :: k in s.conflicts && OpenConflict(s, k, noteId) ==> Precedes(key, s.conflicts[key], k, s.conflicts[k])
  }

  function ChangesOf(s: Store, noteId: Id): set<Id> {
    set id | id in s.changes && s.changes[id].noteId == noteId
  }

  /** Above the note's revision and the revision of every one of its changes, and no higher. */
  predicate IsNextRevision(s: Store, noteId: Id, r: nat)
    requires noteId in s.notes
  {
    && r > s.notes[noteId].revision
    && (forall id :: id in ChangesOf(s, noteId) ==> r > s.changes[id].revision)
    && (r == s.notes[noteId].revision + 1 || exists id :: id in ChangesOf(s, noteId) && r == s.changes[id].revision + 1)
  }

  predicate ValidAction(a: Action) {
    match a
    case KeepLocal => true
    case AcceptRemote(d) => ValidDocument(d)
    case ManualMerge(d) => ValidDocument(d)
  }

  /** The envelope a resolution stores: keep_local takes the stored local one where there is one. */
  function ResolutionPayload(note: LocalNote, c: LocalConflict, a: Action, e: Option<Envelope>): Option<Envelope> {
    if a.KeepLocal? then
      if note.payload.Some? then note.payload else if c.payload.Some? then c.payload else e
    else e
  }

  predicate CanResolve(s: Store, key: ConflictKey, a: Action, e: Option<Envelope>, next: nat, changeId: Id) {
    && key in s.conflicts
    && IsLatest(s, key, s.conflicts[key].noteId)
    && s.conflicts[key].noteId in s.notes
    && s.notes[s.conflicts[key].noteId].workspaceId == s.conflicts[key].workspaceId
    && ValidAction(a)
    && ResolutionPayload(s.notes[s.conflicts[key].noteId], s.conflicts[key], a, e).Some?
    && IsNextRevision(s, s.conflicts[key].noteId, next)
    && changeId !in s.changes
  }

  /** Every outstanding change of the note becomes `resolved`. */
  function Retire(s: Store, noteId: Id): map<Id, PendingChange> {
    map id | id in s.changes ::
      if s.changes[id].noteId == noteId && Outstanding(s.changes[id]) then s.changes[id].(status := Resolved) else s.changes[id]
  }

  /** Every unresolved record of the note is settled by the new change. */
  function Settle(s: Store, noteId: Id, a: Action, changeId: Id, payload: Option<Envelope>): map<ConflictKey, LocalConflict> {
    map k | k in s.conflicts ::
      if OpenConflict(s, k, noteId)
      then s.conflicts[k].(settlement := Settled(a, changeId), resolved := payload, resolvedLegacy := None)
      else s.conflicts[k]
  }

  /** `resolveConflict`, where `next` is the revision it computes. */
  function Resolve(s: Store, key: ConflictKey, a: Action, e: Option<Envelope>, expected: Option<nat>, next: nat,
                   changeId: Id, now: int): Store {
    if !CanResolve(s, key, a, e, next, changeId) then s
    else if expected.Some? && expected.value != next then s
    else
      var c := s.conflicts[key];
      var payload := ResolutionPayload(s.notes[c.noteId], c, a, e);
      var note := s.notes[c.noteId].(base := Some(c.remote.id), deleted := false, payload := payload, legacy := None, revision := next);
      s.(notes := s.notes[c.noteId := note],
         changes := Retire(s, c.noteId)[changeId := NewChange(changeId, UpdateNote, note, payload, now)],
         conflicts := Settle(s, c.noteId, a, changeId, payload))
  }

  // ---- Steps ----

  datatype LocalStep =
    | CreateStep(workspaceId: Id, noteId: Id, document: Document, envelope: Envelope, changeId: Id, now: int)
    | EditStep(noteId: Id, document: Document, envelope: Envelope, expected: Option<nat>, existing: Option<Id>, changeId: Id, now: int)
    | DeleteStep(noteId: Id, existing: Option<Id>, changeId: Id, now: int)
    | StorePayloadStep(changeId: Id, revision: nat, envelope: Envelope)
    | BeginStep(candidates: seq<PendingChange>)
    | FailStep(attempted: seq<PendingChange>)
    | ResultsStep(workspaceId: Id, attempted: seq<PendingChange>, results: seq<PushResult>, now: int)
    | PullStep(page: PullPage, now: int)
    | CacheStep(note: Note)
    | CacheDetailStep(note: Note, version: Version)
    | ResolveStep(key: ConflictKey, action: Action, resolution: Option<Envelope>, expected: Option<nat>, next: nat, changeId: Id, now: int)

  /** Any one transaction on the user's tables, with any arguments, answers and pages. */
  function Next(s: Store, step: LocalStep): Store {
    match step
    case CreateStep(w, n, d, e, id, now) => Create(s, w, n, d, e, id, now)
    case EditStep(n, d, e, expected, existing, id, now) => Edit(s, n, d, e, expected, existing, id, now)
    case DeleteStep(n, existing, id, now) => Delete(s, n, existing, id, now)
    case StorePayloadStep(id, revision, e) => StorePayload(s, id, revision, e)
    case BeginStep(candidates) => BeginAll(s, candidates).0
    case FailStep(attempted) => FailAll(s, attempted)
    case ResultsStep(w, attempted, results, now) => ApplyResults(s, w, attempted, results, now)
    case PullStep(page, now) => ApplyPage(s, page, now)
    case CacheStep(note) => CacheNote(s, note)
    case CacheDetailStep(note, v) => CacheDetail(s, note, v)
    case ResolveStep(key, a, e, expected, next, id, now) => Resolve(s, key, a, e, expected, next, id, now)
  }

  function Run(s: Store, steps: seq<LocalStep>): Store
    decreases |steps|
  {
    if steps == [] then s else Run(Next(s, steps[0]), steps[1..])
  }

  const EMPTY: Store := Store(map[], map[], map[], map[], map[])
}
