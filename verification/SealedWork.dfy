/** Which queued payloads open to which documents: every encrypting operation and the plaintext migration leave an
    envelope for the note, workspace and revision its change is pushed with, and no other step disturbs that. */
module SealedWork {
  import opened Wrappers
  import opened Envelopes
  import opened SyncTypes
  import opened LocalStore
  import opened Workspaces
  import Migration

  /** The tables with, for each change, the document its last encrypting operation was given. */
  datatype Work = Work(store: Store, intents: map<Id, Document>)

  datatype WorkStep =
    | CreateEncrypted(workspaceId: Id, noteId: Id, document: Document, nonce: nat, changeId: Id, now: int)
    | EditEncrypted(noteId: Id, document: Document, nonce: nat, revision: nat, existing: Option<Id>, changeId: Id, now: int)
    | ResolveEncrypted(key: ConflictKey, action: Action, payload: Document, nonce: nat, next: nat, changeId: Id, now: int)
    | EncryptQueued(change: PendingChange, nonce: nat)
    | MigratePlaintext(planned: Store, workspaceId: Id, nonces: Migration.Nonces)
    | Plain(step: LocalStep)

  /** What a change authenticates besides its payload, and the payload. */
  predicate SamePayload(c: PendingChange, c': PendingChange) {
    c'.payload == c.payload && c'.revision == c.revision && c'.noteId == c.noteId && c'.workspaceId == c.workspaceId
  }

  function Surviving(w: Work, s': Store): map<Id, Document> {
    map id | id in w.intents && id in w.store.changes && id in s'.changes && SamePayload(w.store.changes[id], s'.changes[id])
      :: w.intents[id]
  }

  function Intend(w: Work, s': Store, id: Id, d: Document): Work {
    Work(s', Surviving(w, s')[id := d])
  }

  /** The local envelope keep_local prefers: the note's, or else the conflict's. */
  function StoredLocal(s: Store, k: ConflictKey): Option<Envelope>
    requires k in s.conflicts && s.conflicts[k].noteId in s.notes
  {
    if s.notes[s.conflicts[k].noteId].payload.Some? then s.notes[s.conflicts[k].noteId].payload else s.conflicts[k].payload
  }

  /** The resolution queues the envelope made for it rather than a stored one. */
  predicate QueuesNewEnvelope(s: Store, k: ConflictKey, a: Action)
    requires k in s.conflicts && s.conflicts[k].noteId in s.notes
  {
    a.KeepLocal? ==> StoredLocal(s, k).None?
  }

  /** The documents of the changes a migration moves. */
  function Moved(s: Store, ws: Id): map<Id, Document> {
    map id | id in s.changes && Migration.ChangeToMove(s, ws, id) :: s.changes[id].legacy.value
  }

  /** `createEncryptedNote`, `editEncryptedNote`, `resolveEncryptedConflict`, the engine's encryption of a queued
      plaintext change and the plaintext migration, or any transaction at all. An envelope is made before the
      transaction, for the revision read then; a failed encryption throws. */
  function Perform(w: Work, key: Key, step: WorkStep): Work {
    var s := w.store;
    match step
    case CreateEncrypted(ws, n, d, nonce, id, now) =>
      (match Seal(d, key, Context(ws, n, 1), nonce)
       case None => w
       case Some(e) => if CanCreate(s, n, d, id) then Intend(w, Create(s, ws, n, d, e, id, now), id, d) else w)
    case EditEncrypted(n, d, nonce, r, existing, id, now) =>
      if !Active(s, n) then w
      else
        (match Seal(d, key, Context(s.notes[n].workspaceId, n, r + 1), nonce)
         case None => w
         case Some(e) =>
           if ValidDocument(d) && CanUpsert(s, n, UpdateNote, existing, id) && s.notes[n].revision == r
           then Intend(w, Edit(s, n, d, e, Some(r), existing, id, now), if existing.Some? then existing.value else id, d)
           else w)
    case ResolveEncrypted(k, a, d, nonce, next, id, now) =>
      if k !in s.conflicts then w
      else
        (match Seal(d, key, Context(s.conflicts[k].workspaceId, s.conflicts[k].noteId, next), nonce)
         case None => w
         case Some(e) =>
           if !CanResolve(s, k, a, Some(e), next, id) then w
           else
             var s' := Resolve(s, k, a, Some(e), Some(next), next, id, now);
             if QueuesNewEnvelope(s, k, a) then Intend(w, s', id, d) else Work(s', Surviving(w, s')))
    case EncryptQueued(c, nonce) =>
      if c.legacy.None? then w
      else
        (match Seal(c.legacy.value, key, Context(c.workspaceId, c.noteId, c.revision), nonce)
         case None => w
         case Some(e) =>
           if c.id in s.changes && Retryable(s.changes[c.id]) && s.changes[c.id].revision == c.revision
              && s.changes[c.id].noteId == c.noteId && s.changes[c.id].workspaceId == c.workspaceId
           then Intend(w, StorePayload(s, c.id, c.revision, e), c.id, c.legacy.value)
           else w)
    case MigratePlaintext(planned, ws, nonces) =>
      var (s', returned) := Migration.Migrate(planned, s, ws, key, nonces);
      Work(s', Surviving(w, s') + if returned then Moved(s, ws) else map[])
    case Plain(local) => var s' := LocalStore.Next(s, local); Work(s', Surviving(w, s'))
  }

  /** Every remembered document is in its change, under the change's own metadata. */
  ghost predicate Bound(w: Work, key: Key) {
    forall id :: id in w.intents ==>
      && id in w.store.changes
      && Holds(w.store.changes[id].payload, key, ChangeContext(w.store.changes[id]), w.intents[id])
  }

  lemma SurvivingStaysBound(w: Work, key: Key, s': Store)
    requires Bound(w, key)
    ensures Bound(Work(s', Surviving(w, s')), key)
  {
  }

  lemma IntendKeepsBound(w: Work, key: Key, s': Store, id: Id, d: Document)
    requires Bound(w, key)
    requires id in s'.changes && Holds(s'.changes[id].payload, key, ChangeContext(s'.changes[id]), d)
    ensures Bound(Intend(w, s', id, d), key)
  {
    SurvivingStaysBound(w, key, s');
  }

  lemma CreateKeepsBound(w: Work, key: Key, ws: Id, n: Id, d: Document, nonce: nat, id: Id, now: int)
    requires Bound(w, key)
    ensures Bound(Perform(w, key, CreateEncrypted(ws, n, d, nonce, id, now)), key)
  {
    var e := Seal(d, key, Context(ws, n, 1), nonce);
    SealHolds(d, key, Context(ws, n, 1), nonce);
    if e.Some? && CanCreate(w.store, n, d, id) {
      IntendKeepsBound(w, key, Create(w.store, ws, n, d, e.value, id, now), id, d);
    }
  }

  lemma EditStores(s: Store, n: Id, d: Document, e: Envelope, r: nat, existing: Option<Id>, id: Id, now: int)
    requires ValidDocument(d) && CanUpsert(s, n, UpdateNote, existing, id) && s.notes[n].revision == r && SameWorkspace(s)
    ensures var s' := Edit(s, n, d, e, Some(r), existing, id, now);
      var touched := if existing.Some? then existing.value else id;
      && touched in s'.changes && s'.changes[touched].payload == Some(e)
      && ChangeContext(s'.changes[touched]) == Context(s.notes[n].workspaceId, n, r + 1)
  {
  }

  /** What an encrypted edit does: the edit under the next revision, or nothing. */
  lemma EditPerforms(w: Work, key: Key, n: Id, d: Document, nonce: nat, r: nat, existing: Option<Id>, id: Id, now: int, w': Work)
    requires w' == Perform(w, key, EditEncrypted(n, d, nonce, r, existing, id, now)) && w' != w
    ensures Active(w.store, n) && CanUpsert(w.store, n, UpdateNote, existing, id) && ValidDocument(d) && w.store.notes[n].revision == r
    ensures var e := Seal(d, key, Context(w.store.notes[n].workspaceId, n, r + 1), nonce);
      e.Some? && w' == Intend(w, Edit(w.store, n, d, e.value, Some(r), existing, id, now), if existing.Some? then existing.value else id, d)
  {
  }

  lemma EditKeepsBound(w: Work, key: Key, n: Id, d: Document, nonce: nat, r: nat, existing: Option<Id>, id: Id, now: int)
    requires Bound(w, key) && SameWorkspace(w.store)
    ensures Bound(Perform(w, key, EditEncrypted(n, d, nonce, r, existing, id, now)), key)
  {
    var w' := Perform(w, key, EditEncrypted(n, d, nonce, r, existing, id, now));
    if w' != w {
      EditPerforms(w, key, n, d, nonce, r, existing, id, now, w');
      var context := Context(w.store.notes[n].workspaceId, n, r + 1);
      var e := Seal(d, key, context, nonce).value;
      SealHolds(d, key, context, nonce);
      EditStores(w.store, n, d, e, r, existing, id, now);
      IntendKeepsBound(w, key, Edit(w.store, n, d, e, Some(r), existing, id, now), if existing.Some? then existing.value else id, d);
    }
  }

  lemma ResolveKeepsBound(w: Work, key: Key, k: ConflictKey, a: Action, d: Document, nonce: nat, next: nat, id: Id, now: int)
    requires Bound(w, key) && SameWorkspace(w.store)
    ensures Bound(Perform(w, key, ResolveEncrypted(k, a, d, nonce, next, id, now)), key)
  {
    var s := w.store;
    if k in s.conflicts {
      var context := Context(s.conflicts[k].workspaceId, s.conflicts[k].noteId, next);
      var e := Seal(d, key, context, nonce);
      SealHolds(d, key, context, nonce);
      if e.Some? && CanResolve(s, k, a, e, next, id) {
        var s' := Resolve(s, k, a, e, Some(next), next, id, now);
        if QueuesNewEnvelope(s, k, a) {
          assert s'.changes[id].payload == e && ChangeContext(s'.changes[id]) == context;
          IntendKeepsBound(w, key, s', id, d);
        } else {
          SurvivingStaysBound(w, key, s');
        }
      }
    }
  }

  lemma EncryptKeepsBound(w: Work, key: Key, c: PendingChange, nonce: nat)
    requires Bound(w, key) && SameWorkspace(w.store)
    ensures Bound(Perform(w, key, EncryptQueued(c, nonce)), key)
  {
    var s := w.store;
    if c.legacy.Some? {
      var e := Seal(c.legacy.value, key, ChangeContext(c), nonce);
      SealHolds(c.legacy.value, key, ChangeContext(c), nonce);
      if e.Some? && c.id in s.changes && Retryable(s.changes[c.id]) && s.changes[c.id].revision == c.revision
         && s.changes[c.id].noteId == c.noteId && s.changes[c.id].workspaceId == c.workspaceId {
        IntendKeepsBound(w, key, StorePayload(s, c.id, c.revision, e.value), c.id, c.legacy.value);
      }
    }
  }

  lemma MigrateKeepsBound(w: Work, key: Key, planned: Store, ws: Id, nonces: Migration.Nonces)
    requires Bound(w, key) && Migration.ChangesTrack(planned.changes, w.store.changes)
    ensures Bound(Perform(w, key, MigratePlaintext(planned, ws, nonces)), key)
  {
    var s := w.store;
    var (s', returned) := Migration.Migrate(planned, s, ws, key, nonces);
    SurvivingStaysBound(w, key, s');
    if returned {
      forall id | id in Moved(s, ws)
        ensures id in s'.changes && Holds(s'.changes[id].payload, key, ChangeContext(s'.changes[id]), Moved(s, ws)[id])
      {
        Migration.ChangeKeepsMeaning(planned, s, ws, key, nonces, id);
      }
    }
  }

  /** What a step needs of the tables: a migration's plan was made on tables these have come from. */
  ghost predicate Planned(w: Work, step: WorkStep) {
    step.MigratePlaintext? ==> Migration.ChangesTrack(step.planned.changes, w.store.changes)
  }

  /** Every step keeps every remembered document in its change, under the metadata the change is pushed with. */
  lemma NextKeepsBound(w: Work, key: Key, step: WorkStep)
    requires Bound(w, key) && SameWorkspace(w.store) && Planned(w, step)
    ensures Bound(Perform(w, key, step), key)
  {
    match step
    case CreateEncrypted(ws, n, d, nonce, id, now) => CreateKeepsBound(w, key, ws, n, d, nonce, id, now);
    case EditEncrypted(n, d, nonce, r, existing, id, now) => EditKeepsBound(w, key, n, d, nonce, r, existing, id, now);
    case ResolveEncrypted(k, a, d, nonce, next, id, now) => ResolveKeepsBound(w, key, k, a, d, nonce, next, id, now);
    case EncryptQueued(c, nonce) => EncryptKeepsBound(w, key, c, nonce);
    case MigratePlaintext(planned, ws, nonces) => MigrateKeepsBound(w, key, planned, ws, nonces);
    case Plain(local) => SurvivingStaysBound(w, key, LocalStore.Next(w.store, local));
  }

  /** The step is given this document for this change: a new note's, an edit's (of the change it reuses, if any), a
      resolution's unless a stored local text is kept, or a queued change's plaintext. */
  predicate GivenFor(s: Store, step: WorkStep, id: Id, d: Document) {
    match step
    case CreateEncrypted(_, _, document, _, changeId, _) => document == d && changeId == id
    case EditEncrypted(_, document, _, _, existing, changeId, _) => document == d && id == (if existing.Some? then existing.value else changeId)
    case ResolveEncrypted(k, a, document, _, _, changeId, _) =>
      && document == d && changeId == id && k in s.conflicts && s.conflicts[k].noteId in s.notes
      && (a == KeepLocal ==> s.notes[s.conflicts[k].noteId].payload == None && s.conflicts[k].payload == None)
    case EncryptQueued(c, _) => c.legacy == Some(d) && c.id == id
    case _ => false
  }

  /** Such a step, if it goes through, leaves the document with its change. */
  lemma EncryptingIntends(w: Work, key: Key, step: WorkStep, id: Id, d: Document, w': Work)
    requires GivenFor(w.store, step, id, d) && w' == Perform(w, key, step) && w'.store != w.store
    ensures id in w'.intents && w'.intents[id] == d
  {
    match step
    case EditEncrypted(n, document, nonce, r, existing, changeId, now) => EditPerforms(w, key, n, document, nonce, r, existing, changeId, now, w');
    case _ =>
  }
}
