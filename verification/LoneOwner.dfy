/** A lone owner never conflicts with itself. */
module LoneOwner {
  import opened Wrappers
  import opened Envelopes
  import opened SyncTypes
  import opened LocalStore
  import opened SealedWork
  import opened Workspaces
  import opened SyncSystem
  import opened SyncRun
  import Server = ServerTables
  import ServerInvariants
  import StoreInvariants
  import Paging
  import PullConvergence
  import PullSafety
  import opened SyncSafety

  function Rank(k: OperationKind): nat {
    match k
    case CreateNote => 0
    case UpdateNote => 1
    case DeleteNote => 2
  }

  /** Outstanding in this workspace, so still to be sent. */
  predicate Unsent(s: Store, w: Id, id: Id) {
    id in s.changes && Outstanding(s.changes[id]) && s.changes[id].workspaceId == w
  }

  predicate UnsentOn(s: Store, w: Id, id: Id, n: Id, kind: OperationKind) {
    Unsent(s, w, id) && s.changes[id].noteId == n && s.changes[id].kind == kind
  }

  /** A queued change of the lone owner: never sent, based where its note is, and complete. */
  predicate Queued(s: Store, t: Server.Tables, clock: int, id: Id)
    requires id in s.changes
  {
    var c := s.changes[id];
    && c.status == Pending && id !in t.operations && c.createdAt <= clock
    && c.noteId in s.notes && c.base == s.notes[c.noteId].base
    && (c.kind == DeleteNote || c.payload.Some?)
    && (c.kind == CreateNote ==> c.base.None? && c.noteId !in t.notes)
    && (c.kind == DeleteNote ==> s.notes[c.noteId].deleted)
  }

  /** A note's queued changes are at most a create, then an update, then a delete. */
  predicate InOrder(s: Store, w: Id, a: Id, b: Id) {
    Unsent(s, w, a) && Unsent(s, w, b) && a != b && s.changes[a].noteId == s.changes[b].noteId ==>
      && s.changes[a].kind != s.changes[b].kind
      && (Rank(s.changes[a].kind) < Rank(s.changes[b].kind) ==>
            s.changes[a].revision < s.changes[b].revision && s.changes[a].createdAt <= s.changes[b].createdAt)
  }

  ghost predicate NoneUnsent(s: Store, w: Id, n: Id, kind: OperationKind) {
    forall id :: !UnsentOn(s, w, id, n, kind)
  }

  /** The note is at the server's version, unless its creation is still queued; it is deleted here exactly when
      its deletion is queued or done. */
  ghost predicate AtServer(s: Store, t: Server.Tables, w: Id, n: Id)
    requires n in s.notes
  {
    && (NoneUnsent(s, w, n, CreateNote) ==>
          n in t.notes && t.notes[n].workspaceId == w && s.notes[n].base == Some(t.notes[n].current))
    && (s.notes[n].deleted ==> (n in t.notes && t.notes[n].deleted) || exists id :: UnsentOn(s, w, id, n, DeleteNote))
    && (n in t.notes && t.notes[n].deleted ==> s.notes[n].deleted && forall id, k :: !UnsentOn(s, w, id, n, k))
  }

  /** The last text of the note is queued last, or is the server's. */
  ghost predicate LastText(s: Store, t: Server.Tables, w: Id, n: Id) {
    && n in s.notes && s.notes[n].workspaceId == w && s.notes[n].payload.Some?
    && (forall id :: UnsentOn(s, w, id, n, UpdateNote) ==> s.changes[id].payload == s.notes[n].payload)
    && (NoneUnsent(s, w, n, UpdateNote) ==>
          forall id :: UnsentOn(s, w, id, n, CreateNote) ==> s.changes[id].payload == s.notes[n].payload)
    && (NoneUnsent(s, w, n, UpdateNote) && NoneUnsent(s, w, n, CreateNote) ==>
          && n in t.notes && t.notes[n].current in t.versions
          && t.versions[t.notes[n].current].payload == Stored(s.notes[n].payload.value))
  }

  /** Both sides' tables are reachable ones and agree on where a note is. */
  ghost predicate Sane(s: Store, t: Server.Tables) {
    && StoreInvariants.Inv(s) && SameWorkspace(s) && ServerInvariants.Inv(t)
    && (forall n :: n in s.notes && n in t.notes ==> s.notes[n].workspaceId == t.notes[n].workspaceId)
  }

  /** The local tables as the lone owner's offline work and a run of its own leave them; `texts` are the notes
      written since the last run. */
  ghost predicate Alone(s: Store, t: Server.Tables, w: Id, clock: int, texts: set<Id>) {
    && (forall n :: n in s.notes && s.notes[n].workspaceId == w ==> AtServer(s, t, w, n))
    && (forall id :: Unsent(s, w, id) ==> Queued(s, t, clock, id))
    && (forall a, b :: InOrder(s, w, a, b))
    && (forall n :: n in texts ==> LastText(s, t, w, n))
  }

  /** Nothing is queued in the workspace and every note is at the server's version and deletion flag. */
  ghost predicate InSync(s: Store, t: Server.Tables, w: Id) {
    && (forall id :: !Unsent(s, w, id))
    && (forall n :: n in s.notes && s.notes[n].workspaceId == w ==>
          && n in t.notes && t.notes[n].workspaceId == w
          && s.notes[n].base == Some(t.notes[n].current) && s.notes[n].deleted == t.notes[n].deleted)
  }

  lemma InSyncIsAlone(s: Store, t: Server.Tables, w: Id, clock: int)
    requires InSync(s, t, w)
    ensures Alone(s, t, w, clock, {})
  {
  }

  /** With nothing queued, being alone means being in sync. */
  lemma AloneIsInSync(s: Store, t: Server.Tables, w: Id, clock: int, texts: set<Id>)
    requires Alone(s, t, w, clock, texts) && forall id :: !Unsent(s, w, id)
    ensures InSync(s, t, w)
  {
    forall n | n in s.notes && s.notes[n].workspaceId == w
      ensures n in t.notes && s.notes[n].base == Some(t.notes[n].current) && s.notes[n].deleted == t.notes[n].deleted
    {
      assert AtServer(s, t, w, n);
    }
  }

  // ---- Offline work ----

  /** The user writes, edits or deletes with no run active: new identifiers are new to the server as well, and the
      clock does not go back. */
  predicate Offline(t: Server.Tables, clock: int, step: LocalStep) {
    match step
    case CreateStep(_, n, _, _, id, now) => n !in t.notes && id !in t.operations && clock <= now
    case EditStep(_, _, _, _, _, id, now) => id !in t.operations && clock <= now
    case DeleteStep(_, _, id, now) => id !in t.operations && clock <= now
    case _ => false
  }

  function ClockAfter(clock: int, step: LocalStep): int {
    match step
    case CreateStep(_, _, _, _, _, now) => now
    case EditStep(_, _, _, _, _, _, now) => now
    case DeleteStep(_, _, _, now) => now
    case _ => clock
  }

  /** The notes of the workspace whose text the step writes. */
  function Wrote(s: Store, w: Id, step: LocalStep): set<Id> {
    match step
    case CreateStep(ws, n, _, _, _, _) => if ws == w && LocalStore.Next(s, step) != s then {n} else {}
    case EditStep(n, _, _, _, _, _, _) =>
      if n in s.notes && s.notes[n].workspaceId == w && LocalStore.Next(s, step) != s then {n} else {}
    case _ => {}
  }

  /** What a step writes: one note and one queued change of it. */
  ghost predicate Puts(s: Store, s': Store, t: Server.Tables, now: int, x: Id) {
    && x in s'.changes
    && var c := s'.changes[x];
    && c.noteId in s'.notes
    && s'.notes == s.notes[c.noteId := s'.notes[c.noteId]] && s'.changes == s.changes[x := c]
    && c.id == x && c.status == Pending && x !in t.operations && c.createdAt <= now
    && c.workspaceId == s'.notes[c.noteId].workspaceId && c.base == s'.notes[c.noteId].base
    && c.revision == s'.notes[c.noteId].revision
    && (x in s.changes ==>
          s.changes[x].noteId == c.noteId && s.changes[x].kind == c.kind && s.changes[x].createdAt == c.createdAt
          && Retryable(s.changes[x]) && s.changes[x].workspaceId == c.workspaceId)
    && (x !in s.changes ==> c.createdAt == now)
    && (c.kind == CreateNote ==>
          && c.noteId !in s.notes && c.noteId !in t.notes && c.base.None? && !s'.notes[c.noteId].deleted && x !in s.changes
          && c.payload.Some? && s'.notes[c.noteId].payload == c.payload)
    && (c.kind != CreateNote ==>
          && Active(s, c.noteId)
          && (x !in s.changes ==> forall id :: id in s.changes ==> !Reusable(s, c.noteId, c.kind, id)))
    && (c.kind == UpdateNote ==>
          && c.payload.Some?
          && s'.notes[c.noteId] == s.notes[c.noteId].(payload := c.payload, legacy := None, revision := c.revision))
    && (c.kind == DeleteNote ==> s'.notes[c.noteId] == s.notes[c.noteId].(deleted := true, revision := c.revision))
    && (c.noteId in s.notes ==> s.notes[c.noteId].revision < c.revision)
  }

  lemma PutKeepsQueued(s: Store, s': Store, t: Server.Tables, w: Id, clock: int, now: int, x: Id, texts: set<Id>)
    requires Sane(s, t) && Alone(s, t, w, clock, texts) && clock <= now && Puts(s, s', t, now, x)
    ensures forall id :: Unsent(s', w, id) ==> Queued(s', t, now, id)
  {
    forall id | Unsent(s', w, id) ensures Queued(s', t, now, id) {
      if id != x { assert Queued(s, t, clock, id); }
    }
  }

  lemma PutFirst(s: Store, s': Store, t: Server.Tables, w: Id, clock: int, now: int, x: Id, b: Id)
    requires StoreInvariants.Inv(s) && Puts(s, s', t, now, x) && b != x && Unsent(s, w, b) && Unsent(s', w, x)
    requires Queued(s, t, clock, b) && clock <= now && InOrder(s, w, b, x) && InOrder(s, w, x, b)
    ensures InOrder(s', w, x, b) && InOrder(s', w, b, x)
  {
    if s'.changes[x].noteId == s'.changes[b].noteId {
      assert s.changes[b].kind != DeleteNote;
      assert s.changes[b].revision <= s.notes[s.changes[b].noteId].revision;
    }
  }

  lemma PutKeepsOrder(s: Store, s': Store, t: Server.Tables, w: Id, clock: int, now: int, x: Id, texts: set<Id>, a: Id, b: Id)
    requires Sane(s, t) && Alone(s, t, w, clock, texts) && clock <= now && Puts(s, s', t, now, x) && StoreInvariants.Inv(s')
    ensures InOrder(s', w, a, b)
  {
    assert InOrder(s, w, a, b) && InOrder(s, w, b, a);
    if Unsent(s', w, a) && Unsent(s', w, b) && a != b {
      if a == x {
        assert Unsent(s, w, b) && Queued(s, t, clock, b);
        PutFirst(s, s', t, w, clock, now, x, b);
      } else if b == x {
        assert Unsent(s, w, a) && Queued(s, t, clock, a);
        PutFirst(s, s', t, w, clock, now, x, a);
      }
    }
  }

  lemma PutKeepsAtServer(s: Store, s': Store, t: Server.Tables, w: Id, clock: int, now: int, x: Id, texts: set<Id>, n: Id)
    requires Sane(s, t) && Alone(s, t, w, clock, texts) && Puts(s, s', t, now, x) && n in s'.notes && s'.notes[n].workspaceId == w
    ensures AtServer(s', t, w, n)
  {
    if n in s.notes { assert AtServer(s, t, w, n); }
    if n == s'.changes[x].noteId {
      assert UnsentOn(s', w, x, n, s'.changes[x].kind);
    }
    forall id, k | id != x || n != s'.changes[x].noteId ensures UnsentOn(s', w, id, n, k) == UnsentOn(s, w, id, n, k) {
    }
  }

  lemma PutKeepsOtherText(s: Store, s': Store, t: Server.Tables, w: Id, n: Id)
    requires LastText(s, t, w, n) && n in s'.notes && s'.notes[n].payload == s.notes[n].payload && s'.notes[n].workspaceId == w
    requires forall id, k :: k != DeleteNote ==> UnsentOn(s', w, id, n, k) == UnsentOn(s, w, id, n, k)
    requires forall id, k :: k != DeleteNote && UnsentOn(s', w, id, n, k) && UnsentOn(s, w, id, n, k) ==> s'.changes[id].payload == s.changes[id].payload
    ensures LastText(s', t, w, n)
  {
    if NoneUnsent(s', w, n, UpdateNote) {
      assert NoneUnsent(s, w, n, UpdateNote);
      if NoneUnsent(s', w, n, CreateNote) { assert NoneUnsent(s, w, n, CreateNote); }
    }
  }

  lemma PutUpdateIsText(s: Store, s': Store, t: Server.Tables, w: Id, clock: int, now: int, x: Id, texts: set<Id>)
    requires Sane(s, t) && Alone(s, t, w, clock, texts) && Puts(s, s', t, now, x)
    requires s'.changes[x].kind == UpdateNote && s'.changes[x].workspaceId == w
    ensures LastText(s', t, w, s'.changes[x].noteId)
  {
    var n := s'.changes[x].noteId;
    assert UnsentOn(s', w, x, n, UpdateNote);
    forall id | id != x ensures !UnsentOn(s', w, id, n, UpdateNote) {
      assert InOrder(s, w, id, x);
      if Unsent(s, w, id) { assert Queued(s, t, clock, id); }
      assert UnsentOn(s, w, id, n, UpdateNote) ==> Reusable(s, n, UpdateNote, id);
    }
  }

  lemma PutKeepsText(s: Store, s': Store, t: Server.Tables, w: Id, clock: int, now: int, x: Id, texts: set<Id>, n: Id)
    requires Sane(s, t) && Alone(s, t, w, clock, texts) && Puts(s, s', t, now, x)
    requires n in texts || (n == s'.changes[x].noteId && s'.notes[n].workspaceId == w && s'.changes[x].kind != DeleteNote)
    ensures LastText(s', t, w, n)
  {
    var c := s'.changes[x];
    if n == c.noteId && c.kind == UpdateNote {
      PutUpdateIsText(s, s', t, w, clock, now, x, texts);
    } else if n == c.noteId && c.kind == CreateNote {
      assert UnsentOn(s', w, x, n, CreateNote);
      forall id, k | UnsentOn(s', w, id, n, k) ensures id == x {
      }
    } else {
      PutKeepsOtherText(s, s', t, w, n);
    }
  }

  lemma PutKeepsAlone(s: Store, s': Store, t: Server.Tables, w: Id, clock: int, now: int, x: Id, texts: set<Id>, texts': set<Id>)
    requires Sane(s, t) && Alone(s, t, w, clock, texts) && clock <= now && Puts(s, s', t, now, x)
    requires StoreInvariants.Inv(s') && s'.changes[x].workspaceId == w
    requires texts' <= texts + if s'.changes[x].kind == DeleteNote then {} else {s'.changes[x].noteId}
    ensures Alone(s', t, w, now, texts')
  {
    PutKeepsQueued(s, s', t, w, clock, now, x, texts);
    forall a, b ensures InOrder(s', w, a, b) { PutKeepsOrder(s, s', t, w, clock, now, x, texts, a, b); }
    forall n | n in s'.notes && s'.notes[n].workspaceId == w ensures AtServer(s', t, w, n) {
      PutKeepsAtServer(s, s', t, w, clock, now, x, texts, n);
    }
    forall n | n in texts' ensures LastText(s', t, w, n) {
      PutKeepsText(s, s', t, w, clock, now, x, texts, n);
    }
  }

  /** The change an offline step queues. */
  function Queues(step: LocalStep): Id
    requires step.CreateStep? || step.EditStep? || step.DeleteStep?
  {
    match step
    case CreateStep(_, _, _, _, id, _) => id
    case EditStep(_, _, _, _, existing, id, _) => if existing.Some? then existing.value else id
    case DeleteStep(_, existing, id, _) => if existing.Some? then existing.value else id
  }

  /** The workspace of the note an offline step is about. */
  predicate Within(s: Store, w: Id, step: LocalStep) {
    match step
    case CreateStep(ws, _, _, _, _, _) => ws == w
    case EditStep(n, _, _, _, _, _, _) => n in s.notes && s.notes[n].workspaceId == w
    case DeleteStep(n, _, _, _) => n in s.notes && s.notes[n].workspaceId == w
    case _ => false
  }

  lemma CreatePuts(s: Store, t: Server.Tables, clock: int, ws: Id, n: Id, d: Document, e: Envelope, id: Id, now: int, s': Store)
    requires n !in t.notes && id !in t.operations && s' == Create(s, ws, n, d, e, id, now) && s' != s
    ensures Puts(s, s', t, now, id)
  {
  }

  /** A reused change is one of the workspace that the server has not seen. */
  predicate ReusesUnseen(s: Store, t: Server.Tables, existing: Option<Id>, now: int) {
    existing.Some? && existing.value in s.changes ==>
      existing.value !in t.operations && s.changes[existing.value].id == existing.value && s.changes[existing.value].createdAt <= now
  }

  lemma ReusedIsUnseen(s: Store, t: Server.Tables, w: Id, clock: int, texts: set<Id>, n: Id, kind: OperationKind,
                       existing: Option<Id>, now: int)
    requires StoreInvariants.Inv(s) && SameWorkspace(s) && Alone(s, t, w, clock, texts) && clock <= now
    requires n in s.notes && s.notes[n].workspaceId == w && ReuseChoice(s, n, kind, existing)
    ensures ReusesUnseen(s, t, existing, now)
  {
    if existing.Some? {
      assert Unsent(s, w, existing.value);
      assert Queued(s, t, clock, existing.value);
    }
  }

  lemma EditPuts(s: Store, t: Server.Tables, step: LocalStep, s': Store)
    requires step.EditStep? && StoreInvariants.Inv(s) && SameWorkspace(s) && step.changeId !in t.operations
    requires ReusesUnseen(s, t, step.existing, step.now) && s' == LocalStore.Next(s, step) && s' != s
    ensures Puts(s, s', t, step.now, Queues(step))
  {
  }

  lemma DeletePuts(s: Store, t: Server.Tables, step: LocalStep, s': Store)
    requires step.DeleteStep? && StoreInvariants.Inv(s) && SameWorkspace(s) && step.changeId !in t.operations
    requires ReusesUnseen(s, t, step.existing, step.now) && s' == LocalStore.Next(s, step) && s' != s
    ensures Puts(s, s', t, step.now, Queues(step))
  {
  }

  lemma OfflinePuts(s: Store, t: Server.Tables, w: Id, clock: int, texts: set<Id>, step: LocalStep, s': Store)
    requires Sane(s, t) && Alone(s, t, w, clock, texts) && Offline(t, clock, step) && Within(s, w, step)
    requires s' == LocalStore.Next(s, step) && s' != s
    ensures Puts(s, s', t, ClockAfter(clock, step), Queues(step))
  {
    match step
    case CreateStep(ws, n, d, e, id, now) => CreatePuts(s, t, clock, ws, n, d, e, id, now, s');
    case EditStep(n, _, _, _, existing, _, now) =>
      ReusedIsUnseen(s, t, w, clock, texts, n, UpdateNote, existing, now);
      EditPuts(s, t, step, s');
    case DeleteStep(n, existing, _, now) =>
      ReusedIsUnseen(s, t, w, clock, texts, n, DeleteNote, existing, now);
      DeletePuts(s, t, step, s');
  }

  /** The tables agree on everything of the workspace. */
  ghost predicate SameIn(s: Store, s': Store, w: Id) {
    && (forall id :: Unsent(s, w, id) == Unsent(s', w, id))
    && (forall id :: Unsent(s, w, id) ==> id in s.changes && id in s'.changes && s'.changes[id] == s.changes[id])
    && (forall n :: n in s.notes && s.notes[n].workspaceId == w ==> n in s'.notes && s'.notes[n] == s.notes[n])
    && (forall n :: n in s'.notes && s'.notes[n].workspaceId == w ==> n in s.notes && s'.notes[n] == s.notes[n])
  }

  lemma SameInKeepsQueue(s: Store, s': Store, t: Server.Tables, w: Id, clock: int, now: int)
    requires SameIn(s, s', w) && SameWorkspace(s) && clock <= now
    requires forall id :: Unsent(s, w, id) ==> Queued(s, t, clock, id)
    requires forall a, b :: InOrder(s, w, a, b)
    ensures forall id :: Unsent(s', w, id) ==> Queued(s', t, now, id)
    ensures forall a, b :: InOrder(s', w, a, b)
  {
    forall id | Unsent(s', w, id) ensures Queued(s', t, now, id) {
      assert Unsent(s, w, id) && Queued(s, t, clock, id);
      assert s.notes[s.changes[id].noteId].workspaceId == w;
    }
    forall a, b ensures InOrder(s', w, a, b) {
      assert InOrder(s, w, a, b);
      assert Unsent(s, w, a) == Unsent(s', w, a) && Unsent(s, w, b) == Unsent(s', w, b);
    }
  }

  lemma SameInKeepsNote(s: Store, s': Store, t: Server.Tables, w: Id, n: Id)
    requires SameIn(s, s', w) && n in s.notes && s.notes[n].workspaceId == w
    ensures n in s'.notes
    ensures AtServer(s, t, w, n) ==> AtServer(s', t, w, n)
    ensures LastText(s, t, w, n) ==> LastText(s', t, w, n)
  {
    forall id, k ensures UnsentOn(s', w, id, n, k) == UnsentOn(s, w, id, n, k) {
      assert Unsent(s, w, id) == Unsent(s', w, id);
    }
    assert forall k :: NoneUnsent(s', w, n, k) == NoneUnsent(s, w, n, k);
    if LastText(s, t, w, n) { PutKeepsOtherText(s, s', t, w, n); }
  }

  lemma SameInKeepsAlone(s: Store, s': Store, t: Server.Tables, w: Id, clock: int, now: int, texts: set<Id>, texts': set<Id>)
    requires SameWorkspace(s) && Alone(s, t, w, clock, texts) && clock <= now && SameIn(s, s', w) && texts' <= texts
    ensures Alone(s', t, w, now, texts')
  {
    SameInKeepsQueue(s, s', t, w, clock, now);
    forall n | n in s'.notes && s'.notes[n].workspaceId == w ensures AtServer(s', t, w, n) {
      SameInKeepsNote(s, s', t, w, n);
    }
    forall n | n in texts' ensures LastText(s', t, w, n) {
      SameInKeepsNote(s, s', t, w, n);
    }
  }

  lemma PutElsewhere(s: Store, s': Store, w: Id, n: Id, x: Id)
    requires SameWorkspace(s) && SameWorkspace(s') && x in s'.changes && n in s'.notes && s'.changes[x].noteId == n
    requires s'.notes == s.notes[n := s'.notes[n]] && s'.changes == s.changes[x := s'.changes[x]]
    requires s'.notes[n].workspaceId != w && (n in s.notes ==> s.notes[n].workspaceId != w)
    requires x in s.changes ==> s.changes[x].noteId == n
    ensures SameIn(s, s', w)
  {
  }

  lemma ElsewhereIsSame(s: Store, t: Server.Tables, w: Id, clock: int, step: LocalStep)
    requires SameWorkspace(s) && SameWorkspace(LocalStore.Next(s, step)) && Offline(t, clock, step) && !Within(s, w, step)
    ensures SameIn(s, LocalStore.Next(s, step), w)
  {
    var s' := LocalStore.Next(s, step);
    if s' != s {
      var x := Queues(step);
      assert x in s'.changes;
      PutElsewhere(s, s', w, s'.changes[x].noteId, x);
    }
  }

  lemma OfflineKeepsStore(s: Store, t: Server.Tables, clock: int, step: LocalStep, s': Store)
    requires StoreInvariants.Inv(s) && Offline(t, clock, step) && s' == LocalStore.Next(s, step)
    ensures StoreInvariants.Inv(s')
  {
    StoreInvariants.NextKeepsInv(s, step);
  }

  lemma OfflineKeepsWorkspace(s: Store, t: Server.Tables, clock: int, step: LocalStep, s': Store)
    requires StoreInvariants.Inv(s) && SameWorkspace(s) && Offline(t, clock, step) && s' == LocalStore.Next(s, step)
    ensures SameWorkspace(s')
  {
    StepKeepsWorkspace(s, step, s');
  }

  lemma OfflineKeepsSane(s: Store, t: Server.Tables, clock: int, step: LocalStep, s': Store)
    requires Sane(s, t) && Offline(t, clock, step) && s' == LocalStore.Next(s, step)
    ensures Sane(s', t) && s'.conflicts == s.conflicts && s'.cursors == s.cursors
  {
    OfflineKeepsStore(s, t, clock, step, s');
    OfflineKeepsWorkspace(s, t, clock, step, s');
    OfflineKeepsHomes(s, t, clock, step);
  }

  lemma OfflineKeepsHomes(s: Store, t: Server.Tables, clock: int, step: LocalStep)
    requires Offline(t, clock, step)
    ensures var s' := LocalStore.Next(s, step);
      && s'.conflicts == s.conflicts && s'.cursors == s.cursors
      && forall n :: n in s'.notes && n in t.notes ==> n in s.notes && s'.notes[n].workspaceId == s.notes[n].workspaceId
  {
  }

  lemma WorkWithinKeepsAlone(s: Store, t: Server.Tables, w: Id, clock: int, texts: set<Id>, step: LocalStep,
                             s': Store, now: int, texts': set<Id>)
    requires Sane(s, t) && Alone(s, t, w, clock, texts) && Offline(t, clock, step)
    requires s' == LocalStore.Next(s, step) && now == ClockAfter(clock, step) && texts' == texts + Wrote(s, w, step)
    requires Within(s, w, step) && s' != s && StoreInvariants.Inv(s')
    ensures Alone(s', t, w, now, texts')
  {
    OfflinePuts(s, t, w, clock, texts, step, s');
    WroteItsNote(s, w, step);
    PutKeepsAlone(s, s', t, w, clock, now, Queues(step), texts, texts');
  }

  /** Offline work of the owner keeps the tables as a lone owner leaves them. */
  lemma OfflineKeepsAlone(s: Store, t: Server.Tables, w: Id, clock: int, texts: set<Id>, step: LocalStep,
                          s': Store, now: int, texts': set<Id>)
    requires Sane(s, t) && Alone(s, t, w, clock, texts) && Offline(t, clock, step)
    requires s' == LocalStore.Next(s, step) && now == ClockAfter(clock, step) && texts' == texts + Wrote(s, w, step)
    requires StoreInvariants.Inv(s') && SameWorkspace(s')
    ensures Alone(s', t, w, now, texts')
  {
    if Within(s, w, step) && s' != s {
      WorkWithinKeepsAlone(s, t, w, clock, texts, step, s', now, texts');
    } else {
      ElsewhereOrNothing(s, t, w, clock, step);
      SameInKeepsAlone(s, s', t, w, clock, now, texts, texts');
    }
  }

  lemma ElsewhereOrNothing(s: Store, t: Server.Tables, w: Id, clock: int, step: LocalStep)
    requires SameWorkspace(s) && SameWorkspace(LocalStore.Next(s, step)) && Offline(t, clock, step)
    requires !Within(s, w, step) || LocalStore.Next(s, step) == s
    ensures SameIn(s, LocalStore.Next(s, step), w) && Wrote(s, w, step) == {} && clock <= ClockAfter(clock, step)
  {
    if !Within(s, w, step) { ElsewhereIsSame(s, t, w, clock, step); }
  }

  lemma WroteItsNote(s: Store, w: Id, step: LocalStep)
    requires Within(s, w, step) && LocalStore.Next(s, step) != s && StoreInvariants.Inv(s) && SameWorkspace(s)
    requires step.CreateStep? || step.EditStep? || step.DeleteStep?
    ensures var s', x := LocalStore.Next(s, step), Queues(step);
      && x in s'.changes && s'.changes[x].workspaceId == w
      && Wrote(s, w, step) == if s'.changes[x].kind == DeleteNote then {} else {s'.changes[x].noteId}
  {
  }

  lemma OfflineKeepsBoth(s: Store, t: Server.Tables, w: Id, clock: int, texts: set<Id>, step: LocalStep,
                         s': Store, now: int, texts': set<Id>)
    requires Sane(s, t) && Alone(s, t, w, clock, texts) && Offline(t, clock, step)
    requires s' == LocalStore.Next(s, step) && now == ClockAfter(clock, step) && texts' == texts + Wrote(s, w, step)
    ensures Sane(s', t) && Alone(s', t, w, now, texts')
  {
    OfflineKeepsSane(s, t, clock, step, s');
    OfflineKeepsAlone(s, t, w, clock, texts, step, s', now, texts');
  }

  ghost predicate AllOffline(t: Server.Tables, clock: int, steps: seq<LocalStep>)
    decreases |steps|
  {
    steps != [] ==> Offline(t, clock, steps[0]) && AllOffline(t, ClockAfter(clock, steps[0]), steps[1..])
  }

  /** `texts` and the notes of the workspace whose text the steps write. */
  function AllWrote(s: Store, w: Id, texts: set<Id>, steps: seq<LocalStep>): set<Id>
    decreases |steps|
  {
    if steps == [] then texts else AllWrote(LocalStore.Next(s, steps[0]), w, texts + Wrote(s, w, steps[0]), steps[1..])
  }

  function ClockAfterAll(clock: int, steps: seq<LocalStep>): int
    decreases |steps|
  {
    if steps == [] then clock else ClockAfterAll(ClockAfter(clock, steps[0]), steps[1..])
  }

  lemma {:induction false} OfflineRunKeepsSane(s: Store, t: Server.Tables, clock: int, steps: seq<LocalStep>, s': Store)
    requires Sane(s, t) && AllOffline(t, clock, steps) && s' == LocalStore.Run(s, steps)
    ensures Sane(s', t) && s'.conflicts == s.conflicts && s'.cursors == s.cursors
    decreases |steps|
  {
    if steps != [] {
      var s1 := LocalStore.Next(s, steps[0]);
      OfflineKeepsSane(s, t, clock, steps[0], s1);
      OfflineRunKeepsSane(s1, t, ClockAfter(clock, steps[0]), steps[1..], s');
    }
  }

  lemma {:induction false} OfflineRunKeepsAlone(s: Store, t: Server.Tables, w: Id, clock: int, texts: set<Id>, steps: seq<LocalStep>,
                                                s': Store, now: int, texts': set<Id>)
    requires Sane(s, t) && Alone(s, t, w, clock, texts) && AllOffline(t, clock, steps)
    requires s' == LocalStore.Run(s, steps) && now == ClockAfterAll(clock, steps) && texts' == AllWrote(s, w, texts, steps)
    ensures Alone(s', t, w, now, texts')
    decreases |steps|
  {
    if steps != [] {
      var s1, now1, texts1 := LocalStore.Next(s, steps[0]), ClockAfter(clock, steps[0]), texts + Wrote(s, w, steps[0]);
      OfflineKeepsBoth(s, t, w, clock, texts, steps[0], s1, now1, texts1);
      OfflineRunKeepsAlone(s1, t, w, now1, texts1, steps[1..], s', now, texts');
    }
  }
}
