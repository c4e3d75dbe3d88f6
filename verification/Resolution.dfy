/** Resolving a conflict closes it, and the resolution is accepted while the server stands still. */
module Resolution {
  import opened Wrappers
  import opened Envelopes
  import opened SyncTypes
  import opened LocalStore
  import ServerTables
  import ServerInvariants
  import StoreInvariants

  predicate Resolves(s: Store, key: ConflictKey, a: Action, e: Option<Envelope>, expected: Option<nat>, next: nat, id: Id) {
    CanResolve(s, key, a, e, next, id) && (expected.Some? ==> expected.value == next)
  }

  /** Afterwards the note has exactly one outstanding change, an update based on the highest-numbered unresolved
      remote version with a revision above every earlier one, and no unresolved conflict. */
  lemma ResolveCloses(s: Store, key: ConflictKey, a: Action, e: Option<Envelope>, expected: Option<nat>, next: nat,
                      id: Id, now: int)
    requires StoreInvariants.Inv(s) && Resolves(s, key, a, e, expected, next, id)
    ensures var s', n := Resolve(s, key, a, e, expected, next, id, now), s.conflicts[key].noteId;
      && Waiting(s', n) == {id}
      && var c := s'.changes[id];
      && c.kind == UpdateNote && c.status == Pending && c.payload.Some?
      && c.base == Some(s.conflicts[key].remote.id) && s'.notes[n].base == c.base && !s'.notes[n].deleted
      && (forall x :: x in s.changes && s.changes[x].noteId == n ==> s.changes[x].revision < c.revision)
      && s.notes[n].revision < c.revision == s'.notes[n].revision
      && (forall k :: k in s'.conflicts ==> !OpenConflict(s', k, n))
    ensures var n := s.conflicts[key].noteId;
      forall k :: k in s.conflicts && OpenConflict(s, k, n) ==>
        s.conflicts[k].remote.number <= s.conflicts[key].remote.number
  {
    var s', n := Resolve(s, key, a, e, expected, next, id, now), s.conflicts[key].noteId;
    assert forall x :: x in s.changes && s.changes[x].noteId == n ==> x in ChangesOf(s, n);
    assert id in Waiting(s', n);
    forall k | k in s.conflicts && OpenConflict(s, k, n)
      ensures s.conflicts[k].remote.number <= s.conflicts[key].remote.number
    {
      assert Precedes(key, s.conflicts[key], k, s.conflicts[k]);
    }
  }

  /** Every other note's rows, changes and conflicts stay as they were. */
  lemma ResolveTouchesOneNote(s: Store, key: ConflictKey, a: Action, e: Option<Envelope>, expected: Option<nat>, next: nat,
                              id: Id, now: int)
    requires Resolves(s, key, a, e, expected, next, id)
    ensures var s', n := Resolve(s, key, a, e, expected, next, id, now), s.conflicts[key].noteId;
      && (forall m :: m in s.notes && m != n ==> m in s'.notes && s'.notes[m] == s.notes[m])
      && (forall x :: x in s.changes && s.changes[x].noteId != n ==> s'.changes[x] == s.changes[x])
      && (forall k :: k in s.conflicts && s.conflicts[k].noteId != n ==> s'.conflicts[k] == s.conflicts[k])
      && (forall x :: x in s.changes && s.changes[x].noteId == n && !Outstanding(s.changes[x]) ==> s'.changes[x] == s.changes[x])
  {
  }

  /** The server accepts an update at the note's current version. */
  lemma UpdateIsAccepted(t: ServerTables.Tables, w: Id, user: Id, client: Id, c: PendingChange, versionId: Id)
    requires ServerInvariants.Inv(t) && ServerTables.LiveIn(t, w, c.noteId) && ServerTables.Writes(t, w, user)
    requires c.kind == UpdateNote && c.payload.Some? && c.base == Some(t.notes[c.noteId].current)
    requires c.id !in t.operations && versionId !in t.versions
    ensures var (t', p) := ServerTables.Process(t, ServerTables.SyncInput(w, user, client, Wire(c), versionId));
      && p.Done? && p.accepted && !p.replayed
      && p.version.parent == c.base && t.notes[c.noteId].current in t.versions
      && p.version.number == t.versions[t.notes[c.noteId].current].number + 1
      && t'.notes[c.noteId].current == versionId
  {
    ServerInvariants.CurrentExists(t, c.noteId);
  }

  /** If the server is still at the resolved version, the note is live and the user may write, pushing the
      resolution is accepted, as the next version after the one it resolved. */
  lemma ResolutionIsAccepted(s: Store, key: ConflictKey, a: Action, e: Option<Envelope>, expected: Option<nat>, next: nat,
                             id: Id, now: int, t: ServerTables.Tables, user: Id, client: Id, versionId: Id)
    requires StoreInvariants.Inv(s) && Resolves(s, key, a, e, expected, next, id)
    requires ServerInvariants.Inv(t)
    requires var c := s.conflicts[key];
      && ServerTables.LiveIn(t, c.workspaceId, c.noteId) && t.notes[c.noteId].current == c.remote.id
      && ServerTables.Writes(t, c.workspaceId, user)
    requires id !in t.operations && versionId !in t.versions
    ensures var s' := Resolve(s, key, a, e, expected, next, id, now);
      var c := s.conflicts[key];
      var (t', p) := ServerTables.Process(t, ServerTables.SyncInput(c.workspaceId, user, client, Wire(s'.changes[id]), versionId));
      && p.Done? && p.accepted && !p.replayed
      && p.version.parent == Some(c.remote.id) && p.version.number == t.versions[c.remote.id].number + 1
      && t'.notes[c.noteId].current == versionId
  {
    ResolveCloses(s, key, a, e, expected, next, id, now);
    var s', c := Resolve(s, key, a, e, expected, next, id, now), s.conflicts[key];
    UpdateIsAccepted(t, c.workspaceId, user, client, s'.changes[id], versionId);
  }

  /** In every reachable state each `conflict` change can be resolved: the latest unresolved conflict of its note
      exists, whatever the tie-breaks. */
  lemma ConflictChangesAreResolvable(s: Store, steps: seq<LocalStep>, id: Id)
    requires StoreInvariants.Inv(s)
    requires id in Run(s, steps).changes && Run(s, steps).changes[id].status == Conflicted
    ensures exists key :: IsLatest(Run(s, steps), key, Run(s, steps).changes[id].noteId)
  {
    StoreInvariants.RunKeepsInv(s, steps);
    var r := Run(s, steps);
    var n := r.changes[id].noteId;
    var v :| StoreInvariants.OpenRecord(r.conflicts, id, v);
    assert OpenConflict(r, ConflictKey(id, v), n);
    var open := set k | k in r.conflicts && OpenConflict(r, k, n);
    assert ConflictKey(id, v) in open;
    var key := LatestExists(r, n, open);
    assert IsLatest(r, key, n);
  }

  lemma {:induction false} LatestExists(s: Store, n: Id, open: set<ConflictKey>) returns (key: ConflictKey)
    requires open != {} && forall k :: k in open ==> k in s.conflicts
    ensures key in open && forall k :: k in open ==> Precedes(key, s.conflicts[key], k, s.conflicts[k])
  {
    var k0 :| k0 in open;
    if open == {k0} {
      key := k0;
    } else {
      key := LatestExists(s, n, open - {k0});
      if Precedes(k0, s.conflicts[k0], key, s.conflicts[key]) { key := k0; }
    }
  }

  // ---- How conflicts come about ----

  /** The changes a conflict answer stops: the answered one and every later outstanding change of its note. */
  predicate Stops(s: Store, pushed: PendingChange, id: Id)
    requires pushed.id in s.changes && id in s.changes
  {
    id == pushed.id || (Later(s.changes[id], s.changes[pushed.id]) && s.changes[id].status != Conflicted)
  }

  /** A conflict answer stops exactly those changes, and touches no note and no other change. */
  lemma ConflictStopsLaterWork(s: Store, w: Id, pushed: PendingChange, r: PushResult, now: int, id: Id)
    requires pushed.id in s.changes && (r.Conflict? || r.DuplicateConflict?) && id in s.changes
    ensures var s' := ApplyResult(s, w, pushed, Some(r), now);
      && s'.notes == s.notes && s'.changes.Keys == s.changes.Keys
      && s'.changes[id] ==
         if Stops(s, pushed, id) && Outstanding(s.changes[id]) then s.changes[id].(status := Conflicted) else s.changes[id]
  {
  }

  /** Each stopped change gets an unresolved record against the answered version that shows the change as it was; the
      records of other changes stay. */
  lemma ConflictIsRecorded(s: Store, w: Id, pushed: PendingChange, r: PushResult, now: int, k: ConflictKey)
    requires pushed.id in s.changes && (r.Conflict? || r.DuplicateConflict?) && k.changeId in s.changes
    ensures var s' := ApplyResult(s, w, pushed, Some(r), now);
      if Stops(s, pushed, k.changeId) && k.versionId == r.remote.id
      then k in s'.conflicts && s'.conflicts[k] == ConflictRow(s.changes[k.changeId], w, r.remote, now)
      else (k in s'.conflicts <==> k in s.conflicts) && (k in s.conflicts ==> s'.conflicts[k] == s.conflicts[k])
  {
    StoreInvariants.RowOf(s.changes, {pushed.id} + Spread(s, s.changes[pushed.id]), w, r.remote, now, k);
  }

  /** After a conflict answer no later outstanding change of the note can be sent before the user resolves. */
  lemma NothingLaterIsRetryable(s: Store, w: Id, pushed: PendingChange, r: PushResult, now: int, id: Id)
    requires StoreInvariants.Inv(s) && pushed.id in s.changes && (r.Conflict? || r.DuplicateConflict?) && id in s.changes
    requires s.changes[id].noteId == s.changes[pushed.id].noteId && s.changes[id].revision >= s.changes[pushed.id].revision
    ensures !Retryable(ApplyResult(s, w, pushed, Some(r), now).changes[id])
  {
    ConflictStopsLaterWork(s, w, pushed, r, now, id);
    assert StoreInvariants.Apart(s.changes, id, pushed.id);
  }

  /** Listing a note from the server never overwrites local work: a note with local revisions keeps its base and
      deletion flag, and every note keeps its payload and revision. */
  lemma CacheKeepsWork(s: Store, note: Note)
    requires note.id in s.notes
    ensures var before, after := s.notes[note.id], CacheNote(s, note).notes[note.id];
      && after.payload == before.payload && after.legacy == before.legacy && after.revision == before.revision
      && (before.revision > 0 ==> after.base == before.base && after.deleted == before.deleted)
      && (before.revision == 0 ==> after.base == Some(note.current) && after.deleted == note.deleted)
    ensures forall m :: m in s.notes && m != note.id ==> CacheNote(s, note).notes[m] == s.notes[m]
  {
  }
}
