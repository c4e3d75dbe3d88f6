/** The pending-change state machine of the browser's tables: what every transaction keeps,
    with any arguments, any server answers and any pulled pages. */
module StoreInvariants {
  import opened Wrappers
  import opened Envelopes
  import opened SyncTypes
  import opened LocalStore

  /** A change no attempt and no edit touches any more. */
  predicate Closed(c: PendingChange) {
    c.status == Conflicted || c.status == Resolved || c.status == Synced
  }

  /** Every change belongs to a local note and its revision is at most the note's. */
  ghost predicate Owned(notes: map<Id, LocalNote>, changes: map<Id, PendingChange>) {
    && (forall n :: n in notes ==> notes[n].id == n)
    && (forall id :: id in changes ==>
          && changes[id].id == id && changes[id].noteId in notes
          && 1 <= changes[id].revision <= notes[changes[id].noteId].revision)
  }

  ghost predicate Apart(changes: map<Id, PendingChange>, a: Id, b: Id) {
    a in changes && b in changes && a != b && changes[a].noteId == changes[b].noteId ==>
      changes[a].revision != changes[b].revision
  }

  ghost predicate DistinctRevisions(changes: map<Id, PendingChange>) {
    forall a, b :: Apart(changes, a, b)
  }

  /** A conflict record shows its change as it still is. */
  ghost predicate RecordsMatch(changes: map<Id, PendingChange>, conflicts: map<ConflictKey, LocalConflict>) {
    forall k :: k in conflicts ==>
      && k.changeId in changes && Closed(changes[k.changeId])
      && conflicts[k].noteId == changes[k.changeId].noteId && conflicts[k].revision == changes[k.changeId].revision
      && conflicts[k].remote.id == k.versionId
  }

  ghost predicate OpenRecord(conflicts: map<ConflictKey, LocalConflict>, changeId: Id, versionId: Id) {
    ConflictKey(changeId, versionId) in conflicts && conflicts[ConflictKey(changeId, versionId)].settlement == Unresolved
  }

  /** Every conflict change has an unresolved record to resolve. */
  ghost predicate Resolvable(changes: map<Id, PendingChange>, conflicts: map<ConflictKey, LocalConflict>) {
    forall id :: id in changes && changes[id].status == Conflicted ==> exists v :: OpenRecord(conflicts, id, v)
  }

  /** A conflict is recorded in the workspace of its change. */
  ghost predicate RecordsAtHome(s: Store) {
    forall k :: k in s.conflicts && k.changeId in s.changes ==> s.conflicts[k].workspaceId == s.changes[k.changeId].workspaceId
  }

  ghost predicate Inv(s: Store) {
    && Owned(s.notes, s.changes) && DistinctRevisions(s.changes)
    && RecordsMatch(s.changes, s.conflicts) && Resolvable(s.changes, s.conflicts)
  }

  /** `synced` and `resolved` are final; `conflict` leaves only to `resolved`. */
  ghost predicate Moves(c: PendingChange, c': PendingChange) {
    && c'.id == c.id && c'.noteId == c.noteId && c'.kind == c.kind && c'.workspaceId == c.workspaceId
    && c'.createdAt == c.createdAt && c'.revision >= c.revision
    && (c.status == Synced || c.status == Resolved ==> c' == c)
    && (c.status == Conflicted ==> c'.revision == c.revision && (c'.status == Conflicted || c'.status == Resolved))
  }

  ghost predicate Sound(s: Store, s': Store) {
    && (forall id :: id in s.changes ==> id in s'.changes && Moves(s.changes[id], s'.changes[id]))
    && (forall n :: n in s.notes ==> n in s'.notes && s.notes[n].revision <= s'.notes[n].revision)
  }

  /** The transactions that add no change and raise no revision. */
  ghost predicate Reshaped(a: map<Id, PendingChange>, b: map<Id, PendingChange>) {
    && a.Keys == b.Keys
    && forall id :: id in a ==> Moves(a[id], b[id]) && b[id].revision == a[id].revision
  }

  ghost predicate NotesKept(a: map<Id, LocalNote>, b: map<Id, LocalNote>) {
    && (forall n :: n in a ==> n in b && a[n].revision <= b[n].revision)
    && (forall n :: n in b ==> b[n].id == n)
  }

  lemma ReshapedKeepsInv(s: Store, s': Store)
    requires Inv(s) && Reshaped(s.changes, s'.changes) && NotesKept(s.notes, s'.notes) && s'.conflicts == s.conflicts
    requires forall id :: id in s'.changes && s'.changes[id].status == Conflicted ==> s.changes[id].status == Conflicted
    ensures Inv(s') && Sound(s, s')
  {
    forall a, b ensures Apart(s'.changes, a, b) { assert Apart(s.changes, a, b); }
  }

  /** The transactions that put one open change's row again. */
  lemma OneRowKeepsInv(s: Store, id: Id, c: PendingChange, s': Store)
    requires Inv(s) && id in s.changes && s' == s.(changes := s.changes[id := c])
    requires !Closed(s.changes[id]) && Moves(s.changes[id], c) && c.revision == s.changes[id].revision && c.status != Conflicted
    ensures Inv(s') && Sound(s, s')
  {
    forall a, b ensures Apart(s'.changes, a, b) { assert Apart(s.changes, a, b); }
    forall x | x in s'.changes && s'.changes[x].status == Conflicted ensures exists v :: OpenRecord(s'.conflicts, x, v) {
      assert s.changes[x].status == Conflicted;
    }
  }

  lemma SoundTransitive(a: Store, b: Store, c: Store)
    requires Sound(a, b) && Sound(b, c)
    ensures Sound(a, c)
  {
    forall id | id in a.changes ensures id in c.changes && Moves(a.changes[id], c.changes[id]) {
      assert Moves(a.changes[id], b.changes[id]);
      assert Moves(b.changes[id], c.changes[id]);
    }
  }

  lemma CreateKeepsInv(s: Store, w: Id, n: Id, d: Document, e: Envelope, id: Id, now: int)
    requires Inv(s)
    ensures Inv(Create(s, w, n, d, e, id, now)) && Sound(s, Create(s, w, n, d, e, id, now))
  {
    if CanCreate(s, n, d, id) {
      var s' := Create(s, w, n, d, e, id, now);
      assert forall x :: x in s.changes ==> s'.changes[x] == s.changes[x];
      forall a, b ensures Apart(s'.changes, a, b) { assert Apart(s.changes, a, b); }
      forall x | x in s'.changes && s'.changes[x].status == Conflicted ensures exists v :: OpenRecord(s'.conflicts, x, v) {
        assert s.changes[x].status == Conflicted;
      }
    }
  }

  /** What putting a retryable change with the note's new revision does to the changes. */
  ghost predicate Put(a: map<Id, PendingChange>, b: map<Id, PendingChange>, x: Id, note: LocalNote) {
    && x in b && b == a[x := b[x]]
    && b[x].id == x && b[x].noteId == note.id && b[x].revision == note.revision && b[x].status == Pending
    && (x in a ==> Retryable(a[x]) && Moves(a[x], b[x]))
  }

  lemma PutKeepsChanges(notes: map<Id, LocalNote>, a: map<Id, PendingChange>, b: map<Id, PendingChange>, x: Id, note: LocalNote)
    requires Owned(notes, a) && DistinctRevisions(a) && Put(a, b, x, note)
    requires note.id in notes && note.revision > notes[note.id].revision
    ensures Owned(notes[note.id := note], b) && DistinctRevisions(b)
  {
    forall p, q ensures Apart(b, p, q) { assert Apart(a, p, q); }
  }

  lemma PutKeepsRecords(a: map<Id, PendingChange>, b: map<Id, PendingChange>, x: Id, note: LocalNote, conflicts: map<ConflictKey, LocalConflict>)
    requires RecordsMatch(a, conflicts) && Resolvable(a, conflicts) && Put(a, b, x, note)
    ensures RecordsMatch(b, conflicts) && Resolvable(b, conflicts)
  {
    forall y | y in b && b[y].status == Conflicted ensures exists v :: OpenRecord(conflicts, y, v) {
      assert a[y].status == Conflicted;
    }
  }

  lemma UpsertPuts(s: Store, kind: OperationKind, note: LocalNote, payload: Option<Envelope>, existing: Option<Id>, id: Id, now: int)
    requires Owned(s.notes, s.changes) && CanUpsert(s, note.id, kind, existing, id) && note.revision == s.notes[note.id].revision + 1
    ensures Put(s.changes, Upsert(s, kind, note, payload, existing, id, now), if existing.Some? then existing.value else id, note)
  {
  }

  lemma PutIsSound(s: Store, s': Store, x: Id, note: LocalNote)
    requires Put(s.changes, s'.changes, x, note) && note.id in s.notes && note.revision > s.notes[note.id].revision
    requires s'.notes == s.notes[note.id := note]
    ensures Sound(s, s')
  {
  }

  /** Raising a note's revision and putting it on a new or a reused retryable change. */
  lemma UpsertKeepsInv(s: Store, kind: OperationKind, note: LocalNote, payload: Option<Envelope>, existing: Option<Id>,
                       id: Id, now: int, s': Store)
    requires Inv(s) && CanUpsert(s, note.id, kind, existing, id) && note.revision == s.notes[note.id].revision + 1
    requires s' == s.(notes := s.notes[note.id := note], changes := Upsert(s, kind, note, payload, existing, id, now))
    ensures Inv(s') && Sound(s, s')
  {
    var x := if existing.Some? then existing.value else id;
    UpsertPuts(s, kind, note, payload, existing, id, now);
    PutKeepsChanges(s.notes, s.changes, s'.changes, x, note);
    PutKeepsRecords(s.changes, s'.changes, x, note, s.conflicts);
    PutIsSound(s, s', x, note);
  }

  lemma BeginKeepsInv(s: Store, candidates: seq<PendingChange>)
    requires Inv(s)
    ensures Inv(BeginAll(s, candidates).0) && Sound(s, BeginAll(s, candidates).0)
    decreases |candidates|
  {
    if candidates != [] {
      var s1 := Begin(s, candidates[0]).0;
      if s1 != s { OneRowKeepsInv(s, candidates[0].id, s1.changes[candidates[0].id], s1); }
      BeginKeepsInv(s1, candidates[1..]);
      SoundTransitive(s, s1, BeginAll(s, candidates).0);
    }
  }

  lemma MarkReshapes(changes: map<Id, PendingChange>, ids: set<Id>)
    requires DistinctRevisions(changes)
    ensures Reshaped(changes, MarkConflicted(changes, ids)) && DistinctRevisions(MarkConflicted(changes, ids))
  {
    forall a, b ensures Apart(MarkConflicted(changes, ids), a, b) { assert Apart(changes, a, b); }
  }

  /** The new rows: one for each change, under its id and the remote version's. */
  lemma RowOf(changes: map<Id, PendingChange>, ids: set<Id>, w: Id, remote: Version, now: int, k: ConflictKey)
    requires ids <= changes.Keys
    ensures k in ConflictRows(changes, ids, w, remote, now) <==> k.changeId in ids && k.versionId == remote.id
    ensures k in ConflictRows(changes, ids, w, remote, now) ==>
      ConflictRows(changes, ids, w, remote, now)[k] == ConflictRow(changes[k.changeId], w, remote, now)
  {
    if k.changeId in ids && k.versionId == remote.id { assert k == ConflictKey(k.changeId, remote.id); }
  }

  lemma RecordsStayMatched(s: Store, ids: set<Id>, w: Id, remote: Version, now: int, s': Store)
    requires RecordsMatch(s.changes, s.conflicts) && ids <= s.changes.Keys
    requires s' == RecordConflicts(s, ids, w, remote, now)
    ensures RecordsMatch(s'.changes, s'.conflicts)
  {
    forall k | k in s'.conflicts
      ensures k.changeId in s'.changes && Closed(s'.changes[k.changeId])
      ensures s'.conflicts[k].noteId == s'.changes[k.changeId].noteId
      ensures s'.conflicts[k].revision == s'.changes[k.changeId].revision && s'.conflicts[k].remote.id == k.versionId
    {
      RowOf(s.changes, ids, w, remote, now, k);
    }
  }

  lemma RecordsStayResolvable(s: Store, ids: set<Id>, w: Id, remote: Version, now: int, s': Store)
    requires Resolvable(s.changes, s.conflicts) && ids <= s.changes.Keys && s' == RecordConflicts(s, ids, w, remote, now)
    ensures Resolvable(s'.changes, s'.conflicts)
  {
    forall x | x in s'.changes && s'.changes[x].status == Conflicted ensures exists v :: OpenRecord(s'.conflicts, x, v) {
      if x in ids {
        assert OpenRecord(s'.conflicts, x, remote.id);
      } else {
        var v :| OpenRecord(s.conflicts, x, v);
        assert OpenRecord(s'.conflicts, x, v);
      }
    }
  }

  lemma RecordConflictsKeepsInv(s: Store, ids: set<Id>, w: Id, remote: Version, now: int)
    requires Inv(s) && ids <= s.changes.Keys
    ensures Inv(RecordConflicts(s, ids, w, remote, now)) && Sound(s, RecordConflicts(s, ids, w, remote, now))
  {
    var s' := RecordConflicts(s, ids, w, remote, now);
    MarkReshapes(s.changes, ids);
    RecordsStayMatched(s, ids, w, remote, now, s');
    RecordsStayResolvable(s, ids, w, remote, now, s');
  }

  lemma RebaseKeepsInv(s: Store, pushed: PendingChange, versionId: Id)
    requires Inv(s)
    ensures Inv(Rebase(s, pushed, versionId)) && Sound(s, Rebase(s, pushed, versionId))
  {
    ReshapedKeepsInv(s, Rebase(s, pushed, versionId));
  }

  lemma ApplyAcceptedKeepsInv(s: Store, w: Id, pushed: PendingChange, v: Version)
    requires Inv(s) && pushed.id in s.changes
    ensures Inv(ApplyAccepted(s, w, pushed, v)) && Sound(s, ApplyAccepted(s, w, pushed, v))
  {
    var s1 := s.(versions := s.versions[v.id := Cached(w, v)]);
    ReshapedKeepsInv(s, s1);
    var s2 := if AnswersRevision(s1, pushed)
              then s1.(changes := s1.changes[pushed.id := s1.changes[pushed.id].(status := Synced)]) else s1;
    ReshapedKeepsInv(s1, s2);
    RebaseKeepsInv(s2, pushed, v.id);
    SoundTransitive(s, s1, s2);
    SoundTransitive(s, s2, Rebase(s2, pushed, v.id));
  }

  lemma ApplyResultsKeepsInv(s: Store, w: Id, attempted: seq<PendingChange>, results: seq<PushResult>, now: int)
    requires Inv(s)
    ensures Inv(ApplyResults(s, w, attempted, results, now)) && Sound(s, ApplyResults(s, w, attempted, results, now))
    decreases |attempted|
  {
    if attempted != [] {
      var pushed, r := attempted[0], ResultFor(results, attempted[0].id);
      var s1 := ApplyResult(s, w, pushed, r, now);
      ApplyResultKeepsInv(s, w, pushed, r, now);
      ApplyResultsKeepsInv(s1, w, attempted[1..], results, now);
      SoundTransitive(s, s1, ApplyResults(s, w, attempted, results, now));
    }
  }

  lemma FailOneKeepsInv(s: Store, id: Id)
    requires Inv(s)
    ensures Inv(FailOne(s, id)) && Sound(s, FailOne(s, id))
  {
    if FailOne(s, id) != s { OneRowKeepsInv(s, id, s.changes[id].(status := Failed), FailOne(s, id)); }
  }

  lemma ApplyResultKeepsInv(s: Store, w: Id, pushed: PendingChange, r: Option<PushResult>, now: int)
    requires Inv(s)
    ensures Inv(ApplyResult(s, w, pushed, r, now)) && Sound(s, ApplyResult(s, w, pushed, r, now))
  {
    if pushed.id in s.changes {
      if r.None? || r.value.Rejected? {
        FailOneKeepsInv(s, pushed.id);
      } else if r.value.Accepted? || r.value.DuplicateAccepted? {
        ApplyAcceptedKeepsInv(s, w, pushed, r.value.version);
      } else {
        RecordConflictsKeepsInv(s, {pushed.id} + Spread(s, s.changes[pushed.id]), w, r.value.remote, now);
      }
    }
  }

  lemma ApplyPulledKeepsInv(s: Store, w: Id, p: PullChange, now: int)
    requires Inv(s)
    ensures Inv(ApplyPulled(s, w, p, now)) && Sound(s, ApplyPulled(s, w, p, now))
  {
    if Waiting(s, p.note.id) != {} {
      RecordConflictsKeepsInv(s, Diverging(s, p), w, p.version, now);
    } else {
      ReshapedKeepsInv(s, ApplyPulled(s, w, p, now));
    }
  }

  lemma ApplyPulledAllKeepsInv(s: Store, w: Id, ps: seq<PullChange>, now: int)
    requires Inv(s)
    ensures Inv(ApplyPulledAll(s, w, ps, now)) && Sound(s, ApplyPulledAll(s, w, ps, now))
    decreases |ps|
  {
    if ps != [] {
      var s1 := ApplyPulled(s, w, ps[0], now);
      ApplyPulledKeepsInv(s, w, ps[0], now);
      ApplyPulledAllKeepsInv(s1, w, ps[1..], now);
      SoundTransitive(s, s1, ApplyPulledAll(s, w, ps, now));
    }
  }

  lemma RetireKeepsResolvable(s: Store, n: Id, a: Action, id: Id, payload: Option<Envelope>)
    requires RecordsMatch(s.changes, s.conflicts) && Resolvable(s.changes, s.conflicts)
    ensures Resolvable(Retire(s, n), Settle(s, n, a, id, payload))
  {
    var changes', conflicts' := Retire(s, n), Settle(s, n, a, id, payload);
    forall x | x in changes' && changes'[x].status == Conflicted ensures exists v :: OpenRecord(conflicts', x, v) {
      assert s.changes[x].status == Conflicted && s.changes[x].noteId != n;
      var v :| OpenRecord(s.conflicts, x, v);
      var k := ConflictKey(x, v);
      assert s.conflicts[k].noteId == s.changes[k.changeId].noteId;
      assert conflicts'[k] == s.conflicts[k];
      assert OpenRecord(conflicts', x, v);
    }
  }

  lemma RetireKeepsRecords(s: Store, n: Id, a: Action, id: Id, payload: Option<Envelope>)
    requires RecordsMatch(s.changes, s.conflicts)
    ensures RecordsMatch(Retire(s, n), Settle(s, n, a, id, payload))
  {
  }

  lemma RetireReshapes(s: Store, n: Id)
    requires Owned(s.notes, s.changes) && DistinctRevisions(s.changes)
    ensures Reshaped(s.changes, Retire(s, n)) && Owned(s.notes, Retire(s, n)) && DistinctRevisions(Retire(s, n))
  {
    forall p, q ensures Apart(Retire(s, n), p, q) { assert Apart(s.changes, p, q); }
  }

  lemma RetireKeepsInv(s: Store, n: Id, a: Action, id: Id, payload: Option<Envelope>, s': Store)
    requires Inv(s) && s' == s.(changes := Retire(s, n), conflicts := Settle(s, n, a, id, payload))
    ensures Inv(s') && Sound(s, s')
  {
    RetireReshapes(s, n);
    RetireKeepsRecords(s, n, a, id, payload);
    RetireKeepsResolvable(s, n, a, id, payload);
  }

  /** A new pending change whose revision tops the note's and those of all its changes. */
  lemma AddKeepsInv(s: Store, note: LocalNote, c: PendingChange, s': Store)
    requires Inv(s) && note.id in s.notes && note.revision > s.notes[note.id].revision
    requires c.id !in s.changes && c.noteId == note.id && c.revision == note.revision && c.status == Pending
    requires s' == s.(notes := s.notes[note.id := note], changes := s.changes[c.id := c])
    ensures Inv(s') && Sound(s, s')
  {
    var changes' := s.changes[c.id := c];
    forall p, q ensures Apart(changes', p, q) { assert Apart(s.changes, p, q); }
    forall x | x in changes' && changes'[x].status == Conflicted ensures exists v :: OpenRecord(s.conflicts, x, v) {
      assert s.changes[x].status == Conflicted;
    }
  }

  lemma ResolveKeepsInv(s: Store, key: ConflictKey, a: Action, e: Option<Envelope>, expected: Option<nat>, next: nat,
                        id: Id, now: int)
    requires Inv(s)
    ensures var s' := Resolve(s, key, a, e, expected, next, id, now); Inv(s') && Sound(s, s')
  {
    var s' := Resolve(s, key, a, e, expected, next, id, now);
    if s' != s {
      var c := s.conflicts[key];
      var payload := ResolutionPayload(s.notes[c.noteId], c, a, e);
      var note := s.notes[c.noteId].(base := Some(c.remote.id), deleted := false, payload := payload, legacy := None, revision := next);
      var s1 := s.(changes := Retire(s, c.noteId), conflicts := Settle(s, c.noteId, a, id, payload));
      RetireKeepsInv(s, c.noteId, a, id, payload, s1);
      AddKeepsInv(s1, note, NewChange(id, UpdateNote, note, payload, now), s');
      SoundTransitive(s, s1, s');
    }
  }

  lemma EditKeepsInv(s: Store, n: Id, d: Document, e: Envelope, expected: Option<nat>, existing: Option<Id>, id: Id, now: int)
    requires Inv(s)
    ensures var s' := Edit(s, n, d, e, expected, existing, id, now); Inv(s') && Sound(s, s')
  {
    var s' := Edit(s, n, d, e, expected, existing, id, now);
    if s' != s {
      var note := s.notes[n].(payload := Some(e), legacy := None, revision := s.notes[n].revision + 1);
      UpsertKeepsInv(s, UpdateNote, note, Some(e), existing, id, now, s');
    }
  }

  lemma DeleteKeepsInv(s: Store, n: Id, existing: Option<Id>, id: Id, now: int)
    requires Inv(s)
    ensures var s' := Delete(s, n, existing, id, now); Inv(s') && Sound(s, s')
  {
    var s' := Delete(s, n, existing, id, now);
    if s' != s {
      var note := s.notes[n].(deleted := true, revision := s.notes[n].revision + 1);
      UpsertKeepsInv(s, DeleteNote, note, None, existing, id, now, s');
    }
  }

  lemma FailAllKeepsInv(s: Store, attempted: seq<PendingChange>)
    requires Inv(s)
    ensures Inv(FailAll(s, attempted)) && Sound(s, FailAll(s, attempted))
  {
    ReshapedKeepsInv(s, FailAll(s, attempted));
  }

  lemma StorePayloadKeepsInv(s: Store, id: Id, revision: nat, e: Envelope)
    requires Inv(s)
    ensures Inv(StorePayload(s, id, revision, e)) && Sound(s, StorePayload(s, id, revision, e))
  {
    if StorePayload(s, id, revision, e) != s {
      OneRowKeepsInv(s, id, s.changes[id].(payload := Some(e), legacy := None), StorePayload(s, id, revision, e));
    }
  }

  lemma CacheKeepsInv(s: Store, note: Note)
    requires Inv(s)
    ensures Inv(CacheNote(s, note)) && Sound(s, CacheNote(s, note))
  {
    ReshapedKeepsInv(s, CacheNote(s, note));
  }

  lemma CacheDetailKeepsInv(s: Store, note: Note, v: Version)
    requires Inv(s)
    ensures Inv(CacheDetail(s, note, v)) && Sound(s, CacheDetail(s, note, v))
  {
    CacheKeepsInv(s, note);
  }

  lemma PageKeepsInv(s: Store, page: PullPage, now: int)
    requires Inv(s)
    ensures Inv(ApplyPage(s, page, now)) && Sound(s, ApplyPage(s, page, now))
  {
    ApplyPulledAllKeepsInv(s, page.workspaceId, page.changes, now);
  }

  ghost predicate Keeps(s: Store, s': Store) {
    Inv(s') && Sound(s, s')
  }

  predicate UserWrites(step: LocalStep) {
    step.CreateStep? || step.EditStep? || step.DeleteStep? || step.ResolveStep?
  }

  predicate ServerSends(step: LocalStep) {
    step.ResultsStep? || step.PullStep? || step.CacheStep? || step.CacheDetailStep?
  }

  lemma WriteKeepsInv(s: Store, step: LocalStep)
    requires Inv(s) && UserWrites(step)
    ensures Keeps(s, Next(s, step))
  {
    match step
    case CreateStep(w, n, d, e, id, now) =>
      CreateKeepsInv(s, w, n, d, e, id, now);
      assert Keeps(s, Create(s, w, n, d, e, id, now));
    case EditStep(n, d, e, expected, existing, id, now) =>
      EditKeepsInv(s, n, d, e, expected, existing, id, now);
      assert Keeps(s, Edit(s, n, d, e, expected, existing, id, now));
    case DeleteStep(n, existing, id, now) =>
      DeleteKeepsInv(s, n, existing, id, now);
      assert Keeps(s, Delete(s, n, existing, id, now));
    case ResolveStep(key, a, e, expected, next, id, now) =>
      ResolveKeepsInv(s, key, a, e, expected, next, id, now);
      assert Keeps(s, Resolve(s, key, a, e, expected, next, id, now));
  }

  lemma OtherKeepsInv(s: Store, step: LocalStep)
    requires Inv(s) && !UserWrites(step) && !ServerSends(step)
    ensures Keeps(s, Next(s, step))
  {
    match step
    case StorePayloadStep(id, revision, e) =>
      StorePayloadKeepsInv(s, id, revision, e);
      assert Keeps(s, StorePayload(s, id, revision, e));
    case BeginStep(candidates) =>
      BeginKeepsInv(s, candidates);
      assert Keeps(s, BeginAll(s, candidates).0);
    case FailStep(attempted) =>
      FailAllKeepsInv(s, attempted);
      assert Keeps(s, FailAll(s, attempted));
  }

  lemma AnswerKeepsInv(s: Store, step: LocalStep)
    requires Inv(s) && ServerSends(step)
    ensures Keeps(s, Next(s, step))
  {
    match step
    case ResultsStep(w, attempted, results, now) =>
      ApplyResultsKeepsInv(s, w, attempted, results, now);
      assert Keeps(s, ApplyResults(s, w, attempted, results, now));
    case PullStep(page, now) =>
      PageKeepsInv(s, page, now);
      assert Keeps(s, ApplyPage(s, page, now));
    case CacheStep(note) =>
      CacheKeepsInv(s, note);
      assert Keeps(s, CacheNote(s, note));
    case CacheDetailStep(note, v) =>
      CacheDetailKeepsInv(s, note, v);
      assert Keeps(s, CacheDetail(s, note, v));
  }

  /** Every transaction keeps the invariant and moves every change soundly. */
  lemma NextKeepsInv(s: Store, step: LocalStep)
    requires Inv(s)
    ensures Inv(Next(s, step)) && Sound(s, Next(s, step))
  {
    if UserWrites(step) {
      WriteKeepsInv(s, step);
    } else if ServerSends(step) {
      AnswerKeepsInv(s, step);
    } else {
      OtherKeepsInv(s, step);
    }
  }

  /** The state machine is sound over whole runs from the empty tables: final states stay final, a note's
      changes carry distinct revisions at most the note's, and every `conflict` change can be resolved. */
  lemma {:induction false} RunKeepsInv(s: Store, steps: seq<LocalStep>)
    requires Inv(s)
    ensures Inv(Run(s, steps)) && Sound(s, Run(s, steps))
    decreases |steps|
  {
    if steps != [] {
      NextKeepsInv(s, steps[0]);
      RunKeepsInv(Next(s, steps[0]), steps[1..]);
      SoundTransitive(s, Next(s, steps[0]), Run(s, steps));
    }
  }
}
