/** The browser's repository: each method is one transaction that reads and puts rows one at a time. Its contract
    is the function of `LocalStore` that the proofs are about. */
module LocalRepository {
  import opened Wrappers
  import opened Envelopes
  import opened SyncTypes
  import opened LocalStore
  import opened Migration

  // ---- How the functions of whole transactions come from single rows ----

  lemma NoRows(changes: map<Id, PendingChange>, w: Id, remote: Version, now: int)
    ensures ConflictRows(changes, {}, w, remote, now).Keys == {}
  {
  }

  lemma NoneMarked(changes: map<Id, PendingChange>)
    ensures MarkConflicted(changes, {}) == changes
  {
  }

  lemma RecordNone(s: Store, w: Id, remote: Version, now: int)
    ensures s.conflicts + ConflictRows(s.changes, {}, w, remote, now) == s.conflicts
    ensures MarkConflicted(s.changes, {}) == s.changes
  {
    NoRows(s.changes, w, remote, now);
    NoneMarked(s.changes);
  }

  lemma RowsOneMore(conflicts: map<ConflictKey, LocalConflict>, changes: map<Id, PendingChange>, ids: set<Id>, id: Id,
                    w: Id, remote: Version, now: int)
    requires ids + {id} <= changes.Keys
    ensures conflicts + ConflictRows(changes, ids + {id}, w, remote, now) ==
      (conflicts + ConflictRows(changes, ids, w, remote, now))[ConflictKey(id, remote.id) := ConflictRow(changes[id], w, remote, now)]
  {
    assert ConflictRows(changes, ids + {id}, w, remote, now) ==
      ConflictRows(changes, ids, w, remote, now)[ConflictKey(id, remote.id) := ConflictRow(changes[id], w, remote, now)];
  }

  lemma MarkOneMore(changes: map<Id, PendingChange>, ids: set<Id>, id: Id)
    requires id in changes && id !in ids
    ensures MarkConflicted(changes, ids + {id}) ==
      var marked := MarkConflicted(changes, ids);
      if Outstanding(marked[id]) then marked[id := marked[id].(status := Conflicted)] else marked
    ensures MarkConflicted(changes, ids)[id] == changes[id]
  {
  }

  lemma RecordOneMore(s: Store, done: set<Id>, id: Id, w: Id, remote: Version, now: int)
    requires done + {id} <= s.changes.Keys && id !in done
    ensures var r := RecordConflicts(s, done, w, remote, now);
      && r.changes.Keys == s.changes.Keys && r.changes[id] == s.changes[id] && r.versions == s.versions[remote.id := Cached(w, remote)]
      && RecordConflicts(s, done + {id}, w, remote, now) ==
         r.(conflicts := r.conflicts[ConflictKey(id, remote.id) := ConflictRow(s.changes[id], w, remote, now)],
            changes := if Outstanding(s.changes[id]) then r.changes[id := s.changes[id].(status := Conflicted)] else r.changes)
  {
    RowsOneMore(s.conflicts, s.changes, done, id, w, remote, now);
    MarkOneMore(s.changes, done, id);
  }

  /** The rows of a set of changes with a new base. */
  function Rebased(changes: map<Id, PendingChange>, ids: set<Id>, versionId: Id): map<Id, PendingChange> {
    map id | id in changes :: if id in ids then changes[id].(base := Some(versionId)) else changes[id]
  }

  /** The changes `rebaseAcceptedDescendants` rebases. */
  function Descendants(changes: map<Id, PendingChange>, pushed: PendingChange): set<Id> {
    set id | id in changes && Later(changes[id], pushed) && changes[id].base == pushed.base
  }

  lemma FailOneMore(s: Store, attempted: seq<PendingChange>, p: PendingChange)
    ensures FailAll(s, attempted + [p]) ==
      var s1 := FailAll(s, attempted);
      if p.id in s1.changes && s1.changes[p.id].revision == p.revision && s1.changes[p.id].status == Syncing
      then s1.(changes := s1.changes[p.id := s1.changes[p.id].(status := Failed)]) else s1
  {
    var s1, all := FailAll(s, attempted), attempted + [p];
    var s2 := FailAll(s, all);
    assert all[|attempted|] == p;
    forall id | id in s.changes
      ensures s2.changes[id] ==
        if id == p.id && s1.changes[id].revision == p.revision && s1.changes[id].status == Syncing
        then s1.changes[id].(status := Failed) else s1.changes[id]
    {
      var c := s.changes[id];
      forall k | 0 <= k < |attempted| ensures all[k] == attempted[k] {
      }
    }
    assert s2.changes.Keys == s1.changes.Keys == s.changes.Keys;
  }

  lemma FailNone(s: Store)
    ensures FailAll(s, []) == s
  {
    assert FailAll(s, []).changes == s.changes;
  }

  /** The rows of a set of changes as resolved. */
  function Retired(changes: map<Id, PendingChange>, ids: set<Id>): map<Id, PendingChange> {
    map id | id in changes :: if id in ids then changes[id].(status := Resolved) else changes[id]
  }

  /** The rows of a set of conflicts as settled. */
  function SettledRows(conflicts: map<ConflictKey, LocalConflict>, keys: set<ConflictKey>, settlement: Settlement, payload: Option<Envelope>)
    : map<ConflictKey, LocalConflict>
  {
    map k | k in conflicts ::
      if k in keys then conflicts[k].(settlement := settlement, resolved := payload, resolvedLegacy := None) else conflicts[k]
  }

  predicate RetryableIn(c: PendingChange, workspaceId: Id) {
    c.workspaceId == workspaceId && Retryable(c)
  }

  ghost predicate Sorted(changes: map<Id, PendingChange>, ids: seq<Id>) {
    && (forall k :: 0 <= k < |ids| ==> ids[k] in changes)
    && (forall j, k :: 0 <= j < k < |ids| ==> ids[j] != ids[k] && Before(changes[ids[j]], changes[ids[k]]))
  }

  class LocalNotesRepository {
    var notes: map<Id, LocalNote>
    var changes: map<Id, PendingChange>
    var conflicts: map<ConflictKey, LocalConflict>
    var versions: map<Id, CachedVersion>
    var cursors: map<Id, Cursor>

    constructor ()
      ensures State() == EMPTY
    {
      notes, changes, conflicts, versions, cursors := map[], map[], map[], map[], map[];
    }

    function State(): Store
      reads this
    {
      Store(notes, changes, conflicts, versions, cursors)
    }

    // ---- Notes written by the user ----

    /** `createNote`; adding a row whose key exists throws. */
    method CreateNote(workspaceId: Id, noteId: Id, d: Document, e: Envelope, changeId: Id, now: int) returns (ok: bool)
      modifies this
      ensures State() == Create(old(State()), workspaceId, noteId, d, e, changeId, now)
      ensures ok <==> CanCreate(old(State()), noteId, d, changeId)
    {
      if !ValidDocument(d) || noteId in notes || changeId in changes { return false; }
      var note := LocalNote(noteId, workspaceId, None, false, Some(e), None, 1);
      notes := notes[noteId := note];
      changes := changes[changeId := NewChange(changeId, SyncTypes.CreateNote, note, Some(e), now)];
      ok := true;
    }

    /** The first reusable change of the note, in whatever order the rows come. */
    method FindReusable(noteId: Id, kind: OperationKind) returns (existing: Option<Id>)
      ensures ReuseChoice(State(), noteId, kind, existing)
    {
      var rest := changes.Keys;
      while rest != {}
        invariant rest <= changes.Keys
        invariant forall id :: id in changes && id !in rest ==> !Reusable(State(), noteId, kind, id)
        decreases rest
      {
        var id :| id in rest;
        if Reusable(State(), noteId, kind, id) { return Some(id); }
        rest := rest - {id};
      }
      existing := None;
    }

    /** `upsertPendingChange`, after the note's row was put. */
    method UpsertPendingChange(kind: OperationKind, note: LocalNote, payload: Option<Envelope>, existing: Option<Id>, changeId: Id, now: int)
      requires existing.Some? ==> existing.value in changes
      modifies this`changes
      ensures changes == Upsert(old(State()), kind, note, payload, existing, changeId, now)
    {
      if existing.None? {
        changes := changes[changeId := NewChange(changeId, kind, note, payload, now)];
      } else {
        var c := changes[existing.value];
        changes := changes[existing.value := c.(base := note.base, payload := payload, legacy := None,
                                                revision := note.revision, status := Pending)];
      }
    }

    /** `editNote` */
    method EditNote(noteId: Id, d: Document, e: Envelope, expected: Option<nat>, changeId: Id, now: int)
      returns (ok: bool, existing: Option<Id>)
      modifies this
      ensures ReuseChoice(old(State()), noteId, UpdateNote, existing)
      ensures State() == Edit(old(State()), noteId, d, e, expected, existing, changeId, now)
      ensures ok <==> State() != old(State())
    {
      existing := FindReusable(noteId, UpdateNote);
      if !ValidDocument(d) || noteId !in notes || notes[noteId].deleted { return false, existing; }
      if expected.Some? && expected.value != notes[noteId].revision { return false, existing; }
      if existing.None? && changeId in changes { return false, existing; }
      var note := notes[noteId].(payload := Some(e), legacy := None, revision := notes[noteId].revision + 1);
      UpsertPendingChange(UpdateNote, note, Some(e), existing, changeId, now);
      assert note.revision != notes[noteId].revision;
      notes := notes[noteId := note];
      ok := true;
    }

    /** `deleteNote` */
    method DeleteNote(noteId: Id, changeId: Id, now: int) returns (ok: bool, existing: Option<Id>)
      modifies this
      ensures ReuseChoice(old(State()), noteId, SyncTypes.DeleteNote, existing)
      ensures State() == Delete(old(State()), noteId, existing, changeId, now)
      ensures ok <==> State() != old(State())
    {
      existing := FindReusable(noteId, SyncTypes.DeleteNote);
      if noteId !in notes || notes[noteId].deleted { return false, existing; }
      if existing.None? && changeId in changes { return false, existing; }
      var note := notes[noteId].(deleted := true, revision := notes[noteId].revision + 1);
      UpsertPendingChange(SyncTypes.DeleteNote, note, None, existing, changeId, now);
      assert note.revision != notes[noteId].revision;
      notes := notes[noteId := note];
      ok := true;
    }

    // ---- Sync attempts ----

    /** `storeEncryptedPayload` */
    method StoreEncryptedPayload(id: Id, revision: nat, e: Envelope)
      modifies this`changes
      ensures State() == StorePayload(old(State()), id, revision, e)
    {
      if id !in changes || changes[id].revision != revision || !Retryable(changes[id]) { return; }
      changes := changes[id := changes[id].(payload := Some(e), legacy := None)];
    }

    /** What beginning the candidates from `k` on leaves, after those before have been started. */
    ghost function BeginRest(s: Store, candidates: seq<PendingChange>, k: nat, started: seq<PendingChange>): (Store, seq<PendingChange>)
      requires k <= |candidates|
    {
      var (s1, others) := BeginAll(s, candidates[k..]);
      (s1, started + others)
    }

    lemma BeginNext(s: Store, candidates: seq<PendingChange>, k: nat, started: seq<PendingChange>)
      requires k < |candidates|
      ensures var (s1, first) := Begin(s, candidates[k]);
        BeginRest(s, candidates, k, started) == BeginRest(s1, candidates, k + 1, started + first)
    {
      assert candidates[k..][0] == candidates[k] && candidates[k..][1..] == candidates[k + 1..];
      var (s1, first) := Begin(s, candidates[k]);
      var others := BeginAll(s1, candidates[k + 1..]).1;
      assert started + (first + others) == started + first + others;
    }

    lemma BeginFirst(s: Store, candidates: seq<PendingChange>)
      ensures BeginRest(s, candidates, 0, []) == BeginAll(s, candidates)
    {
      assert candidates[0..] == candidates;
      assert [] + BeginAll(s, candidates).1 == BeginAll(s, candidates).1;
    }

    /** `beginSyncAttempt` */
    method BeginSyncAttempt(candidates: seq<PendingChange>) returns (started: seq<PendingChange>)
      modifies this`changes
      ensures State() == BeginAll(old(State()), candidates).0 && started == BeginAll(old(State()), candidates).1
    {
      started := [];
      ghost var start := State();
      BeginFirst(start, candidates);
      for k := 0 to |candidates|
        invariant BeginRest(State(), candidates, k, started) == BeginAll(start, candidates)
      {
        BeginNext(State(), candidates, k, started);
        var candidate := candidates[k];
        if candidate.id in changes && changes[candidate.id].revision == candidate.revision && Retryable(changes[candidate.id]) {
          var current := changes[candidate.id];
          var updated := current.(attempts := current.attempts + 1, status := Syncing);
          changes := changes[candidate.id := updated];
          started := started + [updated];
        } else {
          assert started + [] == started;
        }
      }
    }

    /** `markSyncAttemptFailed` */
    method MarkSyncAttemptFailed(attempted: seq<PendingChange>)
      modifies this`changes
      ensures State() == FailAll(old(State()), attempted)
    {
      FailNone(State());
      for k := 0 to |attempted|
        invariant State() == FailAll(old(State()), attempted[..k])
      {
        FailOneMore(old(State()), attempted[..k], attempted[k]);
        assert attempted[..k + 1] == attempted[..k] + [attempted[k]];
        var id := attempted[k].id;
        if id in changes && changes[id].revision == attempted[k].revision && changes[id].status == Syncing {
          changes := changes[id := changes[id].(status := Failed)];
        }
      }
      assert attempted[..|attempted|] == attempted;
    }

    /** `recordConflict` */
    method RecordConflict(id: Id, remote: Version, workspaceId: Id, now: int)
      requires id in changes
      modifies this`versions, this`conflicts, this`changes
      ensures versions == old(versions)[remote.id := Cached(workspaceId, remote)]
      ensures conflicts == old(conflicts)[ConflictKey(id, remote.id) := ConflictRow(old(changes)[id], workspaceId, remote, now)]
      ensures changes == if Outstanding(old(changes)[id]) then old(changes)[id := old(changes)[id].(status := Conflicted)] else old(changes)
    {
      var change := changes[id];
      versions := versions[remote.id := Cached(workspaceId, remote)];
      conflicts := conflicts[ConflictKey(id, remote.id) := ConflictRow(change, workspaceId, remote, now)];
      if Outstanding(changes[id]) { changes := changes[id := changes[id].(status := Conflicted)]; }
    }

    /** Put the version, then record each of the changes against it. */
    method RecordEach(ids: set<Id>, remote: Version, workspaceId: Id, now: int)
      requires ids <= changes.Keys
      modifies this`versions, this`conflicts, this`changes
      ensures State() == RecordConflicts(old(State()), ids, workspaceId, remote, now)
    {
      RecordNone(State(), workspaceId, remote, now);
      versions := versions[remote.id := Cached(workspaceId, remote)];
      var rest := ids;
      assert ids - rest == {};
      while rest != {}
        invariant rest <= ids <= old(changes).Keys
        invariant State() == RecordConflicts(old(State()), ids - rest, workspaceId, remote, now)
        decreases rest
      {
        var id :| id in rest;
        RecordOneMore(old(State()), ids - rest, id, workspaceId, remote, now);
        assert ids - (rest - {id}) == ids - rest + {id};
        RecordConflict(id, remote, workspaceId, now);
        assert versions == versions[remote.id := Cached(workspaceId, remote)];
        rest := rest - {id};
      }
      assert ids - rest == ids;
    }

    /** `rebaseAcceptedDescendants` */
    method RebaseAcceptedDescendants(pushed: PendingChange, versionId: Id)
      modifies this`notes, this`changes
      ensures State() == Rebase(old(State()), pushed, versionId)
    {
      if pushed.noteId in notes {
        notes := notes[pushed.noteId := notes[pushed.noteId].(base := Some(versionId))];
      }
      var descendants := Descendants(changes, pushed);
      var rest := descendants;
      assert Rebased(changes, descendants - rest, versionId) == changes;
      while rest != {}
        invariant rest <= descendants <= old(changes.Keys)
        invariant notes == Rebase(old(State()), pushed, versionId).notes
        invariant changes == Rebased(old(changes), descendants - rest, versionId)
        decreases rest
      {
        var id :| id in rest;
        changes := changes[id := changes[id].(base := Some(versionId))];
        assert changes == Rebased(old(changes), descendants - (rest - {id}), versionId);
        rest := rest - {id};
      }
      assert descendants - rest == descendants;
      ghost var rebased := Rebase(old(State()), pushed, versionId);
      assert changes == rebased.changes;
    }
  
    // ---- Answers and pages ----

    /** `failCurrentChange` */
    method FailCurrentChange(id: Id)
      modifies this`changes
      ensures State() == FailOne(old(State()), id)
    {
      if id in changes && changes[id].status == Syncing { changes := changes[id := changes[id].(status := Failed)]; }
    }

    /** One answer of `applyPushResults`. */
    method ApplyPushResult(workspaceId: Id, pushed: PendingChange, result: Option<PushResult>, now: int)
      modifies this
      ensures State() == ApplyResult(old(State()), workspaceId, pushed, result, now)
    {
      if pushed.id !in changes { return; }
      var current := changes[pushed.id];
      if result.None? || result.value.Rejected? {
        FailCurrentChange(pushed.id);
      } else if result.value.Accepted? || result.value.DuplicateAccepted? {
        var version := result.value.version;
        versions := versions[version.id := Cached(workspaceId, version)];
        if current.revision == pushed.revision && current.status == Syncing {
          changes := changes[pushed.id := current.(status := Synced)];
        }
        RebaseAcceptedDescendants(pushed, version.id);
      } else {
        RecordEach({pushed.id} + Spread(State(), current), result.value.remote, workspaceId, now);
      }
    }

    /** The last answer with an operation's id. */
    method FindResult(results: seq<PushResult>, id: Id) returns (result: Option<PushResult>)
      ensures result == ResultFor(results, id)
    {
      result := None;
      for k := 0 to |results|
        invariant result == ResultFor(results[..k], id)
      {
        assert results[..k + 1][..k] == results[..k];
        if results[k].operationId == id { result := Some(results[k]); }
      }
      assert results[..|results|] == results;
    }

    /** `applyPushResults` */
    method ApplyPushResults(workspaceId: Id, attempted: seq<PendingChange>, results: seq<PushResult>, now: int)
      modifies this
      ensures State() == ApplyResults(old(State()), workspaceId, attempted, results, now)
    {
      assert attempted[0..] == attempted;
      for k := 0 to |attempted|
        invariant ApplyResults(old(State()), workspaceId, attempted, results, now)
               == ApplyResults(State(), workspaceId, attempted[k..], results, now)
      {
        assert attempted[k..][0] == attempted[k] && attempted[k..][1..] == attempted[k + 1..];
        var result := FindResult(results, attempted[k].id);
        ApplyPushResult(workspaceId, attempted[k], result, now);
      }
    }

    /** One entry of `applyPullResponse`. */
    method ApplyPulledEntry(workspaceId: Id, p: PullChange, now: int)
      modifies this
      ensures State() == ApplyPulled(old(State()), workspaceId, p, now)
    {
      if Waiting(State(), p.note.id) != {} {
        RecordEach(Diverging(State(), p), p.version, workspaceId, now);
      } else {
        versions := versions[p.version.id := Cached(workspaceId, p.version)];
        var row :=
          if p.note.id in notes
          then notes[p.note.id].(workspaceId := p.note.workspaceId, base := Some(p.version.id), deleted := p.note.deleted)
          else LocalNote(p.note.id, p.note.workspaceId, Some(p.version.id), p.note.deleted, None, None, 0);
        notes := notes[p.note.id := row];
      }
    }

    /** `applyPullResponse` */
    method ApplyPullResponse(page: PullPage, now: int)
      modifies this
      ensures State() == ApplyPage(old(State()), page, now)
    {
      assert page.changes[0..] == page.changes;
      for k := 0 to |page.changes|
        invariant ApplyPulledAll(old(State()), page.workspaceId, page.changes, now)
               == ApplyPulledAll(State(), page.workspaceId, page.changes[k..], now)
      {
        assert page.changes[k..][0] == page.changes[k] && page.changes[k..][1..] == page.changes[k + 1..];
        ApplyPulledEntry(page.workspaceId, page.changes[k], now);
      }
      cursors := cursors[page.workspaceId := page.next];
    }

    /** `cacheServerNote` */
    method CacheServerNote(note: Note)
      modifies this`notes
      ensures State() == CacheNote(old(State()), note)
    {
      var base, deleted := Some(note.current), note.deleted;
      if note.id in notes && notes[note.id].revision > 0 { base, deleted := notes[note.id].base, notes[note.id].deleted; }
      notes := notes[note.id :=
        if note.id in notes then notes[note.id].(workspaceId := note.workspaceId, base := base, deleted := deleted)
        else LocalNote(note.id, note.workspaceId, base, deleted, None, None, 0)];
    }

    /** `cacheServerNoteDetail` */
    method CacheServerNoteDetail(note: Note, version: Version)
      modifies this`notes, this`versions
      ensures State() == CacheDetail(old(State()), note, version)
    {
      CacheServerNote(note);
      versions := versions[version.id := Cached(note.workspaceId, version)];
    }

    // ---- Listing ----

    /** Put a change behind those it does not come before. */
    method Insert(ids: seq<Id>, id: Id) returns (longer: seq<Id>)
      requires Sorted(changes, ids) && id in changes && id !in ids
      ensures Sorted(changes, longer) && forall x :: x in longer <==> x in ids || x == id
    {
      var at := 0;
      while at < |ids| && Before(changes[ids[at]], changes[id])
        invariant at <= |ids| && forall k :: 0 <= k < at ==> Before(changes[ids[k]], changes[id])
      {
        at := at + 1;
      }
      longer := ids[..at] + [id] + ids[at..];
      forall j, k | 0 <= j < k < |longer| ensures longer[j] != longer[k] && Before(changes[longer[j]], changes[longer[k]]) {
        if k == at {
          assert longer[j] == ids[j];
        } else if j == at {
          assert longer[k] == ids[k - 1];
        }
      }
    }

    /** `listRetryableChanges` */
    method ListRetryableChanges(workspaceId: Id) returns (ids: seq<Id>)
      ensures Sorted(changes, ids)
      ensures forall id :: id in ids <==>
        id in changes && changes[id].workspaceId == workspaceId && changes[id].status in {Pending, Failed}
    {
      ids := [];
      var rest := changes.Keys;
      while rest != {}
        invariant rest <= changes.Keys && Sorted(changes, ids)
        invariant forall id :: id in ids <==> id in changes && id !in rest && RetryableIn(changes[id], workspaceId)
        decreases rest
      {
        var id :| id in rest;
        if RetryableIn(changes[id], workspaceId) { ids := Insert(ids, id); }
        rest := rest - {id};
      }
    }
  
    // ---- Resolution ----

    /** `getUnresolvedConflictForNote` */
    method FindLatestConflict(noteId: Id) returns (latest: Option<ConflictKey>)
      ensures latest.Some? ==> IsLatest(State(), latest.value, noteId)
      ensures latest.None? <==> forall k :: k in conflicts ==> conflicts[k].noteId != noteId || conflicts[k].settlement != Unresolved
    {
      latest := None;
      var rest := conflicts.Keys;
      while rest != {}
        invariant rest <= conflicts.Keys
        invariant latest.Some? ==> OpenConflict(State(), latest.value, noteId)
        invariant forall k :: k in conflicts && k !in rest && OpenConflict(State(), k, noteId) ==>
          latest.Some? && Precedes(latest.value, conflicts[latest.value], k, conflicts[k])
        decreases rest
      {
        var k :| k in rest;
        if OpenConflict(State(), k, noteId)
           && (latest.None? || !Precedes(latest.value, conflicts[latest.value], k, conflicts[k])) {
          latest := Some(k);
        }
        rest := rest - {k};
      }
    }

    /** One more than the note's revision and all its changes' revisions. */
    method NextRevision(noteId: Id) returns (next: nat)
      requires noteId in notes
      ensures IsNextRevision(State(), noteId, next)
    {
      var top := notes[noteId].revision;
      var pending := ChangesOf(State(), noteId);
      var rest := pending;
      while rest != {}
        invariant rest <= pending && top >= notes[noteId].revision
        invariant forall id :: id in pending && id !in rest ==> top >= changes[id].revision
        invariant top == notes[noteId].revision || exists id :: id in pending && top == changes[id].revision
        decreases rest
      {
        var id :| id in rest;
        if changes[id].revision > top { top := changes[id].revision; }
        rest := rest - {id};
      }
      next := top + 1;
    }

    /** Every outstanding change of the note becomes `resolved`. */
    method RetireChanges(noteId: Id)
      modifies this`changes
      ensures changes == Retire(old(State()), noteId)
    {
      var pending := Waiting(State(), noteId);
      var rest := pending;
      assert Retired(changes, pending - rest) == changes;
      while rest != {}
        invariant rest <= pending <= old(changes.Keys) && changes == Retired(old(changes), pending - rest)
        decreases rest
      {
        var id :| id in rest;
        changes := changes[id := changes[id].(status := Resolved)];
        assert changes == Retired(old(changes), pending - (rest - {id}));
        rest := rest - {id};
      }
      assert pending - rest == pending;
      assert changes == Retire(old(State()), noteId);
    }

    /** Every unresolved conflict of the note becomes settled. */
    method SettleConflicts(noteId: Id, a: Action, changeId: Id, payload: Option<Envelope>)
      modifies this`conflicts
      ensures conflicts == Settle(old(State()), noteId, a, changeId, payload)
    {
      var open := set k | k in conflicts && OpenConflict(State(), k, noteId);
      var rest := open;
      assert SettledRows(conflicts, open - rest, Settled(a, changeId), payload) == conflicts;
      while rest != {}
        invariant rest <= open <= old(conflicts.Keys)
        invariant conflicts == SettledRows(old(conflicts), open - rest, Settled(a, changeId), payload)
        decreases rest
      {
        var k :| k in rest;
        conflicts := conflicts[k := conflicts[k].(settlement := Settled(a, changeId), resolved := payload, resolvedLegacy := None)];
        assert conflicts == SettledRows(old(conflicts), open - (rest - {k}), Settled(a, changeId), payload);
        rest := rest - {k};
      }
      assert open - rest == open;
      assert conflicts == Settle(old(State()), noteId, a, changeId, payload);
    }

    /** The checks of `resolveConflict`, the revision it computes and the envelope it stores. */
    method CheckResolution(key: ConflictKey, a: Action, e: Option<Envelope>, changeId: Id)
      returns (ok: bool, next: nat, payload: Option<Envelope>)
      ensures ok <==> CanResolve(State(), key, a, e, next, changeId)
      ensures ok ==> payload == ResolutionPayload(notes[conflicts[key].noteId], conflicts[key], a, e)
      ensures key in conflicts && conflicts[key].noteId in notes ==> IsNextRevision(State(), conflicts[key].noteId, next)
    {
      ok, next, payload := false, 0, None;
      if key !in conflicts { return; }
      var c := conflicts[key];
      if c.noteId !in notes { return; }
      next := NextRevision(c.noteId);
      var latest := FindLatestConflict(c.noteId);
      if latest != Some(key) { return; }
      var note := notes[c.noteId];
      if note.workspaceId != c.workspaceId || !ValidAction(a) || changeId in changes { return; }
      payload := ResolutionPayload(note, c, a, e);
      ok := payload.Some?;
    }

    /** The writes of `resolveConflict`. */
    method StoreResolution(c: LocalConflict, a: Action, payload: Option<Envelope>, next: nat, changeId: Id, now: int)
      requires c.noteId in notes
      modifies this
      ensures var note := old(notes)[c.noteId].(base := Some(c.remote.id), deleted := false, payload := payload, legacy := None, revision := next);
        State() == old(State()).(
          notes := old(notes)[c.noteId := note],
          changes := Retire(old(State()), c.noteId)[changeId := NewChange(changeId, UpdateNote, note, payload, now)],
          conflicts := Settle(old(State()), c.noteId, a, changeId, payload))
    {
      var resolved := notes[c.noteId].(base := Some(c.remote.id), deleted := false, payload := payload, legacy := None, revision := next);
      RetireChanges(c.noteId);
      SettleConflicts(c.noteId, a, changeId, payload);
      notes := notes[c.noteId := resolved];
      changes := changes[changeId := NewChange(changeId, UpdateNote, resolved, payload, now)];
    }

    /** `resolveConflict` */
    method ResolveConflict(key: ConflictKey, a: Action, e: Option<Envelope>, expected: Option<nat>, changeId: Id, now: int)
      returns (ok: bool, next: nat)
      modifies this
      ensures State() == Resolve(old(State()), key, a, e, expected, next, changeId, now)
      ensures ok <==> CanResolve(old(State()), key, a, e, next, changeId) && (expected.Some? ==> expected.value == next)
      ensures key in old(conflicts) && old(conflicts)[key].noteId in old(notes) ==>
        IsNextRevision(old(State()), old(conflicts)[key].noteId, next)
    {
      var payload;
      ok, next, payload := CheckResolution(key, a, e, changeId);
      if ok && expected.Some? && expected.value != next { ok := false; }
      if ok { StoreResolution(conflicts[key], a, payload, next, changeId, now); }
    }
  
    // ---- Migration ----

    /** The notes of a plan; stops at the first that changed since. */
    method MoveNotes(w: Id, plan: map<Id, Planned>) returns (ok: bool)
      modifies this`notes
      ensures ok <==> forall n :: n in plan ==> NoteUnchanged(old(notes), w, n, plan[n])
      ensures ok ==> notes == MovedNotes(old(notes), plan, plan.Keys)
    {
      var rest := plan.Keys;
      assert MovedNotes(notes, plan, plan.Keys - rest) == notes;
      while rest != {}
        invariant rest <= plan.Keys && notes == MovedNotes(old(notes), plan, plan.Keys - rest)
        invariant forall n :: n in plan && n !in rest ==> NoteUnchanged(old(notes), w, n, plan[n])
        decreases rest
      {
        var n :| n in rest;
        if !NoteUnchanged(notes, w, n, plan[n]) {
          assert !NoteUnchanged(old(notes), w, n, plan[n]);
          return false;
        }
        notes := notes[n := MovedNote(notes[n], plan[n])];
        assert notes == MovedNotes(old(notes), plan, plan.Keys - (rest - {n}));
        rest := rest - {n};
      }
      assert plan.Keys - rest == plan.Keys;
      ok := true;
    }

    method MoveChanges(w: Id, plan: map<Id, Planned>) returns (ok: bool)
      modifies this`changes
      ensures ok <==> forall id :: id in plan ==> ChangeUnchanged(old(changes), w, id, plan[id])
      ensures ok ==> changes == MovedChanges(old(changes), plan, plan.Keys)
    {
      var rest := plan.Keys;
      assert MovedChanges(changes, plan, plan.Keys - rest) == changes;
      while rest != {}
        invariant rest <= plan.Keys && changes == MovedChanges(old(changes), plan, plan.Keys - rest)
        invariant forall id :: id in plan && id !in rest ==> ChangeUnchanged(old(changes), w, id, plan[id])
        decreases rest
      {
        var id :| id in rest;
        if !ChangeUnchanged(changes, w, id, plan[id]) {
          assert !ChangeUnchanged(old(changes), w, id, plan[id]);
          return false;
        }
        changes := changes[id := MovedChange(changes[id], plan[id])];
        assert changes == MovedChanges(old(changes), plan, plan.Keys - (rest - {id}));
        rest := rest - {id};
      }
      assert plan.Keys - rest == plan.Keys;
      ok := true;
    }

    method MoveConflicts(w: Id, plan: map<ConflictKey, PlannedConflict>) returns (ok: bool)
      modifies this`conflicts
      ensures ok <==> forall k :: k in plan ==> ConflictUnchanged(old(conflicts), w, k, plan[k])
      ensures ok ==> conflicts == MovedConflicts(old(conflicts), plan, plan.Keys)
    {
      var rest := plan.Keys;
      assert MovedConflicts(conflicts, plan, plan.Keys - rest) == conflicts;
      while rest != {}
        invariant rest <= plan.Keys && conflicts == MovedConflicts(old(conflicts), plan, plan.Keys - rest)
        invariant forall k :: k in plan && k !in rest ==> ConflictUnchanged(old(conflicts), w, k, plan[k])
        decreases rest
      {
        var k :| k in rest;
        if !ConflictUnchanged(conflicts, w, k, plan[k]) {
          assert !ConflictUnchanged(old(conflicts), w, k, plan[k]);
          return false;
        }
        conflicts := conflicts[k := MovedConflict(conflicts[k], plan[k])];
        assert conflicts == MovedConflicts(old(conflicts), plan, plan.Keys - (rest - {k}));
        rest := rest - {k};
      }
      assert plan.Keys - rest == plan.Keys;
      ok := true;
    }

    /** All rows of a plan. */
    method MoveRows(w: Id, plan: Plan) returns (ok: bool)
      modifies this`notes, this`changes, this`conflicts
      ensures ok <==> Unchanged(old(State()), w, plan)
      ensures ok ==> State() == Move(old(State()), plan)
    {
      ok := MoveNotes(w, plan.notes);
      if !ok { return; }
      ok := MoveChanges(w, plan.changes);
      if !ok { return; }
      ok := MoveConflicts(w, plan.conflicts);
    }

    /** The transaction of `migratePlaintextWorkspace`: a row that changed since, or plaintext left over, takes
        everything back. */
    method CommitMigration(w: Id, plan: Plan) returns (ok: bool)
      modifies this`notes, this`changes, this`conflicts
      ensures State() == Commit(old(State()), w, plan).0 && ok == Commit(old(State()), w, plan).1
    {
      var savedNotes, savedChanges, savedConflicts := notes, changes, conflicts;
      ok := MoveRows(w, plan);
      if ok { ok := NoPlaintext(State(), w); }
      if !ok { notes, changes, conflicts := savedNotes, savedChanges, savedConflicts; }
    }
  }
}
