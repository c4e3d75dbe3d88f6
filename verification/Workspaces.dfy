/** Notes, their changes and the conflicts of those stay together in one workspace. */
module Workspaces {
  import opened Wrappers
  import opened Envelopes
  import opened SyncTypes
  import opened LocalStore
  import opened StoreInvariants

  /** A note and its queued changes agree on the workspace. */
  ghost predicate SameWorkspace(s: Store) {
    && (forall n :: n in s.notes ==> s.notes[n].id == n)
    && (forall id :: id in s.changes ==>
          s.changes[id].noteId in s.notes && s.changes[id].workspaceId == s.notes[s.changes[id].noteId].workspaceId)
  }

  /** A note never changes workspace, so a note the server shows has the workspace it has locally. */
  predicate Agrees(s: Store, note: Note) {
    note.id in s.notes ==> s.notes[note.id].workspaceId == note.workspaceId
  }

  /** A page shows notes of its own workspace. */
  predicate PageAgrees(s: Store, page: PullPage) {
    forall k :: 0 <= k < |page.changes| ==>
      page.changes[k].note.workspaceId == page.workspaceId && Agrees(s, page.changes[k].note)
  }

  /** The transaction is told the workspace its rows are in. */
  ghost predicate AtHome(s: Store, step: LocalStep) {
    match step
    case ResultsStep(w, attempted, _, _) =>
      forall k :: 0 <= k < |attempted| && attempted[k].id in s.changes ==> s.changes[attempted[k].id].workspaceId == w
    case PullStep(page, _) => PageAgrees(s, page)
    case CacheStep(note) => Agrees(s, note)
    case CacheDetailStep(note, _) => Agrees(s, note)
    case _ => true
  }

  /** Changes stay, in their workspace. */
  ghost predicate Persists(s: Store, s': Store) {
    forall id :: id in s.changes ==> id in s'.changes && s'.changes[id].workspaceId == s.changes[id].workspaceId
  }

  lemma SoundPersists(s: Store, s': Store)
    requires Sound(s, s')
    ensures Persists(s, s')
  {
    forall id | id in s.changes ensures id in s'.changes && s'.changes[id].workspaceId == s.changes[id].workspaceId {
      assert Moves(s.changes[id], s'.changes[id]);
    }
  }

  // ---- Notes and changes ----

  lemma UpsertKeepsWorkspace(s: Store, kind: OperationKind, note: LocalNote, payload: Option<Envelope>, existing: Option<Id>,
                             id: Id, now: int, s': Store)
    requires SameWorkspace(s) && CanUpsert(s, note.id, kind, existing, id) && note.workspaceId == s.notes[note.id].workspaceId
    requires s' == s.(notes := s.notes[note.id := note], changes := Upsert(s, kind, note, payload, existing, id, now))
    ensures SameWorkspace(s')
  {
  }

  lemma ResolveKeepsWorkspace(s: Store, k: ConflictKey, a: Action, e: Option<Envelope>, expected: Option<nat>, next: nat, id: Id, now: int)
    requires SameWorkspace(s)
    ensures SameWorkspace(Resolve(s, k, a, e, expected, next, id, now))
  {
  }

  lemma EditKeepsWorkspace(s: Store, n: Id, d: Document, e: Envelope, expected: Option<nat>, existing: Option<Id>, id: Id, now: int)
    requires SameWorkspace(s)
    ensures SameWorkspace(Edit(s, n, d, e, expected, existing, id, now))
  {
    var s' := Edit(s, n, d, e, expected, existing, id, now);
    if s' != s {
      var note := s.notes[n].(payload := Some(e), legacy := None, revision := s.notes[n].revision + 1);
      UpsertKeepsWorkspace(s, UpdateNote, note, Some(e), existing, id, now, s');
    }
  }

  lemma DeleteKeepsWorkspace(s: Store, n: Id, existing: Option<Id>, id: Id, now: int)
    requires SameWorkspace(s)
    ensures SameWorkspace(Delete(s, n, existing, id, now))
  {
    var s' := Delete(s, n, existing, id, now);
    if s' != s {
      var note := s.notes[n].(deleted := true, revision := s.notes[n].revision + 1);
      UpsertKeepsWorkspace(s, DeleteNote, note, None, existing, id, now, s');
    }
  }

  lemma CreateKeepsWorkspace(s: Store, w: Id, n: Id, d: Document, e: Envelope, id: Id, now: int)
    requires SameWorkspace(s)
    ensures SameWorkspace(Create(s, w, n, d, e, id, now))
  {
  }

  lemma CacheKeepsWorkspace(s: Store, note: Note)
    requires SameWorkspace(s) && Agrees(s, note)
    ensures SameWorkspace(CacheNote(s, note))
  {
  }

  lemma RecordKeepsWorkspace(s: Store, ids: set<Id>, w: Id, remote: Version, now: int)
    requires SameWorkspace(s) && ids <= s.changes.Keys
    ensures SameWorkspace(RecordConflicts(s, ids, w, remote, now))
  {
  }

  lemma EntryKeepsWorkspace(s: Store, w: Id, p: PullChange, now: int)
    requires SameWorkspace(s) && Agrees(s, p.note)
    ensures SameWorkspace(ApplyPulled(s, w, p, now))
  {
    if Waiting(s, p.note.id) != {} { RecordKeepsWorkspace(s, Diverging(s, p), w, p.version, now); }
  }

  /** Entries of one workspace, about notes that are there or not here. */
  predicate EntriesAgree(s: Store, w: Id, ps: seq<PullChange>) {
    forall k :: 0 <= k < |ps| ==> ps[k].note.workspaceId == w && Agrees(s, ps[k].note)
  }

  lemma EntryKeepsAgreement(s: Store, w: Id, ps: seq<PullChange>, now: int)
    requires ps != [] && EntriesAgree(s, w, ps)
    ensures EntriesAgree(ApplyPulled(s, w, ps[0], now), w, ps[1..])
  {
    var s1 := ApplyPulled(s, w, ps[0], now);
    forall k | 0 <= k < |ps[1..]| ensures ps[1..][k].note.workspaceId == w && Agrees(s1, ps[1..][k].note) {
      assert ps[1..][k] == ps[k + 1];
      assert ps[0].note.workspaceId == w && Agrees(s, ps[k + 1].note);
    }
  }

  lemma {:induction false} PulledKeepsWorkspace(s: Store, w: Id, ps: seq<PullChange>, now: int)
    requires SameWorkspace(s) && EntriesAgree(s, w, ps)
    ensures SameWorkspace(ApplyPulledAll(s, w, ps, now))
    decreases |ps|
  {
    if ps != [] {
      EntryKeepsWorkspace(s, w, ps[0], now);
      EntryKeepsAgreement(s, w, ps, now);
      PulledKeepsWorkspace(ApplyPulled(s, w, ps[0], now), w, ps[1..], now);
    }
  }

  lemma AcceptedKeepsWorkspace(s: Store, w: Id, p: PendingChange, v: Version)
    requires SameWorkspace(s) && p.id in s.changes
    ensures SameWorkspace(ApplyAccepted(s, w, p, v))
  {
    var s' := ApplyAccepted(s, w, p, v);
    assert forall n :: n in s.notes ==> n in s'.notes && s'.notes[n].id == n && s'.notes[n].workspaceId == s.notes[n].workspaceId;
  }

  lemma ResultKeepsWorkspace(s: Store, w: Id, p: PendingChange, r: Option<PushResult>, now: int)
    requires SameWorkspace(s)
    ensures SameWorkspace(ApplyResult(s, w, p, r, now))
  {
    if p.id in s.changes && r.Some? {
      if r.value.Accepted? || r.value.DuplicateAccepted? {
        AcceptedKeepsWorkspace(s, w, p, r.value.version);
      } else if !r.value.Rejected? {
        RecordKeepsWorkspace(s, {p.id} + Spread(s, s.changes[p.id]), w, r.value.remote, now);
      }
    }
  }

  lemma {:induction false} ResultsKeepWorkspace(s: Store, w: Id, attempted: seq<PendingChange>, results: seq<PushResult>, now: int)
    requires SameWorkspace(s)
    ensures SameWorkspace(ApplyResults(s, w, attempted, results, now))
    decreases |attempted|
  {
    if attempted != [] {
      var r := ResultFor(results, attempted[0].id);
      ResultKeepsWorkspace(s, w, attempted[0], r, now);
      ResultsKeepWorkspace(ApplyResult(s, w, attempted[0], r, now), w, attempted[1..], results, now);
    }
  }

  lemma {:induction false} BeginKeepsWorkspace(s: Store, candidates: seq<PendingChange>)
    requires SameWorkspace(s)
    ensures SameWorkspace(BeginAll(s, candidates).0)
    decreases |candidates|
  {
    if candidates != [] { BeginKeepsWorkspace(Begin(s, candidates[0]).0, candidates[1..]); }
  }

  lemma FailKeepsWorkspace(s: Store, attempted: seq<PendingChange>)
    requires SameWorkspace(s)
    ensures SameWorkspace(FailAll(s, attempted))
  {
  }

  /** Every transaction that is told the right workspace keeps notes and changes together. */
  lemma StepKeepsWorkspace(s: Store, step: LocalStep, s': Store)
    requires SameWorkspace(s) && AtHome(s, step) && s' == LocalStore.Next(s, step)
    ensures SameWorkspace(s')
  {
    match step
    case CreateStep(w, n, d, e, id, now) => CreateKeepsWorkspace(s, w, n, d, e, id, now);
    case EditStep(n, d, e, expected, existing, id, now) => EditKeepsWorkspace(s, n, d, e, expected, existing, id, now);
    case DeleteStep(n, existing, id, now) => DeleteKeepsWorkspace(s, n, existing, id, now);
    case ResolveStep(k, a, e, expected, next, id, now) => ResolveKeepsWorkspace(s, k, a, e, expected, next, id, now);
    case BeginStep(candidates) => BeginKeepsWorkspace(s, candidates);
    case FailStep(attempted) => FailKeepsWorkspace(s, attempted);
    case ResultsStep(w, attempted, results, now) => ResultsKeepWorkspace(s, w, attempted, results, now);
    case PullStep(page, now) => PulledKeepsWorkspace(s, page.workspaceId, page.changes, now);
    case CacheStep(note) => CacheKeepsWorkspace(s, note);
    case CacheDetailStep(note, v) => CacheKeepsWorkspace(s, note);
    case StorePayloadStep(id, revision, e) =>
  }

  // ---- Conflict records ----

  /** No conflict row is new and no change moves. */
  lemma OldRecordsStayHome(s: Store, s': Store)
    requires RecordsMatch(s.changes, s.conflicts) && RecordsAtHome(s) && Persists(s, s')
    requires forall k :: k in s'.conflicts ==> k in s.conflicts && s'.conflicts[k].workspaceId == s.conflicts[k].workspaceId
    ensures RecordsAtHome(s')
  {
    forall k | k in s'.conflicts && k.changeId in s'.changes
      ensures s'.conflicts[k].workspaceId == s'.changes[k.changeId].workspaceId
    {
      assert k.changeId in s.changes;
    }
  }

  lemma NewRecordsAreHome(s: Store, ids: set<Id>, w: Id, remote: Version, now: int, s': Store)
    requires RecordsMatch(s.changes, s.conflicts) && RecordsAtHome(s) && ids <= s.changes.Keys
    requires forall id :: id in ids ==> s.changes[id].workspaceId == w
    requires s' == RecordConflicts(s, ids, w, remote, now)
    ensures RecordsAtHome(s')
  {
    forall k | k in s'.conflicts && k.changeId in s'.changes
      ensures s'.conflicts[k].workspaceId == s'.changes[k.changeId].workspaceId
    {
      RowOf(s.changes, ids, w, remote, now, k);
    }
  }

  lemma AcceptedKeepsHome(s: Store, w: Id, p: PendingChange, v: Version, s': Store)
    requires RecordsMatch(s.changes, s.conflicts) && RecordsAtHome(s) && p.id in s.changes && s' == ApplyAccepted(s, w, p, v)
    ensures RecordsAtHome(s')
  {
    assert Persists(s, s');
    OldRecordsStayHome(s, s');
  }

  lemma FailKeepsHome(s: Store, id: Id, s': Store)
    requires RecordsMatch(s.changes, s.conflicts) && RecordsAtHome(s) && s' == FailOne(s, id)
    ensures RecordsAtHome(s')
  {
  }

  lemma ConflictKeepsHome(s: Store, w: Id, p: PendingChange, remote: Version, now: int, s': Store)
    requires RecordsMatch(s.changes, s.conflicts) && RecordsAtHome(s) && SameWorkspace(s)
    requires p.id in s.changes && s.changes[p.id].workspaceId == w
    requires s' == RecordConflicts(s, {p.id} + Spread(s, s.changes[p.id]), w, remote, now)
    ensures RecordsAtHome(s')
  {
    NewRecordsAreHome(s, {p.id} + Spread(s, s.changes[p.id]), w, remote, now, s');
  }

  lemma ResultKeepsHome(s: Store, w: Id, p: PendingChange, r: Option<PushResult>, now: int, s': Store)
    requires RecordsMatch(s.changes, s.conflicts) && RecordsAtHome(s) && SameWorkspace(s)
    requires p.id in s.changes ==> s.changes[p.id].workspaceId == w
    requires s' == ApplyResult(s, w, p, r, now)
    ensures RecordsAtHome(s')
  {
    if p.id !in s.changes || r.None? || r.value.Rejected? {
      FailKeepsHome(s, p.id, s');
    } else if r.value.Accepted? || r.value.DuplicateAccepted? {
      AcceptedKeepsHome(s, w, p, r.value.version, s');
    } else {
      ConflictKeepsHome(s, w, p, r.value.remote, now, s');
    }
  }

  lemma {:induction false} ResultsKeepHome(s: Store, w: Id, attempted: seq<PendingChange>, results: seq<PushResult>, now: int, s': Store)
    requires Inv(s) && RecordsAtHome(s) && SameWorkspace(s)
    requires forall k :: 0 <= k < |attempted| && attempted[k].id in s.changes ==> s.changes[attempted[k].id].workspaceId == w
    requires s' == ApplyResults(s, w, attempted, results, now)
    ensures RecordsAtHome(s')
    decreases |attempted|
  {
    if attempted != [] {
      var r := ResultFor(results, attempted[0].id);
      var s1 := ApplyResult(s, w, attempted[0], r, now);
      ResultKeepsHome(s, w, attempted[0], r, now, s1);
      ResultKeepsWorkspace(s, w, attempted[0], r, now);
      ApplyResultKeepsInv(s, w, attempted[0], r, now);
      SoundPersists(s, s1);
      ResultKeepsKeys(s, w, attempted[0], r, now);
      ResultsKeepHome(s1, w, attempted[1..], results, now, s');
    }
  }

  lemma ResultKeepsKeys(s: Store, w: Id, p: PendingChange, r: Option<PushResult>, now: int)
    ensures ApplyResult(s, w, p, r, now).changes.Keys == s.changes.Keys
  {
  }

  lemma EntryKeepsHome(s: Store, w: Id, p: PullChange, now: int, s': Store)
    requires RecordsMatch(s.changes, s.conflicts) && RecordsAtHome(s) && SameWorkspace(s)
    requires p.note.workspaceId == w && Agrees(s, p.note) && s' == ApplyPulled(s, w, p, now)
    ensures RecordsAtHome(s')
  {
    if Waiting(s, p.note.id) != {} {
      NewRecordsAreHome(s, Diverging(s, p), w, p.version, now, s');
    } else {
      OldRecordsStayHome(s, s');
    }
  }

  lemma {:induction false} PulledKeepsHome(s: Store, w: Id, ps: seq<PullChange>, now: int, s': Store)
    requires Inv(s) && RecordsAtHome(s) && SameWorkspace(s) && EntriesAgree(s, w, ps)
    requires s' == ApplyPulledAll(s, w, ps, now)
    ensures RecordsAtHome(s')
    decreases |ps|
  {
    if ps != [] {
      var s1 := ApplyPulled(s, w, ps[0], now);
      EntryKeepsHome(s, w, ps[0], now, s1);
      EntryKeepsWorkspace(s, w, ps[0], now);
      EntryKeepsAgreement(s, w, ps, now);
      ApplyPulledKeepsInv(s, w, ps[0], now);
      PulledKeepsHome(s1, w, ps[1..], now, s');
    }
  }

  /** The steps that make no conflict row. */
  predicate MakesNoRecord(step: LocalStep) {
    !step.ResultsStep? && !step.PullStep?
  }

  lemma RowsKeepWorkspace(s: Store, step: LocalStep, s': Store)
    requires MakesNoRecord(step) && s' == LocalStore.Next(s, step)
    ensures forall k :: k in s'.conflicts ==> k in s.conflicts && s'.conflicts[k].workspaceId == s.conflicts[k].workspaceId
  {
    if step.BeginStep? { BeginKeepsRows(s, step.candidates); }
  }

  lemma {:induction false} BeginKeepsRows(s: Store, candidates: seq<PendingChange>)
    ensures BeginAll(s, candidates).0.conflicts == s.conflicts
    decreases |candidates|
  {
    if candidates != [] { BeginKeepsRows(Begin(s, candidates[0]).0, candidates[1..]); }
  }

  lemma RecordlessKeepsHome(s: Store, step: LocalStep, s': Store)
    requires Inv(s) && RecordsAtHome(s) && MakesNoRecord(step) && s' == LocalStore.Next(s, step)
    ensures RecordsAtHome(s')
  {
    NextKeepsInv(s, step);
    SoundPersists(s, s');
    RowsKeepWorkspace(s, step, s');
    OldRecordsStayHome(s, s');
  }

  lemma PageKeepsHome(s: Store, page: PullPage, now: int, s': Store)
    requires Inv(s) && RecordsAtHome(s) && SameWorkspace(s) && PageAgrees(s, page) && s' == ApplyPage(s, page, now)
    ensures RecordsAtHome(s')
  {
    PulledKeepsHome(s, page.workspaceId, page.changes, now, ApplyPulledAll(s, page.workspaceId, page.changes, now));
  }

  /** Every transaction that is told the right workspace records conflicts in the workspace of their changes. */
  lemma StepKeepsHome(s: Store, step: LocalStep, s': Store)
    requires Inv(s) && SameWorkspace(s) && RecordsAtHome(s) && AtHome(s, step) && s' == LocalStore.Next(s, step)
    ensures RecordsAtHome(s')
  {
    if step.ResultsStep? {
      ResultsKeepHome(s, step.workspaceId, step.attempted, step.results, step.now, s');
    } else if step.PullStep? {
      PageKeepsHome(s, step.page, step.now, s');
    } else {
      RecordlessKeepsHome(s, step, s');
    }
  }

  ghost predicate AllAtHome(s: Store, steps: seq<LocalStep>)
    decreases |steps|
  {
    steps != [] ==> AtHome(s, steps[0]) && AllAtHome(LocalStore.Next(s, steps[0]), steps[1..])
  }

  /** So over whole runs of the tables a note, its changes and their conflicts stay in one workspace. */
  lemma {:induction false} RunKeepsHome(s: Store, steps: seq<LocalStep>, s': Store)
    requires Inv(s) && SameWorkspace(s) && RecordsAtHome(s) && AllAtHome(s, steps) && s' == LocalStore.Run(s, steps)
    ensures SameWorkspace(s') && RecordsAtHome(s')
    decreases |steps|
  {
    if steps != [] {
      var s1 := LocalStore.Next(s, steps[0]);
      StepKeepsWorkspace(s, steps[0], s1);
      StepKeepsHome(s, steps[0], s1);
      NextKeepsInv(s, steps[0]);
      RunKeepsHome(s1, steps[1..], s');
    }
  }
}
