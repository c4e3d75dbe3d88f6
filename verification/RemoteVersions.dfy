/** What the browser records of the server's versions: in every run a conflict shows the version it is about as the server
    stores it, so resolving is based on the highest version of the note the conflicts have shown. */
module RemoteVersions {
  import opened Wrappers
  import opened Envelopes
  import opened SyncTypes
  import opened LocalStore
  import opened SealedWork
  import opened SyncSystem
  import opened SyncSafety
  import opened Workspaces
  import opened KeepLocal
  import Migration
  import Paging
  import Resolution
  import Server = ServerTables
  import ServerInvariants
  import StoreInvariants

  /** A cached version shows the server's, column by column. */
  predicate Mirrors(c: CachedVersion, v: Version) {
    && c.id == v.id && c.noteId == v.noteId && c.number == v.number && c.parent == v.parent
    && c.clientVersion == v.clientVersion && c.algorithm == v.payload.algorithm && c.ciphertext == v.payload.ciphertext
    && c.envelopeVersion == v.payload.envelopeVersion && c.keyId == v.payload.keyId && c.nonce == v.payload.nonce
  }

  /** Conflicts show versions of their own notes, as the server stores them. */
  ghost predicate RecordsTrue(conflicts: map<ConflictKey, LocalConflict>, versions: map<Id, Version>) {
    forall k :: k in conflicts ==>
      && k.versionId in versions && Mirrors(conflicts[k].remote, versions[k.versionId])
      && conflicts[k].remote.workspaceId == conflicts[k].workspaceId && versions[k.versionId].noteId == conflicts[k].noteId
  }

  /** So does the cache of versions. */
  ghost predicate CacheTrue(cache: map<Id, CachedVersion>, versions: map<Id, Version>) {
    forall v :: v in cache ==> v in versions && Mirrors(cache[v], versions[v])
  }

  ghost predicate True(s: Store, versions: map<Id, Version>) {
    RecordsTrue(s.conflicts, versions) && CacheTrue(s.versions, versions)
  }

  predicate Stores(versions: map<Id, Version>, v: Version) {
    v.id in versions && versions[v.id] == v
  }

  // ---- The transactions ----

  /** What recording conflicts leaves, in the server's terms: one unresolved row for each change, which shows the change
      as it was and the version as the server sent it; all other rows stay. */
  lemma ConflictsShow(s: Store, ids: set<Id>, w: Id, remote: Version, now: int, s': Store, k: ConflictKey)
    requires ids <= s.changes.Keys && s' == RecordConflicts(s, ids, w, remote, now)
    ensures s'.notes == s.notes && s'.changes.Keys == s.changes.Keys
    ensures remote.id in s'.versions && Mirrors(s'.versions[remote.id], remote) && s'.versions[remote.id].workspaceId == w
    ensures s'.versions == s.versions[remote.id := s'.versions[remote.id]]
    ensures if k.changeId in ids && k.versionId == remote.id then
        k in s'.conflicts
        && var c, row := s.changes[k.changeId], s'.conflicts[k];
        && Mirrors(row.remote, remote) && row.remote.workspaceId == w && row.workspaceId == w && row.noteId == c.noteId
        && row.base == c.base && row.payload == c.payload && row.legacy == c.legacy && row.revision == c.revision
        && row.detectedAt == now && row.settlement == Unresolved && row.resolved == None && row.resolvedLegacy == None
      else (k in s'.conflicts <==> k in s.conflicts) && (k in s.conflicts ==> s'.conflicts[k] == s.conflicts[k])
  {
    StoreInvariants.RowOf(s.changes, ids, w, remote, now, k);
  }

  lemma RecordKeepsTrue(s: Store, ids: set<Id>, w: Id, remote: Version, now: int, s': Store, versions: map<Id, Version>)
    requires True(s, versions) && Stores(versions, remote) && ids <= s.changes.Keys
    requires forall id :: id in ids ==> s.changes[id].noteId == remote.noteId
    requires s' == RecordConflicts(s, ids, w, remote, now)
    ensures True(s', versions)
  {
    ConflictsShow(s, ids, w, remote, now, s', ConflictKey(0, 0));
    forall k | k in s'.conflicts
      ensures k.versionId in versions && Mirrors(s'.conflicts[k].remote, versions[k.versionId])
        && s'.conflicts[k].remote.workspaceId == s'.conflicts[k].workspaceId && versions[k.versionId].noteId == s'.conflicts[k].noteId
    {
      ConflictsShow(s, ids, w, remote, now, s', k);
    }
  }

  lemma AcceptedKeepsTrue(s: Store, w: Id, p: PendingChange, v: Version, s': Store, versions: map<Id, Version>)
    requires True(s, versions) && Stores(versions, v) && p.id in s.changes && s' == ApplyAccepted(s, w, p, v)
    ensures True(s', versions)
  {
  }

  /** The answer's version is one the server stores, of the change's note. */
  predicate AnswerStored(s: Store, p: PendingChange, r: Option<PushResult>, versions: map<Id, Version>) {
    r.Some? && !r.value.Rejected? ==>
      var v := if AnswersAccepted(r.value) then r.value.version else r.value.remote;
      Stores(versions, v) && (p.id in s.changes ==> s.changes[p.id].noteId == v.noteId)
  }

  lemma ResultKeepsTrue(s: Store, w: Id, p: PendingChange, r: Option<PushResult>, now: int, s': Store, versions: map<Id, Version>)
    requires True(s, versions) && AnswerStored(s, p, r, versions) && s' == ApplyResult(s, w, p, r, now)
    ensures True(s', versions)
  {
    if p.id in s.changes && r.Some? {
      if AnswersAccepted(r.value) {
        AcceptedKeepsTrue(s, w, p, r.value.version, s', versions);
      } else if !r.value.Rejected? {
        RecordKeepsTrue(s, {p.id} + Spread(s, s.changes[p.id]), w, r.value.remote, now, s', versions);
      }
    }
  }

  /** The page shows versions the server stores, each of its entry's note. */
  predicate Served(versions: map<Id, Version>, ps: seq<PullChange>) {
    forall k :: 0 <= k < |ps| ==> Stores(versions, ps[k].version) && ps[k].version.noteId == ps[k].note.id
  }

  lemma EntryKeepsTrue(s: Store, w: Id, p: PullChange, now: int, s': Store, versions: map<Id, Version>)
    requires True(s, versions) && Stores(versions, p.version) && p.version.noteId == p.note.id && s' == ApplyPulled(s, w, p, now)
    ensures True(s', versions)
  {
    if Waiting(s, p.note.id) != {} { RecordKeepsTrue(s, Diverging(s, p), w, p.version, now, s', versions); }
  }

  lemma {:induction false} PulledKeepsTrue(s: Store, w: Id, ps: seq<PullChange>, now: int, s': Store, versions: map<Id, Version>)
    requires True(s, versions) && Served(versions, ps) && s' == ApplyPulledAll(s, w, ps, now)
    ensures True(s', versions)
    decreases |ps|
  {
    if ps != [] {
      var s1 := ApplyPulled(s, w, ps[0], now);
      EntryKeepsTrue(s, w, ps[0], now, s1, versions);
      PulledKeepsTrue(s1, w, ps[1..], now, s', versions);
    }
  }

  /** A detail the user opens shows a version the server stores. */
  predicate Handed(versions: map<Id, Version>, step: LocalStep) {
    && (step.CacheDetailStep? ==> Stores(versions, step.version))
    && (step.PullStep? ==> Served(versions, step.page.changes))
    && !step.ResultsStep?
  }

  lemma StepKeepsTrue(s: Store, step: LocalStep, s': Store, versions: map<Id, Version>)
    requires True(s, versions) && Handed(versions, step) && s' == LocalStore.Next(s, step)
    ensures True(s', versions)
  {
    match step
    case BeginStep(candidates) => BeginKeepsTables(s, candidates);
    case PullStep(page, now) =>
      PulledKeepsTrue(s, page.workspaceId, page.changes, now, ApplyPulledAll(s, page.workspaceId, page.changes, now), versions);
    case ResolveStep(k, a, e, expected, next, id, now) => ResolveKeepsTrue(s, k, a, e, expected, next, id, now, s', versions);
    case FailStep(attempted) => assert s'.conflicts == s.conflicts && s'.versions == s.versions;
    case CacheDetailStep(note, v) => assert s'.conflicts == s.conflicts;
    case _ =>
  }

  lemma ResolveKeepsTrue(s: Store, k: ConflictKey, a: Action, e: Option<Envelope>, expected: Option<nat>, next: nat, id: Id, now: int,
                         s': Store, versions: map<Id, Version>)
    requires True(s, versions) && s' == Resolve(s, k, a, e, expected, next, id, now)
    ensures True(s', versions)
  {
  }

  lemma {:induction false} BeginKeepsTables(s: Store, candidates: seq<PendingChange>)
    ensures var s' := BeginAll(s, candidates).0; s'.conflicts == s.conflicts && s'.versions == s.versions
    decreases |candidates|
  {
    if candidates != [] { BeginKeepsTables(Begin(s, candidates[0]).0, candidates[1..]); }
  }

  lemma MigrateKeepsTrue(planned: Store, s: Store, w: Id, key: Key, nonces: Migration.Nonces, s': Store, versions: map<Id, Version>)
    requires True(s, versions) && s' == Migration.Migrate(planned, s, w, key, nonces).0
    ensures True(s', versions)
  {
    if s' != s {
      var plan := Migration.MakePlan(planned, w, key, nonces).value;
      assert s'.conflicts == Migration.MovedConflicts(s.conflicts, plan.conflicts, plan.conflicts.Keys);
    }
  }

  lemma GrowthKeepsTrue(s: Store, t: Server.Tables, t': Server.Tables)
    requires True(s, t.versions) && ServerInvariants.Grows(t, t')
    ensures True(s, t'.versions)
  {
  }

  // ---- Runs of the system ----

  /** Every answer the server gave shows a version it stores, of the request's note. */
  ghost predicate AnswersStored(answers: set<(PushChange, PushResult)>, versions: map<Id, Version>) {
    forall request, r :: (request, r) in answers && !r.Rejected? ==>
      var v := if AnswersAccepted(r) then r.version else r.remote;
      Stores(versions, v) && v.noteId == request.noteId
  }

  /** The awaited attempt is of its change's note. */
  predicate FlightOfNote(y: System) {
    y.flight.Some? && y.flight.value.id in y.work.store.changes ==>
      y.work.store.changes[y.flight.value.id].noteId == y.flight.value.noteId
  }

  ghost predicate Shown(y: System) {
    True(y.work.store, y.server.versions) && AnswersStored(y.answers, y.server.versions) && FlightOfNote(y)
  }

  /** A page and a detail come from the server, now or at any earlier moment of the run. */
  predicate FromServer(y: System, step: Step) {
    match step
    case ReceivePage(page, _) => Served(y.server.versions, page.changes)
    case User(w) => w.Plain? && w.step.CacheDetailStep? ==> Stores(y.server.versions, w.step.version)
    case _ => true
  }

  ghost predicate AllFromServer(y: System, device: Device, steps: seq<Step>)
    decreases |steps|
  {
    steps != [] ==> FromServer(y, steps[0]) && AllFromServer(Advance(y, device, steps[0]), device, steps[1..])
  }

  /** Changes stay of their note. */
  ghost predicate SameNotes(s: Store, s': Store) {
    forall id :: id in s.changes ==> id in s'.changes && s'.changes[id].noteId == s.changes[id].noteId
  }

  lemma LocalKeepsNotes(s: Store, step: LocalStep, s': Store)
    requires StoreInvariants.Inv(s) && s' == LocalStore.Next(s, step)
    ensures SameNotes(s, s')
  {
    StoreInvariants.NextKeepsInv(s, step);
  }

  lemma UserKeepsTrue(w: Work, key: Key, step: WorkStep, s': Store, versions: map<Id, Version>)
    requires StoreInvariants.Inv(w.store) && True(w.store, versions) && UserStep(step) && s' == Perform(w, key, step).store
    requires step.Plain? && step.step.CacheDetailStep? ==> Stores(versions, step.step.version)
    ensures True(s', versions) && SameNotes(w.store, s')
  {
    PerformIsLocal(w, key, step);
    var local := AsLocal(w, key, step);
    if local.Some? {
      assert Handed(versions, local.value);
      StepKeepsTrue(w.store, local.value, s', versions);
      LocalKeepsNotes(w.store, local.value, s');
    }
  }

  lemma MigrateKeepsNotes(planned: Store, s: Store, w: Id, key: Key, nonces: Migration.Nonces, s': Store)
    requires s' == Migration.Migrate(planned, s, w, key, nonces).0
    ensures SameNotes(s, s')
  {
    Migration.AllOrNothing(planned, s, w, key, nonces);
  }

  lemma MadeIsTrue(y: System, device: Device, step: Step, s': Store)
    requires StoreInvariants.Inv(y.work.store) && True(y.work.store, y.server.versions) && FromServer(y, step)
    requires Enabled(y, device, step) && !step.Receive? && !step.ReceiveNothing? && Makes(y, device, step, s')
    ensures True(s', y.server.versions) && SameNotes(y.work.store, s')
  {
    var s, versions := y.work.store, y.server.versions;
    match step
    case User(w) => UserKeepsTrue(y.work, device.key, w, s', versions);
    case Commit(snapshot, nonces) =>
      MigrateKeepsTrue(snapshot, s, device.workspaceId, device.key, nonces, s', versions);
      MigrateKeepsNotes(snapshot, s, device.workspaceId, device.key, nonces, s');
    case Start(id) => LocalStepIsTrue(s, BeginStep([s.changes[id]]), s', versions);
    case ReceivePage(page, now) => LocalStepIsTrue(s, LocalStep.PullStep(page, now), s', versions);
    case Abort => LocalStepIsTrue(s, FailStep(y.attempted), s', versions);
    case _ =>
  }

  lemma LocalStepIsTrue(s: Store, step: LocalStep, s': Store, versions: map<Id, Version>)
    requires StoreInvariants.Inv(s) && True(s, versions) && Handed(versions, step) && s' == LocalStore.Next(s, step)
    ensures True(s', versions) && SameNotes(s, s')
  {
    StepKeepsTrue(s, step, s', versions);
    LocalKeepsNotes(s, step, s');
  }

  lemma AnswerKeepsShown(y: System, device: Device, step: Step, y': System)
    requires Inv(y, device) && Shown(y) && Enabled(y, device, step) && (step.Receive? || step.ReceiveNothing?)
    requires y' == Advance(y, device, step)
    ensures Shown(y')
  {
    ReceiveApplies(y, device, step, y');
    ResultKeepsTrue(y.work.store, device.workspaceId, y.flight.value, Received(y, step), ReceivedAt(step), y'.work.store, y.server.versions);
  }

  lemma DeliverKeepsShown(y: System, device: Device, request: PushChange, draw: Id, y': System)
    requires Inv(y, device) && Shown(y) && Enabled(y, device, Deliver(request, draw)) && y' == Advance(y, device, Deliver(request, draw))
    ensures Shown(y')
  {
    var i := Server.SyncInput(device.workspaceId, device.userId, device.clientId, request, draw);
    ServerInvariants.ProcessKeepsInv(y.server, i);
    GrowthKeepsTrue(y.work.store, y.server, y'.server);
    assert AnswersStored(y.answers, y'.server.versions);
  }

  /** What a step that is neither an answer nor a delivery leaves of the server and the run. */
  lemma OthersGoOn(y: System, device: Device, step: Step, y': System)
    requires Enabled(y, device, step) && !step.Receive? && !step.ReceiveNothing? && !step.Deliver? && y' == Advance(y, device, step)
    requires ServerInvariants.Inv(y.server)
    ensures y'.answers == y.answers && ServerInvariants.Grows(y.server, y'.server)
    ensures !step.Start? ==> y'.flight == y.flight || y'.flight == None
    ensures step.Environment? ==> y'.work == y.work
    ensures !step.Environment? ==> y'.server == y.server
  {
    if step.Environment? { ServerInvariants.NextKeepsInv(y.server, step.remote); }
  }

  lemma StartIsOfNote(y: System, device: Device, id: Id, y': System)
    requires CanStart(y, device, id) && SameWorkspace(y.work.store) && y' == Advance(y, device, Start(id))
    ensures FlightOfNote(y')
  {
    BeginMoves(y.work.store, id);
  }

  lemma AdvanceKeepsShown(y: System, device: Device, step: Step, y': System)
    requires Inv(y, device) && Shown(y) && FromServer(y, step) && y' == Advance(y, device, step)
    ensures Shown(y')
  {
    if Enabled(y, device, step) {
      if step.Receive? || step.ReceiveNothing? {
        AnswerKeepsShown(y, device, step, y');
      } else if step.Deliver? {
        DeliverKeepsShown(y, device, step.request, step.versionId, y');
      } else {
        AdvanceMakes(y, device, step);
        MadeIsTrue(y, device, step, y'.work.store);
        OthersGoOn(y, device, step, y');
        GrowthKeepsTrue(y'.work.store, y.server, y'.server);
        if step.Start? { StartIsOfNote(y, device, step.changeId, y'); }
      }
    }
  }

  lemma {:induction false} ExecuteKeepsShown(y: System, device: Device, steps: seq<Step>, y': System)
    requires Inv(y, device) && Shown(y) && AllFromServer(y, device, steps) && y' == Execute(y, device, steps)
    ensures Shown(y')
    decreases |steps|
  {
    if steps != [] {
      var y1 := Advance(y, device, steps[0]);
      AdvanceKeepsShown(y, device, steps[0], y1);
      AdvanceKeepsInv(y, device, steps[0], y1);
      ExecuteKeepsShown(y1, device, steps[1..], y');
    }
  }

  // ---- Theorems ----

  /** In every run each conflict shows a version of its note as the server stores it, number and all. */
  lemma ConflictsShowServerVersions(t: Server.Tables, s0: Store, device: Device, steps: seq<Step>, y: System, k: ConflictKey)
    requires Starts(t, s0, device) && True(s0, t.versions) && AllFromServer(Idling(t, s0), device, steps)
    requires y == Execute(Idling(t, s0), device, steps) && k in y.work.store.conflicts
    ensures k.versionId in y.server.versions
    ensures var row, v := y.work.store.conflicts[k], y.server.versions[k.versionId];
      && Mirrors(row.remote, v) && row.remote.id == k.versionId && v.noteId == row.noteId
  {
    ReachableInv(t, s0, device, [], Idling(t, s0));
    ReachableInv(t, s0, device, steps, y);
    ExecuteKeepsShown(Idling(t, s0), device, steps, y);
    assert y.server.versions[k.versionId].id == k.versionId;
  }

  /** So resolving the conflict of a note queues an update based on the version which the server numbers highest among
      all that the note's unresolved conflicts are about. */
  lemma ResolvesAtHighestVersion(t: Server.Tables, s0: Store, device: Device, steps: seq<Step>, y: System,
                                 key: ConflictKey, a: Action, e: Option<Envelope>, next: nat, id: Id, now: int, k: ConflictKey)
    requires Starts(t, s0, device) && True(s0, t.versions) && AllFromServer(Idling(t, s0), device, steps)
    requires y == Execute(Idling(t, s0), device, steps) && CanResolve(y.work.store, key, a, e, next, id)
    requires k in y.work.store.conflicts && y.work.store.conflicts[k].noteId == y.work.store.conflicts[key].noteId
    requires y.work.store.conflicts[k].settlement == Unresolved
    ensures var s' := Resolve(y.work.store, key, a, e, None, next, id, now);
      id in s'.changes && s'.changes[id].kind == UpdateNote && s'.changes[id].base == Some(key.versionId)
    ensures k.versionId in y.server.versions && key.versionId in y.server.versions
    ensures y.server.versions[k.versionId].noteId == y.server.versions[key.versionId].noteId
    ensures y.server.versions[k.versionId].number <= y.server.versions[key.versionId].number
  {
    ReachableInv(t, s0, device, steps, y);
    ConflictsShowServerVersions(t, s0, device, steps, y, key);
    ConflictsShowServerVersions(t, s0, device, steps, y, k);
    Resolution.ResolveCloses(y.work.store, key, a, e, None, next, id, now);
    assert OpenConflict(y.work.store, k, y.work.store.conflicts[key].noteId);
  }

  /** The pages the server answers are such pages. */
  lemma PagesAreServed(t: Server.Tables, w: Id, u: Id, cursor: Option<Cursor>, size: nat)
    requires ServerInvariants.Inv(t) && Paging.Pull(t, w, u, cursor, size).Ok?
    ensures Served(t.versions, Paging.Pull(t, w, u, cursor, size).value.changes)
  {
    var numbers := Paging.PullAnswersExactly(t, w, u, cursor, size);
    PageIsServed(t, w, if cursor.None? then 0 else cursor.value.sequence, numbers, size, Paging.Pull(t, w, u, cursor, size).value);
  }

  lemma PageIsServed(t: Server.Tables, w: Id, after: nat, numbers: seq<nat>, size: nat, page: PullPage)
    requires ServerInvariants.Inv(t) && Paging.ListsEntries(t, w, after, numbers) && Paging.Serves(t, w, after, numbers, size, page)
    ensures Served(t.versions, page.changes)
  {
    forall k | 0 <= k < |page.changes|
      ensures Stores(t.versions, page.changes[k].version) && page.changes[k].version.noteId == page.changes[k].note.id
    {
      assert numbers[k] in numbers;
      EntryOfNote(t, numbers[k]);
    }
  }

  lemma EntryOfNote(t: Server.Tables, n: nat)
    requires ServerInvariants.Inv(t) && 1 <= n <= |t.log|
    ensures var e := t.log[n - 1];
      e.noteId in t.notes && e.versionId in t.versions && t.versions[e.versionId].id == e.versionId
      && t.notes[e.noteId].id == e.noteId && t.versions[e.versionId].noteId == e.noteId
  {
    var e := t.log[n - 1];
    Paging.EntryInHistory(t.log, n);
    var h := ServerInvariants.History(t.log, e.noteId);
    var k :| 0 <= k < |h| && h[k] == e;
    var note := t.notes[e.noteId];
    assert ServerInvariants.Linear(note, h, t.versions);
    if k < ServerInvariants.Length(note, h) {
      assert ServerInvariants.Link(t.versions, h, e.noteId, k);
    } else {
      assert ServerInvariants.Link(t.versions, h, e.noteId, k - 1);
    }
  }
}
