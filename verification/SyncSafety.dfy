/** Safety of the sync protocol in every run of the system. */
module SyncSafety {
  import opened Wrappers
  import opened Text
  import opened Envelopes
  import opened SyncTypes
  import opened LocalStore
  import opened SealedWork
  import opened Workspaces
  import Migration
  import opened SyncSystem
  import Server = ServerTables
  import ServerInvariants
  import StoreInvariants

  // ---- Steps of the local tables that are not answers ----

  predicate UserLocal(step: LocalStep) {
    !step.BeginStep? && !step.FailStep? && !step.ResultsStep? && !step.PullStep?
  }

  lemma CreateIsQuiet(s: Store, w: Id, n: Id, d: Document, e: Envelope, id: Id, now: int, s': Store)
    requires s' == Create(s, w, n, d, e, id, now)
    ensures Quiet(s, s')
  {
  }

  lemma EditIsQuiet(s: Store, n: Id, d: Document, e: Envelope, expected: Option<nat>, existing: Option<Id>, id: Id, now: int, s': Store)
    requires s' == Edit(s, n, d, e, expected, existing, id, now)
    ensures Quiet(s, s')
  {
  }

  lemma DeleteIsQuiet(s: Store, n: Id, existing: Option<Id>, id: Id, now: int, s': Store)
    requires s' == Delete(s, n, existing, id, now)
    ensures Quiet(s, s')
  {
  }

  lemma ResolveIsQuiet(s: Store, k: ConflictKey, a: Action, e: Option<Envelope>, expected: Option<nat>, next: nat, id: Id, now: int, s': Store)
    requires s' == Resolve(s, k, a, e, expected, next, id, now)
    ensures Quiet(s, s')
  {
  }

  lemma OpenRowIsQuiet(s: Store, id: Id, c: PendingChange, s': Store)
    requires s'.changes == s.changes[id := c] && c.status != Syncing && c.status != Synced
    ensures Quiet(s, s')
  {
  }

  lemma StorePayloadIsQuiet(s: Store, id: Id, revision: nat, e: Envelope, s': Store)
    requires s' == StorePayload(s, id, revision, e)
    ensures Quiet(s, s')
  {
    if s' == s { SameChangesAreQuiet(s, s'); } else { OpenRowIsQuiet(s, id, s'.changes[id], s'); }
  }

  lemma SameChangesAreQuiet(s: Store, s': Store)
    requires s'.changes == s.changes
    ensures Quiet(s, s')
  {
  }

  lemma UserStepIsQuiet(s: Store, step: LocalStep, s': Store)
    requires UserLocal(step) && s' == LocalStore.Next(s, step)
    ensures Quiet(s, s')
  {
    match step
    case CreateStep(w, n, d, e, id, now) => CreateIsQuiet(s, w, n, d, e, id, now, s');
    case EditStep(n, d, e, expected, existing, id, now) => EditIsQuiet(s, n, d, e, expected, existing, id, now, s');
    case DeleteStep(n, existing, id, now) => DeleteIsQuiet(s, n, existing, id, now, s');
    case ResolveStep(k, a, e, expected, next, id, now) => ResolveIsQuiet(s, k, a, e, expected, next, id, now, s');
    case StorePayloadStep(id, revision, e) => StorePayloadIsQuiet(s, id, revision, e, s');
    case _ => SameChangesAreQuiet(s, s');
  }

  lemma RecordConflictsIsQuiet(s: Store, ids: set<Id>, w: Id, remote: Version, now: int)
    requires ids <= s.changes.Keys
    ensures Quiet(s, RecordConflicts(s, ids, w, remote, now))
  {
  }

  lemma QuietTransitive(a: Store, b: Store, c: Store)
    requires Quiet(a, b) && Quiet(b, c)
    ensures Quiet(a, c)
  {
  }

  lemma {:induction false} PulledIsQuiet(s: Store, w: Id, ps: seq<PullChange>, now: int, s': Store)
    requires s' == ApplyPulledAll(s, w, ps, now)
    ensures Quiet(s, s')
    decreases |ps|
  {
    if ps != [] {
      var s1 := ApplyPulled(s, w, ps[0], now);
      if Waiting(s, ps[0].note.id) != {} {
        RecordConflictsIsQuiet(s, Diverging(s, ps[0]), w, ps[0].version, now);
      } else {
        SameChangesAreQuiet(s, s1);
      }
      PulledIsQuiet(s1, w, ps[1..], now, s');
      QuietTransitive(s, s1, s');
    }
  }

  /** What every step but an attempt and its answer does to the local tables. */
  ghost predicate Calm(s: Store, s': Store) {
    StoreOk(s') && Persists(s, s') && Quiet(s, s') && Migration.Tracks(s, s')
  }

  lemma StepKeepsStoreOk(s: Store, step: LocalStep, s': Store)
    requires StoreOk(s) && AtHome(s, step) && s' == LocalStore.Next(s, step)
    ensures StoreOk(s') && Persists(s, s') && Migration.Tracks(s, s')
  {
    StoreInvariants.NextKeepsInv(s, step);
    SoundPersists(s, s');
    StepKeepsWorkspace(s, step, s');
    StepKeepsHome(s, step, s');
    Migration.StepTracks(s, step, s');
  }

  lemma MovedChangesQuiet(s: Store, plan: Migration.Plan, s': Store)
    requires s' == Migration.Move(s, plan)
    ensures Quiet(s, s') && Persists(s, s')
  {
  }

  lemma MovedKeepsOwned(s: Store, plan: Migration.Plan, s': Store)
    requires StoreInvariants.Owned(s.notes, s.changes) && StoreInvariants.DistinctRevisions(s.changes) && s' == Migration.Move(s, plan)
    ensures StoreInvariants.Owned(s'.notes, s'.changes) && StoreInvariants.DistinctRevisions(s'.changes)
  {
    forall a, b ensures StoreInvariants.Apart(s'.changes, a, b) { assert StoreInvariants.Apart(s.changes, a, b); }
  }

  lemma MovedKeepsMatch(s: Store, plan: Migration.Plan, s': Store)
    requires StoreInvariants.RecordsMatch(s.changes, s.conflicts) && s' == Migration.Move(s, plan)
    ensures StoreInvariants.RecordsMatch(s'.changes, s'.conflicts)
  {
  }

  lemma MovedKeepsResolvable(s: Store, plan: Migration.Plan, s': Store)
    requires StoreInvariants.Resolvable(s.changes, s.conflicts) && s' == Migration.Move(s, plan)
    ensures StoreInvariants.Resolvable(s'.changes, s'.conflicts)
  {
    forall x | x in s'.changes && s'.changes[x].status == Conflicted ensures exists v :: StoreInvariants.OpenRecord(s'.conflicts, x, v) {
      assert s.changes[x].status == Conflicted;
      var v :| StoreInvariants.OpenRecord(s.conflicts, x, v);
      assert StoreInvariants.OpenRecord(s'.conflicts, x, v);
    }
  }

  lemma MovedKeepsInv(s: Store, plan: Migration.Plan, s': Store)
    requires StoreInvariants.Inv(s) && s' == Migration.Move(s, plan)
    ensures StoreInvariants.Inv(s')
  {
    MovedKeepsOwned(s, plan, s');
    MovedKeepsMatch(s, plan, s');
    MovedKeepsResolvable(s, plan, s');
  }

  lemma MovedKeepsHomes(s: Store, plan: Migration.Plan, s': Store)
    requires StoreOk(s) && s' == Migration.Move(s, plan)
    ensures SameWorkspace(s') && StoreInvariants.RecordsAtHome(s')
  {
  }

  lemma MigrateIsCalm(snapshot: Store, s: Store, ws: Id, key: Key, nonces: Migration.Nonces, s': Store)
    requires StoreOk(s) && s' == Migration.Migrate(snapshot, s, ws, key, nonces).0
    ensures Calm(s, s')
  {
    Migration.MigrateTracks(snapshot, s, ws, key, nonces, s');
    if s' != s {
      var plan := Migration.MakePlan(snapshot, ws, key, nonces).value;
      MovedChangesQuiet(s, plan, s');
      MovedKeepsInv(s, plan, s');
      MovedKeepsHomes(s, plan, s');
    }
  }

  // ---- Answers ----

  /** An answer to `p` moves no other change to `syncing` or `synced`, and `p` itself to `synced` only when it is
      accepted, at the attempted revision. */
  ghost predicate Answers(s: Store, s': Store, p: PendingChange, accepted: bool) {
    && s'.changes.Keys == s.changes.Keys
    && (p.id in s'.changes ==> s'.changes[p.id].status != Syncing)
    && (forall id :: id in s.changes && s'.changes[id].status == Syncing ==>
          s.changes[id].status == Syncing && SameContent(s.changes[id], s'.changes[id]))
    && (forall id :: id in s.changes && s'.changes[id].status == Synced ==>
          s'.changes[id] == s.changes[id] || (id == p.id && accepted && SameContent(p, s'.changes[id])))
  }

  lemma SingleResult(s: Store, w: Id, p: PendingChange, results: seq<PushResult>, now: int)
    ensures ApplyResults(s, w, [p], results, now) == ApplyResult(s, w, p, ResultFor(results, p.id), now)
  {
    assert ApplyResults(s, w, [p], results, now)
        == ApplyResults(ApplyResult(s, w, p, ResultFor(results, p.id), now), w, [], results, now);
  }

  lemma AcceptedMoves(s: Store, w: Id, p: PendingChange, v: Version)
    requires p.id in s.changes && s.changes[p.id].id == p.id
    requires s.changes[p.id].status == Syncing ==> SameContent(p, s.changes[p.id])
    ensures Answers(s, ApplyAccepted(s, w, p, v), p, true)
  {
  }

  lemma ConflictMoves(s: Store, w: Id, p: PendingChange, v: Version, now: int)
    requires p.id in s.changes
    ensures Answers(s, RecordConflicts(s, {p.id} + Spread(s, s.changes[p.id]), w, v, now), p, false)
  {
  }

  lemma ResultMoves(s: Store, w: Id, p: PendingChange, r: Option<PushResult>, now: int)
    requires p.id in s.changes && s.changes[p.id].id == p.id
    requires s.changes[p.id].status == Syncing ==> SameContent(p, s.changes[p.id])
    ensures Answers(s, ApplyResult(s, w, p, r, now), p, r.Some? && AnswersAccepted(r.value))
  {
    if r.Some? && (r.value.Conflict? || r.value.DuplicateConflict?) {
      ConflictMoves(s, w, p, r.value.remote, now);
    } else if r.Some? && AnswersAccepted(r.value) {
      AcceptedMoves(s, w, p, r.value.version);
    }
  }

  // ---- Steps of the system ----

  /** The transaction on the local tables that a step of the user comes to, if any. */
  function AsLocal(w: Work, key: Key, step: WorkStep): Option<LocalStep>
    requires UserStep(step)
  {
    var s := w.store;
    match step
    case CreateEncrypted(ws, n, d, nonce, id, now) =>
      var e := Seal(d, key, Context(ws, n, 1), nonce);
      if e.None? then None else Some(LocalStep.CreateStep(ws, n, d, e.value, id, now))
    case EditEncrypted(n, d, nonce, r, existing, id, now) =>
      if !Active(s, n) then None
      else
        var e := Seal(d, key, Context(s.notes[n].workspaceId, n, r + 1), nonce);
        if e.None? then None else Some(EditStep(n, d, e.value, Some(r), existing, id, now))
    case ResolveEncrypted(k, a, d, nonce, next, id, now) =>
      if k !in s.conflicts then None
      else
        var e := Seal(d, key, Context(s.conflicts[k].workspaceId, s.conflicts[k].noteId, next), nonce);
        if e.None? then None else Some(ResolveStep(k, a, e, Some(next), next, id, now))
    case EncryptQueued(c, nonce) =>
      if c.legacy.None? then None
      else
        var e := Seal(c.legacy.value, key, ChangeContext(c), nonce);
        if e.None? || c.id !in s.changes || s.changes[c.id].noteId != c.noteId || s.changes[c.id].workspaceId != c.workspaceId then None
        else Some(StorePayloadStep(c.id, c.revision, e.value))
    case MigratePlaintext(_, _, _) => None
    case Plain(l) => Some(l)
  }

  lemma EditIsLocal(w: Work, key: Key, n: Id, d: Document, nonce: nat, r: nat, existing: Option<Id>, id: Id, now: int)
    ensures var step := EditEncrypted(n, d, nonce, r, existing, id, now);
      Perform(w, key, step).store == if AsLocal(w, key, step).None? then w.store else LocalStore.Next(w.store, AsLocal(w, key, step).value)
  {
  }

  lemma ResolveStores(w: Work, key: Key, k: ConflictKey, a: Action, d: Document, nonce: nat, next: nat, id: Id, now: int, e: Option<Envelope>)
    requires k in w.store.conflicts && e.Some?
    requires e == Seal(d, key, Context(w.store.conflicts[k].workspaceId, w.store.conflicts[k].noteId, next), nonce)
    ensures Perform(w, key, ResolveEncrypted(k, a, d, nonce, next, id, now)).store == Resolve(w.store, k, a, e, Some(next), next, id, now)
  {
    if !CanResolve(w.store, k, a, e, next, id) { assert Resolve(w.store, k, a, e, Some(next), next, id, now) == w.store; }
  }

  lemma ResolveIsLocal(w: Work, key: Key, k: ConflictKey, a: Action, d: Document, nonce: nat, next: nat, id: Id, now: int)
    ensures var step := ResolveEncrypted(k, a, d, nonce, next, id, now);
      Perform(w, key, step).store == if AsLocal(w, key, step).None? then w.store else LocalStore.Next(w.store, AsLocal(w, key, step).value)
  {
    if k in w.store.conflicts {
      var e := Seal(d, key, Context(w.store.conflicts[k].workspaceId, w.store.conflicts[k].noteId, next), nonce);
      if e.Some? { ResolveStores(w, key, k, a, d, nonce, next, id, now, e); }
    }
  }

  lemma EncryptIsLocal(w: Work, key: Key, c: PendingChange, nonce: nat)
    ensures var step := EncryptQueued(c, nonce);
      Perform(w, key, step).store == if AsLocal(w, key, step).None? then w.store else LocalStore.Next(w.store, AsLocal(w, key, step).value)
  {
  }

  lemma PerformIsLocal(w: Work, key: Key, step: WorkStep)
    requires UserStep(step)
    ensures AsLocal(w, key, step).Some? ==> UserLocal(AsLocal(w, key, step).value)
    ensures Perform(w, key, step).store ==
      if AsLocal(w, key, step).None? then w.store else LocalStore.Next(w.store, AsLocal(w, key, step).value)
  {
    match step
    case CreateEncrypted(ws, n, d, nonce, id, now) =>
    case EditEncrypted(n, d, nonce, r, existing, id, now) => EditIsLocal(w, key, n, d, nonce, r, existing, id, now);
    case ResolveEncrypted(k, a, d, nonce, next, id, now) => ResolveIsLocal(w, key, k, a, d, nonce, next, id, now);
    case EncryptQueued(c, nonce) => EncryptIsLocal(w, key, c, nonce);
    case Plain(l) =>
  }

  lemma NothingIsCalm(s: Store)
    requires StoreOk(s)
    ensures Calm(s, s)
  {
    Migration.RowsTrackThemselves(s.changes, s.conflicts);
  }

  lemma PlansTrackOn(planned: set<Store>, s: Store, s': Store)
    requires PlansTrack(planned, s) && Migration.Tracks(s, s')
    ensures PlansTrack(planned, s')
  {
    forall p | p in planned ensures StoreOk(p) && Migration.Tracks(p, s') {
      Migration.TracksTransitive(p, s, s');
    }
  }

  lemma CalmKeepsSynced(y: System, device: Device, y': System)
    requires SyncedStored(y, device) && ServerInvariants.Inv(y.server) && y'.server == y.server && Quiet(y.work.store, y'.work.store)
    ensures SyncedStored(y', device)
  {
    var s, s' := y.work.store, y'.work.store;
    forall id | id in s'.changes && s'.changes[id].status == Synced && s'.changes[id].workspaceId == device.workspaceId
      ensures StoredAs(y'.server, device, s'.changes[id])
    {
      StoredContent(y.server, device, s.changes[id], s'.changes[id]);
    }
  }

  lemma StoredContent(t: Server.Tables, device: Device, c: PendingChange, c': PendingChange)
    requires ServerInvariants.Inv(t) && StoredAs(t, device, c) && SameContent(c, c')
    ensures StoredAs(t, device, c')
  {
    var request, v :| AcceptedAs(t, device, request, v) && request.operationId == c.id && request.kind == c.kind
      && request.noteId == c.noteId && request.revision == c.revision && (c.kind != DeleteNote ==> request.payload == c.payload);
    assert ServerInvariants.Faithful(t.operations[request.operationId], t.notes, t.versions);
    assert AcceptedAs(t, device, request, v);
  }

  /** The run goes on, or is over. */
  predicate RunGoesOn(y: System, y': System) {
    (y'.flight == y.flight && y'.attempted == y.attempted) || (y'.flight.None? && y'.attempted == [])
  }

  lemma CalmKeepsAttempts(y: System, device: Device, y': System)
    requires AttemptsDone(y) && FlightKnown(y, device) && RunGoesOn(y, y')
    requires Quiet(y.work.store, y'.work.store) && Persists(y.work.store, y'.work.store)
    ensures AttemptsDone(y') && FlightKnown(y', device)
  {
  }

  /** What a calm step of the local tables, in front of an unchanged server, keeps. */
  lemma CalmKeepsInv(y: System, device: Device, y': System)
    requires Inv(y, device) && RunGoesOn(y, y') && y' == y.(work := y'.work, flight := y'.flight, attempted := y'.attempted)
    requires Calm(y.work.store, y'.work.store) && Bound(y'.work, device.key)
    ensures Inv(y', device)
  {
    CalmKeepsSynced(y, device, y');
    CalmKeepsAttempts(y, device, y');
    PlansTrackOn(y.planned, y.work.store, y'.work.store);
  }

  lemma UserIsCalm(w: Work, key: Key, step: WorkStep, w': Work)
    requires UserStep(step) && (step.Plain? ==> AtHome(w.store, step.step)) && StoreOk(w.store) && w' == Perform(w, key, step)
    ensures Calm(w.store, w'.store)
  {
    PerformIsLocal(w, key, step);
    var local := AsLocal(w, key, step);
    if local.None? {
      NothingIsCalm(w.store);
    } else {
      StepKeepsStoreOk(w.store, local.value, w'.store);
      UserStepIsQuiet(w.store, local.value, w'.store);
    }
  }

  lemma UserKeepsInv(y: System, device: Device, w: WorkStep, y': System)
    requires Inv(y, device) && Enabled(y, device, User(w)) && y' == Advance(y, device, User(w))
    ensures Inv(y', device)
  {
    UserIsCalm(y.work, device.key, w, y'.work);
    NextKeepsBound(y.work, device.key, w);
    CalmKeepsInv(y, device, y');
  }

  lemma PlanKeepsInv(y: System, device: Device, y': System)
    requires Inv(y, device) && y' == Advance(y, device, Plan)
    ensures Inv(y', device)
  {
    NothingIsCalm(y.work.store);
  }

  lemma CommitKeepsInv(y: System, device: Device, snapshot: Store, nonces: Migration.Nonces, y': System)
    requires Inv(y, device) && Enabled(y, device, Commit(snapshot, nonces)) && y' == Advance(y, device, Commit(snapshot, nonces))
    ensures Inv(y', device)
  {
    assert StoreOk(snapshot) && Migration.Tracks(snapshot, y.work.store);
    NextKeepsBound(y.work, device.key, MigratePlaintext(snapshot, device.workspaceId, nonces));
    MigrateIsCalm(snapshot, y.work.store, device.workspaceId, device.key, nonces, y'.work.store);
    CalmKeepsInv(y, device, y');
  }

  lemma PageIsCalm(s: Store, page: PullPage, now: int, s': Store)
    requires StoreOk(s) && PageAgrees(s, page) && s' == ApplyPage(s, page, now)
    ensures Calm(s, s')
  {
    var step := LocalStep.PullStep(page, now);
    StepKeepsStoreOk(s, step, s');
    var pulled := ApplyPulledAll(s, page.workspaceId, page.changes, now);
    PulledIsQuiet(s, page.workspaceId, page.changes, now, pulled);
    SameChangesAreQuiet(pulled, s');
    QuietTransitive(s, pulled, s');
  }

  lemma PullKeepsInv(y: System, device: Device, page: PullPage, now: int, y': System)
    requires Inv(y, device) && Enabled(y, device, ReceivePage(page, now)) && y' == Advance(y, device, ReceivePage(page, now))
    ensures Inv(y', device)
  {
    PageIsCalm(y.work.store, page, now, y'.work.store);
    NextKeepsBound(y.work, device.key, Plain(LocalStep.PullStep(page, now)));
    CalmKeepsInv(y, device, y');
  }

  lemma AcceptedGrows(t: Server.Tables, t': Server.Tables, device: Device, c: PendingChange)
    requires ServerInvariants.Grows(t, t') && StoredAs(t, device, c)
    ensures StoredAs(t', device, c)
  {
    var request, v :| AcceptedAs(t, device, request, v) && request.operationId == c.id && request.kind == c.kind
      && request.noteId == c.noteId && request.revision == c.revision && (c.kind != DeleteNote ==> request.payload == c.payload);
    assert AcceptedAs(t', device, request, v);
  }

  lemma ServerKeepsInv(y: System, device: Device, y': System)
    requires Inv(y, device) && ServerInvariants.Inv(y'.server) && ServerInvariants.Grows(y.server, y'.server)
    requires y' == y.(server := y'.server, answers := y'.answers)
    requires AnswersTrue(y', device)
    ensures Inv(y', device)
  {
    forall id | id in y.work.store.changes && y.work.store.changes[id].status == Synced
                && y.work.store.changes[id].workspaceId == device.workspaceId
      ensures StoredAs(y'.server, device, y.work.store.changes[id])
    {
      AcceptedGrows(y.server, y'.server, device, y.work.store.changes[id]);
    }
  }

  lemma AnswerIsTrue(t: Server.Tables, device: Device, request: PushChange, v: Id)
    requires ServerInvariants.Inv(t)
    ensures var (t', p) := Server.Process(t, Server.SyncInput(device.workspaceId, device.userId, device.clientId, request, v));
      var r := Server.Answer(request.operationId, p);
      r.Some? && AnswersAccepted(r.value) ==> AcceptedAs(t', device, request, r.value.version.id)
  {
    ServerInvariants.ProcessExplains(t, Server.SyncInput(device.workspaceId, device.userId, device.clientId, request, v));
  }

  lemma OldAnswersTrue(y: System, device: Device, t': Server.Tables)
    requires AnswersTrue(y, device) && ServerInvariants.Grows(y.server, t')
    ensures forall request, r :: (request, r) in y.answers && AnswersAccepted(r) ==> AcceptedAs(t', device, request, r.version.id)
  {
  }

  lemma DeliveryAnswersTrue(y: System, device: Device, request: PushChange, v: Id, y': System)
    requires ServerInvariants.Inv(y.server) && AnswersTrue(y, device) && request in y.sent
    requires ServerInvariants.Grows(y.server, y'.server) && y' == Advance(y, device, Deliver(request, v))
    ensures AnswersTrue(y', device)
  {
    AnswerIsTrue(y.server, device, request, v);
    OldAnswersTrue(y, device, y'.server);
  }

  lemma DeliverMoves(y: System, device: Device, request: PushChange, v: Id, y': System)
    requires ServerInvariants.Inv(y.server) && request in y.sent && y' == Advance(y, device, Deliver(request, v))
    ensures y' == y.(server := y'.server, answers := y'.answers)
    ensures ServerInvariants.Inv(y'.server) && ServerInvariants.Grows(y.server, y'.server)
  {
    ServerInvariants.ProcessKeepsInv(y.server, Server.SyncInput(device.workspaceId, device.userId, device.clientId, request, v));
  }

  lemma DeliverKeepsInv(y: System, device: Device, request: PushChange, v: Id, y': System)
    requires Inv(y, device) && request in y.sent && y' == Advance(y, device, Deliver(request, v))
    ensures Inv(y', device)
  {
    DeliverMoves(y, device, request, v, y');
    DeliveryAnswersTrue(y, device, request, v, y');
    ServerKeepsInv(y, device, y');
  }

  lemma EnvironmentKeepsInv(y: System, device: Device, e: Server.Step, y': System)
    requires Inv(y, device) && y' == Advance(y, device, Environment(e))
    ensures Inv(y', device)
  {
    ServerInvariants.NextKeepsInv(y.server, e);
    ServerKeepsInv(y, device, y');
  }

  lemma BeginMoves(s: Store, id: Id)
    requires id in s.changes && s.changes[id].id == id && Retryable(s.changes[id]) && SameWorkspace(s)
    ensures var (s', started) := BeginAll(s, [s.changes[id]]);
      && started == Begin(s, s.changes[id]).1 && |started| == 1 && SameContent(s.changes[id], started[0])
      && started[0].id == id && started[0].workspaceId == s.changes[id].workspaceId
      && SameWorkspace(s') && s'.changes == s.changes[id := started[0]] && started[0].status == Syncing
  {
    var s1 := Begin(s, s.changes[id]).0;
    assert BeginAll(s1, [s.changes[id]][1..]) == (s1, []);
  }

  lemma StartKeepsAttempts(y: System, device: Device, id: Id)
    requires AttemptsDone(y) && CanStart(y, device, id) && SameWorkspace(y.work.store)
    ensures AttemptsDone(Advance(y, device, Start(id))) && FlightKnown(Advance(y, device, Start(id)), device)
  {
    var y' := Advance(y, device, Start(id));
    BeginMoves(y.work.store, id);
    var p := y'.flight.value;
    assert y'.attempted[|y.attempted|] == p;
    forall k | 0 <= k < |y'.attempted| && y'.attempted[k].id != p.id
      ensures y'.attempted[k].id in y'.work.store.changes && y'.work.store.changes[y'.attempted[k].id].status != Syncing
    {
      assert k < |y.attempted| && y'.attempted[k] == y.attempted[k];
    }
  }

  lemma StartKeepsSynced(y: System, device: Device, id: Id)
    requires SyncedStored(y, device) && CanStart(y, device, id) && SameWorkspace(y.work.store)
    ensures SyncedStored(Advance(y, device, Start(id)), device)
  {
    var s, y' := y.work.store, Advance(y, device, Start(id));
    BeginMoves(s, id);
    assert forall x :: x in y'.work.store.changes && x != id ==> x in s.changes && y'.work.store.changes[x] == s.changes[x];
  }

  lemma StartKeepsPromises(y: System, device: Device, id: Id)
    requires PromisesSealed(y.promised, device) && CanStart(y, device, id)
    requires SameWorkspace(y.work.store) && Bound(y.work, device.key)
    ensures PromisesSealed(Advance(y, device, Start(id)).promised, device)
  {
    BeginMoves(y.work.store, id);
  }

  lemma StartKeepsStore(s: Store, id: Id, s': Store)
    requires StoreOk(s) && id in s.changes && s' == BeginAll(s, [s.changes[id]]).0
    ensures StoreOk(s') && Migration.Tracks(s, s')
  {
    StepKeepsStoreOk(s, BeginStep([s.changes[id]]), s');
  }

  lemma StartKeepsInv(y: System, device: Device, id: Id, y': System)
    requires Inv(y, device) && CanStart(y, device, id) && y' == Advance(y, device, Start(id))
    ensures Inv(y', device)
  {
    StartKeepsStore(y.work.store, id, y'.work.store);
    NextKeepsBound(y.work, device.key, Plain(BeginStep([y.work.store.changes[id]])));
    StartKeepsAttempts(y, device, id);
    StartKeepsSynced(y, device, id);
    StartKeepsPromises(y, device, id);
    PlansTrackOn(y.planned, y.work.store, y'.work.store);
  }

  lemma AnsweredKeepsSynced(y: System, device: Device, r: Option<PushResult>, y': System)
    requires SyncedStored(y, device) && AnswersTrue(y, device) && y.flight.Some? && y'.server == y.server
    requires r.Some? ==> (Wire(y.flight.value), r.value) in y.answers
    requires Answers(y.work.store, y'.work.store, y.flight.value, r.Some? && AnswersAccepted(r.value))
    requires y.flight.value.kind != DeleteNote ==> y.flight.value.payload.Some?
    ensures SyncedStored(y', device)
  {
    var s, s' := y.work.store, y'.work.store;
    forall id | id in s'.changes && s'.changes[id].status == Synced && s'.changes[id].workspaceId == device.workspaceId
      ensures StoredAs(y'.server, device, s'.changes[id])
    {
      if s'.changes[id] != s.changes[id] {
        assert AcceptedAs(y.server, device, Wire(y.flight.value), r.value.version.id);
      }
    }
  }

  lemma AnsweredKeepsAttempts(y: System, device: Device, accepted: bool, y': System)
    requires AttemptsDone(y) && y.flight.Some? && y' == y.(work := y'.work, flight := None)
    requires y.flight.value.id in y.work.store.changes && Answers(y.work.store, y'.work.store, y.flight.value, accepted)
    ensures AttemptsDone(y')
  {
    var s' := y'.work.store;
    forall k | 0 <= k < |y'.attempted|
      ensures y'.attempted[k].id in s'.changes && s'.changes[y'.attempted[k].id].status != Syncing
    {
      assert y'.attempted[k] == y.attempted[k];
    }
  }

  lemma AnswerKeepsStore(s: Store, w: Id, p: PendingChange, r: Option<PushResult>, now: int, s': Store)
    requires StoreOk(s) && s' == ApplyResult(s, w, p, r, now) && (p.id in s.changes ==> s.changes[p.id].workspaceId == w)
    ensures StoreOk(s') && Migration.Tracks(s, s')
  {
    StoreInvariants.ApplyResultKeepsInv(s, w, p, r, now);
    ResultKeepsWorkspace(s, w, p, r, now);
    ResultKeepsHome(s, w, p, r, now, s');
    Migration.ResultTracks(s, w, p, r, now, s');
  }

  lemma AnsweredKeepsInv(y: System, device: Device, r: Option<PushResult>, now: int, y': System)
    requires Inv(y, device) && y.flight.Some?
    requires r.Some? ==> (Wire(y.flight.value), r.value) in y.answers
    requires y' == y.(work := y'.work, flight := None)
    requires y'.work.store == ApplyResult(y.work.store, device.workspaceId, y.flight.value, r, now)
    requires Bound(y'.work, device.key)
    ensures Inv(y', device)
  {
    var p, s := y.flight.value, y.work.store;
    AnswerKeepsStore(s, device.workspaceId, p, r, now, y'.work.store);
    ResultMoves(s, device.workspaceId, p, r, now);
    AnsweredKeepsSynced(y, device, r, y');
    AnsweredKeepsAttempts(y, device, r.Some? && AnswersAccepted(r.value), y');
    PlansTrackOn(y.planned, s, y'.work.store);
  }

  lemma AnswerFound(r: PushResult, id: Id)
    ensures ResultFor([r], id) == if r.operationId == id then Some(r) else None
    ensures ResultFor([], id) == None
  {
    assert [r][..0] == [];
  }

  /** The answer a receiving step applies, if it applies one. */
  function Received(y: System, step: Step): Option<PushResult>
    requires y.flight.Some?
  {
    if step.Receive? && step.result.operationId == y.flight.value.id then Some(step.result) else None
  }

  function ReceivedAt(step: Step): int {
    if step.Receive? then step.now else if step.ReceiveNothing? then step.now else 0
  }

  lemma ReceiveApplies(y: System, device: Device, step: Step, y': System)
    requires Bound(y.work, device.key) && SameWorkspace(y.work.store) && Enabled(y, device, step)
    requires (step.Receive? || step.ReceiveNothing?) && y' == Advance(y, device, step)
    ensures y' == y.(work := y'.work, flight := None) && Bound(y'.work, device.key)
    ensures y'.work.store == ApplyResult(y.work.store, device.workspaceId, y.flight.value, Received(y, step), ReceivedAt(step))
  {
    var p := y.flight.value;
    var results := if step.Receive? then [step.result] else [];
    NextKeepsBound(y.work, device.key, Plain(ResultsStep(device.workspaceId, [p], results, step.now)));
    SingleResult(y.work.store, device.workspaceId, p, results, step.now);
    if step.Receive? { AnswerFound(step.result, p.id); } else { AnswerFound(Rejected(0, Forbidden), p.id); }
  }

  lemma ReceiveKeepsInv(y: System, device: Device, step: Step, y': System)
    requires Inv(y, device) && Enabled(y, device, step) && (step.Receive? || step.ReceiveNothing?)
    requires y' == Advance(y, device, step)
    ensures Inv(y', device)
  {
    ReceiveApplies(y, device, step, y');
    AnsweredKeepsInv(y, device, Received(y, step), ReceivedAt(step), y');
  }

  /** Failing the attempts of a run leaves none of them in `syncing` at the attempted revision. */
  lemma FailAllMoves(s: Store, attempted: seq<PendingChange>)
    ensures Quiet(s, FailAll(s, attempted))
    ensures SameWorkspace(s) ==> SameWorkspace(FailAll(s, attempted))
    ensures forall p :: p in attempted && p.id in s.changes && s.changes[p.id].revision == p.revision ==>
      FailAll(s, attempted).changes[p.id].status != Syncing
  {
  }

  lemma ResetKeepsInv(y: System, device: Device, y': System)
    requires Inv(y, device) && y' == Idle(y)
    ensures Inv(y', device)
  {
    NothingIsCalm(y.work.store);
    CalmKeepsInv(y, device, y');
  }

  lemma FailIsCalm(s: Store, attempted: seq<PendingChange>, s': Store)
    requires StoreOk(s) && s' == FailAll(s, attempted)
    ensures Calm(s, s')
  {
    StepKeepsStoreOk(s, FailStep(attempted), s');
    FailAllMoves(s, attempted);
  }

  lemma AbortFails(y: System, device: Device, y': System)
    requires Bound(y.work, device.key) && SameWorkspace(y.work.store) && y' == Advance(y, device, Abort)
    ensures y' == Idle(y.(work := y'.work)) && y'.work.store == FailAll(y.work.store, y.attempted) && Bound(y'.work, device.key)
  {
    NextKeepsBound(y.work, device.key, Plain(FailStep(y.attempted)));
  }

  lemma AbortKeepsInv(y: System, device: Device, y': System)
    requires Inv(y, device) && y' == Advance(y, device, Abort)
    ensures Inv(y', device)
  {
    AbortFails(y, device, y');
    FailIsCalm(y.work.store, y.attempted, y'.work.store);
    CalmKeepsInv(y, device, y');
  }

  lemma AdvanceKeepsInv(y: System, device: Device, step: Step, y': System)
    requires Inv(y, device) && y' == Advance(y, device, step)
    ensures Inv(y', device)
  {
    if Enabled(y, device, step) {
      match step
      case User(w) => UserKeepsInv(y, device, w, y');
      case Plan => PlanKeepsInv(y, device, y');
      case Commit(snapshot, nonces) => CommitKeepsInv(y, device, snapshot, nonces, y');
      case Environment(e) => EnvironmentKeepsInv(y, device, e, y');
      case Start(id) => StartKeepsInv(y, device, id, y');
      case Deliver(request, v) => DeliverKeepsInv(y, device, request, v, y');
      case ReceivePage(page, now) => PullKeepsInv(y, device, page, now, y');
      case Receive(_, _) => ReceiveKeepsInv(y, device, step, y');
      case ReceiveNothing(_) => ReceiveKeepsInv(y, device, step, y');
      case Abort => AbortKeepsInv(y, device, y');
      case Finish => ResetKeepsInv(y, device, y');
      case Crash => ResetKeepsInv(y, device, y');
    }
  }

  lemma {:induction false} ExecuteKeepsInv(y: System, device: Device, steps: seq<Step>, y': System)
    requires Inv(y, device) && y' == Execute(y, device, steps)
    ensures Inv(y', device)
    decreases |steps|
  {
    if steps != [] {
      var y1 := Advance(y, device, steps[0]);
      AdvanceKeepsInv(y, device, steps[0], y1);
      ExecuteKeepsInv(y1, device, steps[1..], y');
    }
  }

  /** The invariant holds in every run, from any tables a device may start from. */
  lemma ReachableInv(t: Server.Tables, s: Store, device: Device, steps: seq<Step>, y: System)
    requires Starts(t, s, device) && y == Execute(Idling(t, s), device, steps)
    ensures Inv(y, device)
  {
    assert Inv(Idling(t, s), device);
    ExecuteKeepsInv(Idling(t, s), device, steps, y);
  }

  /** A new device may start in front of any server. */
  lemma NewDeviceStarts(t: Server.Tables, device: Device)
    requires ServerInvariants.Inv(t)
    ensures Starts(t, LocalStore.EMPTY, device)
  {
  }

  // ---- Theorems ----

  /** Synced means stored, once and exactly. In every run, a change marked `synced` has an accepted operation under
      its id, this device's; for a create or an update that operation's version carries exactly the change's payload
      and revision, and no other accepted write holds that version. */
  lemma SyncedMeansStored(t: Server.Tables, s: Store, device: Device, steps: seq<Step>, id: Id, y: System)
    requires Starts(t, s, device) && y == Execute(Idling(t, s), device, steps)
    requires id in y.work.store.changes && y.work.store.changes[id].status == Synced
    requires y.work.store.changes[id].workspaceId == device.workspaceId
    ensures var c := y.work.store.changes[id];
      && id in y.server.operations
      && var o := y.server.operations[id];
      && o.accepted && o.actor == device.userId && o.clientId == device.clientId && o.workspaceId == device.workspaceId
      && o.change.kind == c.kind && o.change.noteId == c.noteId
      && o.versionId in y.server.versions && c.noteId in y.server.notes
      && var v := y.server.versions[o.versionId];
      && v.noteId == c.noteId
      && (c.kind != DeleteNote ==>
            && c.payload.Some? && v.payload == Stored(c.payload.value) && v.clientVersion == Some(Decimal(c.revision))
            && v.author == device.userId
            && forall x :: x in y.server.operations && x != id && ServerInvariants.WritesVersion(y.server.operations[x]) ==>
                 y.server.operations[x].versionId != o.versionId)
      && (c.kind == DeleteNote ==> y.server.notes[c.noteId].deleted)
  {
    ReachableInv(t, s, device, steps, y);
    assert StoredAs(y.server, device, y.work.store.changes[id]);
    assert ServerInvariants.Faithful(y.server.operations[id], y.server.notes, y.server.versions);
  }

  /** Whatever version the server ever accepts from a request that create, edit, accept_remote, manual_merge, the
      engine's encryption, the plaintext migration or a keep_local without a stored envelope prepared opens, on every
      device that holds the key and knows only the version row the server returns, to the title and body that
      operation was given or the plaintext the change had; even when the answer was lost. */
  lemma AcceptedVersionsOpen(t: Server.Tables, s: Store, device: Device, steps: seq<Step>, request: PushChange, d: Document, o: Id, y: System)
    requires Starts(t, s, device) && y == Execute(Idling(t, s), device, steps)
    requires (request, d) in y.promised && o in y.server.operations && y.server.operations[o].change == request
    requires ServerInvariants.WritesVersion(y.server.operations[o])
    ensures y.server.operations[o].versionId in y.server.versions
    ensures OpenCached(Cached(device.workspaceId, y.server.versions[y.server.operations[o].versionId]), device.key) == Some(d)
  {
    ReachableInv(t, s, device, steps, y);
    assert ServerInvariants.Faithful(y.server.operations[o], y.server.notes, y.server.versions);
    var context := Context(device.workspaceId, request.noteId, request.revision);
    StoredEnvelopeOpens(request.payload.value, d, device.key, context, y.server.versions[y.server.operations[o].versionId]);
  }

  /** A finished run leaves none of its attempts in `syncing`, whether it returned or threw and whatever the
      transport and the user did; a crash is the exception. */
  lemma FinishedRunLeavesNothingSyncing(t: Server.Tables, s: Store, device: Device, steps: seq<Step>, end: Step, k: nat, y: System)
    requires Starts(t, s, device) && y == Execute(Idling(t, s), device, steps)
    requires Enabled(y, device, end) && (end.Finish? || end.Abort?) && k < |y.attempted|
    ensures var s' := Advance(y, device, end).work.store;
      y.attempted[k].id in s'.changes && s'.changes[y.attempted[k].id].status != Syncing
  {
    ReachableInv(t, s, device, steps, y);
    EndLeavesNothingSyncing(y, device, end, k);
  }

  lemma EndLeavesNothingSyncing(y: System, device: Device, end: Step, k: nat)
    requires FlightKnown(y, device) && AttemptsDone(y)
    requires Enabled(y, device, end) && (end.Finish? || end.Abort?) && k < |y.attempted|
    ensures var s := Advance(y, device, end).work.store;
      y.attempted[k].id in s.changes && s.changes[y.attempted[k].id].status != Syncing
  {
    FailAllMoves(y.work.store, y.attempted);
  }
}
