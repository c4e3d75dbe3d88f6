/** Sending a change again after its answer was lost: it settles exactly if the change is still the one that was sent, and
    an attempt that was edited since can never be marked `synced`. */
module RetrySafety {
  import opened Wrappers
  import opened Envelopes
  import opened SyncTypes
  import opened LocalStore
  import opened SealedWork
  import opened SyncSystem
  import opened SyncSafety
  import opened Workspaces
  import opened KeepLocal
  import LocalEffects
  import Migration
  import Server = ServerTables
  import ServerInvariants
  import StoreInvariants

  // ---- Revisions never go back ----

  ghost predicate Rises(s: Store, s': Store) {
    forall id :: id in s.changes ==>
      && id in s'.changes && s.changes[id].revision <= s'.changes[id].revision
      && s'.changes[id].workspaceId == s.changes[id].workspaceId
  }

  lemma LocalRises(s: Store, step: LocalStep, s': Store)
    requires StoreInvariants.Inv(s) && s' == LocalStore.Next(s, step)
    ensures Rises(s, s')
  {
    StoreInvariants.NextKeepsInv(s, step);
  }

  lemma UserRises(w: Work, key: Key, step: WorkStep, s': Store)
    requires StoreInvariants.Inv(w.store) && UserStep(step) && s' == Perform(w, key, step).store
    ensures Rises(w.store, s')
  {
    PerformIsLocal(w, key, step);
    var local := AsLocal(w, key, step);
    if local.Some? { LocalRises(w.store, local.value, s'); }
  }

  lemma MigrateRises(planned: Store, s: Store, w: Id, key: Key, nonces: Migration.Nonces, s': Store)
    requires s' == Migration.Migrate(planned, s, w, key, nonces).0
    ensures Rises(s, s')
  {
    Migration.AllOrNothing(planned, s, w, key, nonces);
  }

  lemma MadeRises(y: System, device: Device, step: Step, s': Store)
    requires StoreInvariants.Inv(y.work.store) && Enabled(y, device, step)
    requires !step.Receive? && !step.ReceiveNothing? && Makes(y, device, step, s')
    ensures Rises(y.work.store, s')
  {
    var s := y.work.store;
    match step
    case User(w) => UserRises(y.work, device.key, w, s');
    case Commit(snapshot, nonces) => MigrateRises(snapshot, s, device.workspaceId, device.key, nonces, s');
    case Start(id) => LocalRises(s, BeginStep([s.changes[id]]), s');
    case ReceivePage(page, now) => LocalRises(s, LocalStep.PullStep(page, now), s');
    case Abort => LocalRises(s, FailStep(y.attempted), s');
    case _ =>
  }

  lemma AnswerRises(y: System, device: Device, step: Step, y': System)
    requires StoreInvariants.Inv(y.work.store) && Enabled(y, device, step) && (step.Receive? || step.ReceiveNothing?)
    requires y' == Advance(y, device, step)
    ensures Rises(y.work.store, y'.work.store) && y'.server == y.server
  {
    var results := if step.Receive? then [step.result] else [];
    LocalRises(y.work.store, ResultsStep(device.workspaceId, [y.flight.value], results, step.now), y'.work.store);
  }

  lemma ServerGrows(y: System, device: Device, step: Step, y': System)
    requires ServerInvariants.Inv(y.server) && y' == Advance(y, device, step)
    ensures ServerInvariants.Grows(y.server, y'.server)
  {
    if Enabled(y, device, step) {
      if step.Environment? { ServerInvariants.NextKeepsInv(y.server, step.remote); }
      if step.Deliver? {
        ServerInvariants.ProcessKeepsInv(y.server, Server.SyncInput(device.workspaceId, device.userId, device.clientId, step.request, step.versionId));
      }
    }
  }

  lemma {:induction false} ExecuteRises(y: System, device: Device, steps: seq<Step>, y': System)
    requires Inv(y, device) && y' == Execute(y, device, steps)
    ensures Rises(y.work.store, y'.work.store) && ServerInvariants.Grows(y.server, y'.server)
    decreases |steps|
  {
    if steps != [] {
      var y1 := Advance(y, device, steps[0]);
      AdvanceRises(y, device, steps[0], y1);
      ServerGrows(y, device, steps[0], y1);
      AdvanceKeepsInv(y, device, steps[0], y1);
      ExecuteRises(y1, device, steps[1..], y');
      ServerInvariants.GrowsTransitive(y.server, y1.server, y'.server);
    }
  }

  lemma AdvanceRises(y: System, device: Device, step: Step, y': System)
    requires StoreInvariants.Inv(y.work.store) && y' == Advance(y, device, step)
    ensures Rises(y.work.store, y'.work.store)
  {
    if Enabled(y, device, step) {
      if step.Receive? || step.ReceiveNothing? {
        AnswerRises(y, device, step, y');
      } else {
        AdvanceMakes(y, device, step);
        MadeRises(y, device, step, y'.work.store);
      }
    }
  }

  // ---- Theorems ----

  /** The server has recorded this very request of the device. */
  predicate RecordedAs(t: Server.Tables, device: Device, request: PushChange) {
    && request.operationId in t.operations
    && var o := t.operations[request.operationId];
    o.workspaceId == device.workspaceId && o.actor == device.userId && o.clientId == device.clientId && o.change == request
  }

  /** What the device's next step makes of the answer. */
  ghost predicate Settles(delivered: System, device: Device, request: PushChange, r: PushResult, now: int, status: Status) {
    && (request, r) in delivered.answers && r.operationId == request.operationId
    && var changes := Advance(delivered, device, Receive(r, now)).work.store.changes;
    request.operationId in changes && changes[request.operationId].status == status
  }

  /** Sending again, up to the answer: the change is started and its request delivered. */
  ghost predicate SendsAgain(y: System, device: Device, id: Id, draw: Id, sent: System, delivered: System) {
    && CanStart(y, device, id) && id in y.server.operations
    && sent == Advance(y, device, Start(id)) && delivered == Advance(sent, device, Deliver(Wire(y.work.store.changes[id]), draw))
  }

  /** In every run, sending a change whose id the server has on record, because an earlier answer was lost, changes nothing
      there. If the change is the one recorded, the answer repeats the recorded status, and an acceptance marks the change
      `synced`; if it was edited or rebased since, or is on record for somebody else, it is rejected and fails. */
  lemma RetryExactly(t: Server.Tables, s0: Store, device: Device, steps: seq<Step>, y: System, id: Id, draw: Id, now: int,
                     sent: System, delivered: System) returns (r: PushResult)
    requires Starts(t, s0, device) && y == Execute(Idling(t, s0), device, steps) && SendsAgain(y, device, id, draw, sent, delivered)
    ensures delivered.server == y.server
    ensures var request, o := Wire(y.work.store.changes[id]), y.server.operations[id];
      if !RecordedAs(y.server, device, request) then
        r == Rejected(id, IdempotencyMismatch) && Settles(delivered, device, request, r, now, Failed)
      else if o.accepted then
        r.DuplicateAccepted? && r.version.id == o.versionId && Settles(delivered, device, request, r, now, Synced)
      else
        r.DuplicateConflict? && r.remote.id == o.versionId && (request, r) in delivered.answers
  {
    ReachableInv(t, s0, device, steps, y);
    StartSent(y, device, id, sent);
    var request := Wire(y.work.store.changes[id]);
    r := RepeatAnswered(y.server, device, request, draw);
    DeliveredIs(sent, device, request, draw, r, delivered);
    AdvanceKeepsInv(y, device, Start(id), sent);
    AdvanceKeepsInv(sent, device, Deliver(request, draw), delivered);
    if r.DuplicateAccepted? { AcceptanceSyncs(delivered, device, request, r, now); }
    if r.Rejected? { RejectionFails(delivered, device, request, r, now); }
  }

  lemma StartSent(y: System, device: Device, id: Id, sent: System)
    requires CanStart(y, device, id) && SameWorkspace(y.work.store) && sent == Advance(y, device, Start(id))
    ensures sent.server == y.server && sent.flight.Some? && Wire(sent.flight.value) == Wire(y.work.store.changes[id])
    ensures sent.work.store.changes == y.work.store.changes[id := sent.flight.value] && sent.flight.value.status == Syncing
    ensures Wire(sent.flight.value) in sent.sent && sent.flight.value.id == id
  {
    BeginMoves(y.work.store, id);
  }

  lemma RepeatAnswered(t: Server.Tables, device: Device, request: PushChange, draw: Id) returns (r: PushResult)
    requires ServerInvariants.Inv(t) && request.operationId in t.operations
    ensures var i := Server.SyncInput(device.workspaceId, device.userId, device.clientId, request, draw);
      Server.Process(t, i).0 == t && Server.Answer(request.operationId, Server.Process(t, i).1) == Some(r)
    ensures r.operationId == request.operationId
    ensures var o := t.operations[request.operationId];
      if !RecordedAs(t, device, request) then r == Rejected(request.operationId, IdempotencyMismatch)
      else if o.accepted then r.DuplicateAccepted? && r.version.id == o.versionId
      else r.DuplicateConflict? && r.remote.id == o.versionId
  {
    var i := Server.SyncInput(device.workspaceId, device.userId, device.clientId, request, draw);
    var o := t.operations[request.operationId];
    assert ServerInvariants.Faithful(o, t.notes, t.versions);
    assert t.versions[o.versionId].id == o.versionId;
    r := Server.Answer(request.operationId, Server.Process(t, i).1).value;
  }

  lemma DeliveredIs(sent: System, device: Device, request: PushChange, draw: Id, r: PushResult, delivered: System)
    requires request in sent.sent && delivered == Advance(sent, device, Deliver(request, draw))
    requires var i := Server.SyncInput(device.workspaceId, device.userId, device.clientId, request, draw);
      Server.Process(sent.server, i).0 == sent.server && Server.Answer(request.operationId, Server.Process(sent.server, i).1) == Some(r)
    ensures delivered == sent.(answers := sent.answers + {(request, r)})
  {
  }

  /** The request is the awaited one, its answer is there, and its change is as it was sent. */
  ghost predicate Answerable(y: System, request: PushChange, r: PushResult) {
    && y.flight.Some? && request == Wire(y.flight.value) && y.flight.value.status == Syncing
    && y.flight.value.id in y.work.store.changes && y.work.store.changes[y.flight.value.id] == y.flight.value
    && (request, r) in y.answers && r.operationId == request.operationId
  }

  lemma AcceptanceSyncs(y: System, device: Device, request: PushChange, r: PushResult, now: int)
    requires Inv(y, device) && Answerable(y, request, r) && r.DuplicateAccepted?
    ensures Settles(y, device, request, r, now, Synced)
  {
    ReceiveApplies(y, device, Receive(r, now), Advance(y, device, Receive(r, now)));
    LocalEffects.AcceptanceLeaves(y.work.store, device.workspaceId, y.flight.value, r, now, request.operationId);
  }

  lemma RejectionFails(y: System, device: Device, request: PushChange, r: PushResult, now: int)
    requires Inv(y, device) && Answerable(y, request, r) && r.Rejected?
    ensures Settles(y, device, request, r, now, Failed)
  {
    ReceiveApplies(y, device, Receive(r, now), Advance(y, device, Receive(r, now)));
    LocalEffects.RefusalLeaves(y.work.store, device.workspaceId, y.flight.value, Some(r), now);
  }

  lemma SyncedHasRevision(y: System, device: Device, id: Id)
    requires SyncedStored(y, device) && StoreInvariants.Inv(y.work.store) && id in y.work.store.changes
    requires y.work.store.changes[id].status == Synced && y.work.store.changes[id].workspaceId == device.workspaceId
    ensures id in y.server.operations && y.server.operations[id].change.revision == y.work.store.changes[id].revision
  {
    StoredHasRevision(y.server, device, y.work.store.changes[id]);
  }

  lemma StoredHasRevision(t: Server.Tables, device: Device, c: PendingChange)
    requires StoredAs(t, device, c)
    ensures c.id in t.operations && t.operations[c.id].change.revision == c.revision
  {
  }

  /** A change that was edited after the server recorded it never becomes `synced`, whatever happens later: its id is spent
      on the earlier content. */
  lemma EditedAttemptNeverSyncs(t: Server.Tables, s0: Store, device: Device, before: seq<Step>, y: System, id: Id, after: seq<Step>, y': System)
    requires Starts(t, s0, device) && y == Execute(Idling(t, s0), device, before) && y' == Execute(y, device, after)
    requires id in y.work.store.changes && y.work.store.changes[id].workspaceId == device.workspaceId
    requires id in y.server.operations && y.server.operations[id].change.revision < y.work.store.changes[id].revision
    ensures id in y'.work.store.changes && y'.work.store.changes[id].status != Synced
  {
    ReachableInv(t, s0, device, before, y);
    ExecuteRises(y, device, after, y');
    ExecuteKeepsInv(y, device, after, y');
    if y'.work.store.changes[id].status == Synced {
      SyncedHasRevision(y', device, id);
    }
  }
}
