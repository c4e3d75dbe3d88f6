/** One device syncing a workspace with the server over a network that may lose, delay and repeat
    requests and lose answers, while the user edits and everybody else uses both note APIs. */
module SyncSystem {
  import opened Wrappers
  import opened Text
  import opened Envelopes
  import opened SyncTypes
  import opened LocalStore
  import opened SealedWork
  import opened Workspaces
  import Migration
  import Server = ServerTables
  import ServerInvariants
  import StoreInvariants

  /** The device: whose it is, its client id, the workspace it syncs and the key it holds. */
  datatype Device = Device(workspaceId: Id, userId: Id, clientId: Id, key: Key)

  /** `flight` is the attempt whose answer the engine awaits, `attempted` all attempts of the current run,
      `sent` every request ever sent (each can still arrive, any number of times), `promised` the document each
      was sent to carry, `answers` what the server ever answered to which request, and `planned` the tables that
      plaintext migrations were planned on. */
  datatype System = System(
    server: Server.Tables, work: Work, flight: Option<PendingChange>, attempted: seq<PendingChange>,
    sent: set<PushChange>, promised: set<(PushChange, Document)>, answers: set<(PushChange, PushResult)>,
    planned: set<Store>)

  datatype Step =
    | User(local: WorkStep)
    | Plan
    | Commit(snapshot: Store, nonces: Migration.Nonces)
    | Environment(remote: Server.Step)
    | Start(changeId: Id)
    | Deliver(request: PushChange, versionId: Id)
    | Receive(result: PushResult, now: int)
    | ReceiveNothing(now: int)
    | ReceivePage(page: PullPage, now: int)
    | Abort
    | Finish
    | Crash

  /** The user's own transactions; the others have steps of the system. */
  predicate UserStep(step: WorkStep) {
    !step.MigratePlaintext?
    && (step.Plain? ==> !step.step.BeginStep? && !step.step.FailStep? && !step.step.ResultsStep? && !step.step.PullStep?)
  }

  predicate IsAttempted(y: System, id: Id) {
    exists k :: 0 <= k < |y.attempted| && y.attempted[k].id == id
  }

  /** The engine attempts a prepared retryable change of its workspace, at most once a run and one at a time. */
  predicate CanStart(y: System, device: Device, id: Id) {
    var s := y.work.store;
    && y.flight.None? && id in s.changes && s.changes[id].id == id
    && Retryable(s.changes[id]) && s.changes[id].workspaceId == device.workspaceId
    && (s.changes[id].kind == DeleteNote || s.changes[id].payload.Some?)
    && !IsAttempted(y, id)
  }

  ghost predicate Enabled(y: System, device: Device, step: Step) {
    match step
    case User(w) => UserStep(w) && (w.Plain? ==> AtHome(y.work.store, w.step))
    case Plan => true
    case Commit(snapshot, _) => snapshot in y.planned
    case Environment(_) => true
    case Start(id) => CanStart(y, device, id)
    case Deliver(request, _) => request in y.sent
    case Receive(r, _) => y.flight.Some? && (Wire(y.flight.value), r) in y.answers
    case ReceiveNothing(_) => y.flight.Some?
    case ReceivePage(page, _) => y.flight.None? && PageAgrees(y.work.store, page)
    case Abort => true
    case Finish => y.flight.None?
    case Crash => true
  }

  function Local(y: System, device: Device, step: LocalStep): Work {
    Perform(y.work, device.key, Plain(step))
  }

  /** No run is active. */
  function Idle(y: System): System {
    y.(flight := None, attempted := [])
  }

  ghost function Advance(y: System, device: Device, step: Step): System {
    if !Enabled(y, device, step) then y
    else
      match step
      case User(w) => y.(work := Perform(y.work, device.key, w))
      case Plan => y.(planned := y.planned + {y.work.store})
      case Commit(snapshot, nonces) => y.(work := Perform(y.work, device.key, MigratePlaintext(snapshot, device.workspaceId, nonces)))
      case Environment(e) => y.(server := Server.Next(y.server, e))
      case Start(id) =>
        var p := Begin(y.work.store, y.work.store.changes[id]).1[0];
        y.(work := Local(y, device, BeginStep([y.work.store.changes[id]])), flight := Some(p),
           attempted := y.attempted + [p], sent := y.sent + {Wire(p)},
           promised := if id in y.work.intents then y.promised + {(Wire(p), y.work.intents[id])} else y.promised)
      case Deliver(request, v) =>
        var (t, p) := Server.Process(y.server, Server.SyncInput(device.workspaceId, device.userId, device.clientId, request, v));
        var r := Server.Answer(request.operationId, p);
        y.(server := t, answers := if r.Some? then y.answers + {(request, r.value)} else y.answers)
      case Receive(r, now) =>
        y.(work := Local(y, device, ResultsStep(device.workspaceId, [y.flight.value], [r], now)), flight := None)
      case ReceiveNothing(now) =>
        y.(work := Local(y, device, ResultsStep(device.workspaceId, [y.flight.value], [], now)), flight := None)
      case ReceivePage(page, now) => y.(work := Local(y, device, LocalStep.PullStep(page, now)))
      case Abort => Idle(y.(work := Local(y, device, FailStep(y.attempted))))
      case Finish => Idle(y)
      case Crash => Idle(y)
  }

  ghost function Execute(y: System, device: Device, steps: seq<Step>): System
    decreases |steps|
  {
    if steps == [] then y else Execute(Advance(y, device, steps[0]), device, steps[1..])
  }

  /** A device with these tables, in front of any server state. */
  function Idling(t: Server.Tables, s: Store): System {
    System(t, Work(s, map[]), None, [], {}, {}, {}, {})
  }

  /** A new device. */
  function Fresh(t: Server.Tables): System {
    Idling(t, LocalStore.EMPTY)
  }

  // ---- Invariants ----

  /** The same change, with the same payload if it had one to send. */
  predicate SameContent(c: PendingChange, c': PendingChange) {
    && c'.id == c.id && c'.kind == c.kind && c'.createdAt == c.createdAt && c'.revision == c.revision
    && c'.noteId == c.noteId && c'.workspaceId == c.workspaceId
    && (c.kind != DeleteNote && c.payload.Some? ==> c'.payload == c.payload)
  }

  /** A step that is no answer starts no attempt and finishes none: it leaves a change in `syncing` alone or
      takes it out, and marks none `synced`. */
  ghost predicate Quiet(s: Store, s': Store) {
    && (forall id :: id in s'.changes && s'.changes[id].status == Syncing ==>
          id in s.changes && s.changes[id].status == Syncing && SameContent(s.changes[id], s'.changes[id]))
    && (forall id :: id in s'.changes && s'.changes[id].status == Synced ==>
          id in s.changes && s.changes[id].status == Synced && SameContent(s.changes[id], s'.changes[id]))
  }

  /** The server holds exactly this request, accepted, under its own id. */
  ghost predicate AcceptedAs(t: Server.Tables, device: Device, request: PushChange, versionId: Id) {
    && request.operationId in t.operations
    && t.operations[request.operationId] ==
       Server.Operation(device.workspaceId, device.userId, device.clientId, request, true, versionId)
  }

  predicate AnswersAccepted(r: PushResult) {
    r.Accepted? || r.DuplicateAccepted?
  }

  ghost predicate AnswersTrue(y: System, device: Device) {
    forall request, r :: (request, r) in y.answers && AnswersAccepted(r) ==>
      AcceptedAs(y.server, device, request, r.version.id)
  }

  ghost predicate FlightKnown(y: System, device: Device) {
    y.flight.Some? ==>
      var p := y.flight.value;
      && p.workspaceId == device.workspaceId && (p.kind != DeleteNote ==> p.payload.Some?) && p in y.attempted
      && p.id in y.work.store.changes && y.work.store.changes[p.id].workspaceId == device.workspaceId
      && (y.work.store.changes[p.id].status == Syncing ==> SameContent(p, y.work.store.changes[p.id]))
  }

  /** Only the awaited attempt of this run is in `syncing`. */
  ghost predicate AttemptsDone(y: System) {
    forall k :: 0 <= k < |y.attempted| && !(y.flight.Some? && y.flight.value.id == y.attempted[k].id) ==>
      y.attempted[k].id in y.work.store.changes && y.work.store.changes[y.attempted[k].id].status != Syncing
  }

  /** The server stored this synced change: one accepted operation under its id, with its content. */
  ghost predicate StoredAs(t: Server.Tables, device: Device, c: PendingChange) {
    exists request, v :: AcceptedAs(t, device, request, v)
      && request.operationId == c.id && request.kind == c.kind && request.noteId == c.noteId
      && request.revision == c.revision && (c.kind != DeleteNote ==> request.payload == c.payload)
  }

  ghost predicate SyncedStored(y: System, device: Device) {
    forall id :: id in y.work.store.changes && y.work.store.changes[id].status == Synced
                 && y.work.store.changes[id].workspaceId == device.workspaceId ==>
      StoredAs(y.server, device, y.work.store.changes[id])
  }

  /** A request that was sent to carry a document holds it under its own note and revision. */
  ghost predicate PromisesSealed(promised: set<(PushChange, Document)>, device: Device) {
    forall request, d :: (request, d) in promised ==>
      Holds(request.payload, device.key, Context(device.workspaceId, request.noteId, request.revision), d)
  }

  /** The local tables are well formed and every row is where its note is. */
  ghost predicate StoreOk(s: Store) {
    StoreInvariants.Inv(s) && SameWorkspace(s) && StoreInvariants.RecordsAtHome(s)
  }

  /** The tables have come from every snapshot a migration was planned on. */
  ghost predicate PlansTrack(planned: set<Store>, s: Store) {
    forall p :: p in planned ==> StoreOk(p) && Migration.Tracks(p, s)
  }

  ghost predicate Inv(y: System, device: Device) {
    && StoreOk(y.work.store) && ServerInvariants.Inv(y.server) && Bound(y.work, device.key)
    && AnswersTrue(y, device) && FlightKnown(y, device) && AttemptsDone(y) && SyncedStored(y, device)
    && PromisesSealed(y.promised, device) && PlansTrack(y.planned, y.work.store)
  }

  /** What a device may start from: well-formed tables, as an earlier version of the application may have left them,
      plaintext and all, with nothing marked `synced` that the server does not store. */
  ghost predicate Starts(t: Server.Tables, s: Store, device: Device) {
    StoreOk(s) && ServerInvariants.Inv(t) && SyncedStored(Idling(t, s), device)
  }
}
