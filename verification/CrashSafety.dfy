/** What a crash during a run leaves behind. */
module CrashSafety {
  import opened Wrappers
  import opened Envelopes
  import opened SyncTypes
  import opened LocalStore
  import opened SealedWork
  import opened SyncSystem
  import opened SyncSafety
  import opened Workspaces
  import Migration
  import StoreInvariants
  import Server = ServerTables

  /** The attempt whose answer the engine awaits, still in `syncing`. */
  predicate Awaited(y: System, id: Id) {
    y.flight.Some? && y.flight.value.id == id && id in y.work.store.changes && y.work.store.changes[id].status == Syncing
  }

  lemma CrashLeaves(y: System, device: Device, k: nat)
    requires AttemptsDone(y) && FlightKnown(y, device) && k < |y.attempted|
    ensures var crashed := Advance(y, device, Crash).work.store;
      y.attempted[k].id in crashed.changes
      && (crashed.changes[y.attempted[k].id].status == Syncing <==> Awaited(y, y.attempted[k].id))
  {
  }

  /** A crash at any point of any run leaves an attempt of the run in `syncing` exactly if it is the one whose answer
      the engine awaits and nothing took it out of `syncing` since. */
  lemma CrashStrandsExactly(t: Server.Tables, s: Store, device: Device, steps: seq<Step>, y: System, k: nat)
    requires Starts(t, s, device) && y == Execute(Idling(t, s), device, steps) && k < |y.attempted|
    ensures var crashed := Advance(y, device, Crash).work.store;
      y.attempted[k].id in crashed.changes
      && (crashed.changes[y.attempted[k].id].status == Syncing <==> Awaited(y, y.attempted[k].id))
  {
    ReachableInv(t, s, device, steps, y);
    CrashLeaves(y, device, k);
  }

  /** A change in `syncing`, or past it, that no run holds. */
  ghost predicate Stranded(y: System, id: Id) {
    && id in y.work.store.changes && y.work.store.changes[id].status in {Syncing, Conflicted, Resolved}
    && (y.flight.Some? ==> y.flight.value.id != id) && !IsAttempted(y, id)
  }

  /** The ways out of `syncing` without an answer. */
  predicate Descends(a: Status, b: Status) {
    a == b || (a == Syncing && (b == Conflicted || b == Resolved)) || (a == Conflicted && b == Resolved)
  }

  ghost predicate Falls(s: Store, s': Store, id: Id) {
    id in s.changes && id in s'.changes && Descends(s.changes[id].status, s'.changes[id].status)
  }

  predicate Past(s: Store, id: Id) {
    id in s.changes && s.changes[id].status in {Syncing, Conflicted, Resolved}
  }

  // ---- The transactions ----

  lemma WritesFall(s: Store, step: LocalStep, s': Store, id: Id)
    requires Past(s, id) && s' == LocalStore.Next(s, step)
    requires step.CreateStep? || step.EditStep? || step.DeleteStep? || step.StorePayloadStep?
    ensures Falls(s, s', id)
  {
  }

  lemma ResolveFalls(s: Store, k: ConflictKey, a: Action, e: Option<Envelope>, expected: Option<nat>, next: nat, added: Id, now: int, s': Store, id: Id)
    requires Past(s, id) && s' == Resolve(s, k, a, e, expected, next, added, now)
    ensures Falls(s, s', id)
  {
  }

  lemma UserStepFalls(s: Store, step: LocalStep, s': Store, id: Id)
    requires Past(s, id) && UserLocal(step) && s' == LocalStore.Next(s, step)
    ensures Falls(s, s', id)
  {
    match step
    case ResolveStep(k, a, e, expected, next, added, now) => ResolveFalls(s, k, a, e, expected, next, added, now, s', id);
    case CacheStep(_) =>
    case CacheDetailStep(_, _) =>
    case _ => WritesFall(s, step, s', id);
  }

  lemma RecordFalls(s: Store, ids: set<Id>, w: Id, remote: Version, now: int, id: Id)
    requires Past(s, id) && ids <= s.changes.Keys
    ensures Falls(s, RecordConflicts(s, ids, w, remote, now), id)
  {
  }

  lemma {:induction false} PulledFalls(s: Store, w: Id, ps: seq<PullChange>, now: int, s': Store, id: Id)
    requires Past(s, id) && s' == ApplyPulledAll(s, w, ps, now)
    ensures Falls(s, s', id)
    decreases |ps|
  {
    if ps != [] {
      if Waiting(s, ps[0].note.id) != {} { RecordFalls(s, Diverging(s, ps[0]), w, ps[0].version, now, id); }
      PulledFalls(ApplyPulled(s, w, ps[0], now), w, ps[1..], now, s', id);
    }
  }

  lemma MigrateFalls(snapshot: Store, s: Store, w: Id, key: Key, nonces: Migration.Nonces, s': Store, id: Id)
    requires Past(s, id) && s' == Migration.Migrate(snapshot, s, w, key, nonces).0
    ensures Falls(s, s', id)
  {
  }

  lemma AcceptedFalls(s: Store, w: Id, p: PendingChange, v: Version, id: Id)
    requires Past(s, id) && p.id in s.changes && p.id != id
    ensures Falls(s, ApplyAccepted(s, w, p, v), id)
  {
  }

  /** The answer to another attempt. */
  lemma OtherAnswerFalls(s: Store, w: Id, p: PendingChange, r: Option<PushResult>, now: int, s': Store, id: Id)
    requires Past(s, id) && p.id != id && s' == ApplyResult(s, w, p, r, now)
    ensures Falls(s, s', id)
  {
    if p.id in s.changes && r.Some? {
      if AnswersAccepted(r.value) {
        AcceptedFalls(s, w, p, r.value.version, id);
      } else if !r.value.Rejected? {
        RecordFalls(s, {p.id} + Spread(s, s.changes[p.id]), w, r.value.remote, now, id);
      }
    }
  }

  lemma OtherFailureFalls(s: Store, attempted: seq<PendingChange>, s': Store, id: Id)
    requires Past(s, id) && s' == FailAll(s, attempted) && forall k :: 0 <= k < |attempted| ==> attempted[k].id != id
    ensures Falls(s, s', id)
  {
  }

  lemma OtherStartFalls(s: Store, other: Id, s': Store, id: Id)
    requires Past(s, id) && other in s.changes && other != id && s.changes[other].id == other
    requires s' == BeginAll(s, [s.changes[other]]).0
    ensures Falls(s, s', id)
  {
    var s1 := Begin(s, s.changes[other]).0;
    assert BeginAll(s1, [s.changes[other]][1..]) == (s1, []);
  }

  // ---- The steps ----

  lemma UserFalls(w: Work, key: Key, step: WorkStep, s': Store, id: Id)
    requires Past(w.store, id) && UserStep(step) && s' == Perform(w, key, step).store
    ensures Falls(w.store, s', id)
  {
    PerformIsLocal(w, key, step);
    var local := AsLocal(w, key, step);
    if local.Some? { UserStepFalls(w.store, local.value, s', id); }
  }

  lemma PageFalls(s: Store, page: PullPage, now: int, s': Store, id: Id)
    requires Past(s, id) && s' == ApplyPage(s, page, now)
    ensures Falls(s, s', id)
  {
    PulledFalls(s, page.workspaceId, page.changes, now, ApplyPulledAll(s, page.workspaceId, page.changes, now), id);
  }

  lemma AnswerFalls(y: System, device: Device, step: Step, y': System, id: Id)
    requires Bound(y.work, device.key) && SameWorkspace(y.work.store) && Stranded(y, id) && Enabled(y, device, step) && y' == Advance(y, device, step)
    requires step.Receive? || step.ReceiveNothing?
    ensures Falls(y.work.store, y'.work.store, id)
  {
    ReceiveApplies(y, device, step, y');
    OtherAnswerFalls(y.work.store, device.workspaceId, y.flight.value, Received(y, step), ReceivedAt(step), y'.work.store, id);
  }

  lemma StartFalls(y: System, device: Device, other: Id, y': System, id: Id)
    requires Stranded(y, id) && CanStart(y, device, other) && SameWorkspace(y.work.store) && y' == Advance(y, device, Start(other))
    ensures Falls(y.work.store, y'.work.store, id) && Stranded(y', id)
  {
    OtherStartFalls(y.work.store, other, y'.work.store, id);
    BeginMoves(y.work.store, other);
    forall k | 0 <= k < |y'.attempted| ensures y'.attempted[k].id != id {
      if k < |y.attempted| { assert y'.attempted[k] == y.attempted[k]; }
    }
  }

  lemma FallenIsStranded(y: System, y': System, id: Id)
    requires Stranded(y, id) && Falls(y.work.store, y'.work.store, id) && RunGoesOn(y, y')
    ensures Stranded(y', id)
  {
  }

  lemma AnswerKeepsStranded(y: System, device: Device, step: Step, y': System, id: Id)
    requires Bound(y.work, device.key) && SameWorkspace(y.work.store) && Stranded(y, id)
    requires Enabled(y, device, step) && y' == Advance(y, device, step) && (step.Receive? || step.ReceiveNothing?)
    ensures Falls(y.work.store, y'.work.store, id) && Stranded(y', id)
  {
    AnswerFalls(y, device, step, y', id);
  }

  lemma UserKeepsStranded(y: System, device: Device, w: WorkStep, y': System, id: Id)
    requires Stranded(y, id) && UserStep(w) && y' == y.(work := Perform(y.work, device.key, w))
    ensures Falls(y.work.store, y'.work.store, id) && Stranded(y', id)
  {
    UserFalls(y.work, device.key, w, y'.work.store, id);
    FallenIsStranded(y, y', id);
  }

  lemma CommitKeepsStranded(y: System, device: Device, snapshot: Store, nonces: Migration.Nonces, y': System, id: Id)
    requires Stranded(y, id) && y' == y.(work := Perform(y.work, device.key, MigratePlaintext(snapshot, device.workspaceId, nonces)))
    ensures Falls(y.work.store, y'.work.store, id) && Stranded(y', id)
  {
    MigrateFalls(snapshot, y.work.store, device.workspaceId, device.key, nonces, y'.work.store, id);
    FallenIsStranded(y, y', id);
  }

  lemma PageKeepsStranded(y: System, device: Device, page: PullPage, now: int, y': System, id: Id)
    requires Stranded(y, id) && y' == y.(work := Local(y, device, LocalStep.PullStep(page, now)))
    ensures Falls(y.work.store, y'.work.store, id) && Stranded(y', id)
  {
    PageFalls(y.work.store, page, now, y'.work.store, id);
    FallenIsStranded(y, y', id);
  }

  lemma AbortKeepsStranded(y: System, device: Device, y': System, id: Id)
    requires Stranded(y, id) && y' == Idle(y.(work := Local(y, device, FailStep(y.attempted))))
    ensures Falls(y.work.store, y'.work.store, id) && Stranded(y', id)
  {
    OtherFailureFalls(y.work.store, y.attempted, y'.work.store, id);
    FallenIsStranded(y, y', id);
  }

  /** Whatever step comes, a stranded change stays where it is or falls to `conflict` or `resolved`, and no run takes
      it up. */
  lemma StrandedStays(y: System, device: Device, step: Step, y': System, id: Id)
    requires Bound(y.work, device.key) && SameWorkspace(y.work.store) && Stranded(y, id) && y' == Advance(y, device, step)
    ensures Falls(y.work.store, y'.work.store, id) && Stranded(y', id)
  {
    if Enabled(y, device, step) {
      match step
      case User(w) => UserKeepsStranded(y, device, w, y', id);
      case Commit(snapshot, nonces) => CommitKeepsStranded(y, device, snapshot, nonces, y', id);
      case ReceivePage(page, now) => PageKeepsStranded(y, device, page, now, y', id);
      case Abort => AbortKeepsStranded(y, device, y', id);
      case Start(other) => StartFalls(y, device, other, y', id);
      case Receive(_, _) => AnswerKeepsStranded(y, device, step, y', id);
      case ReceiveNothing(_) => AnswerKeepsStranded(y, device, step, y', id);
      case _ => FallenIsStranded(y, y', id);
    }
  }

  lemma {:induction false} StrandedForever(y: System, device: Device, steps: seq<Step>, y': System, id: Id)
    requires Inv(y, device) && Stranded(y, id) && y' == Execute(y, device, steps)
    ensures Falls(y.work.store, y'.work.store, id) && Stranded(y', id)
    decreases |steps|
  {
    if steps != [] {
      var y1 := Advance(y, device, steps[0]);
      StrandedStays(y, device, steps[0], y1, id);
      AdvanceKeepsInv(y, device, steps[0], y1);
      StrandedForever(y1, device, steps[1..], y', id);
    }
  }

  lemma CrashStrands(y: System, device: Device, id: Id, crashed: System)
    requires Inv(y, device) && Awaited(y, id) && crashed == Advance(y, device, Crash)
    ensures Inv(crashed, device) && Stranded(crashed, id)
  {
    ResetKeepsInv(y, device, crashed);
  }

  lemma NeverRetriedFrom(y: System, device: Device, after: seq<Step>, y': System, id: Id)
    requires Inv(y, device) && Awaited(y, id) && y' == Execute(Advance(y, device, Crash), device, after)
    ensures Stranded(y', id)
  {
    var crashed := Advance(y, device, Crash);
    CrashStrands(y, device, id, crashed);
    StrandedForever(crashed, device, after, y', id);
  }

  /** An attempt that a crash strands is never retried: after any further steps, runs and crashes of any kind, it is in
      `syncing`, or in `conflict` or `resolved`; no run can start it, and it never becomes `synced`. */
  lemma StrandedIsNeverRetried(t: Server.Tables, s: Store, device: Device, before: seq<Step>, after: seq<Step>, y: System, y': System, id: Id)
    requires Starts(t, s, device) && y == Execute(Idling(t, s), device, before) && Awaited(y, id)
    requires y' == Execute(Advance(y, device, Crash), device, after)
    ensures id in y'.work.store.changes && y'.work.store.changes[id].status in {Syncing, Conflicted, Resolved}
    ensures !CanStart(y', device, id)
  {
    ReachableInv(t, s, device, before, y);
    NeverRetriedFrom(y, device, after, y', id);
  }
}
