/** Why a lone owner needs a reliable transport: a run without a step of anybody else in which an answer is lost, the change
    it was to is edited, and the next run stops it in a conflict with the device's own version. */
module SelfConflictRun {
  import opened Wrappers
  import opened Envelopes
  import opened SyncTypes
  import opened LocalStore
  import opened SealedWork
  import opened SyncSystem
  import opened SyncRefinement
  import opened KeepLocalRun
  import opened Workspaces
  import LocalEffects
  import Paging
  import RetrySafety
  import Server = ServerTables
  import ServerInvariants
  import ServerTheorems
  import SyncSafety

  /** The edited note's update is on its way. */
  ghost predicate Underway(y: System) {
    && Sent(y, 2) && y.flight.value.revision == 2 && Remote(y.server, 1, {1}) && Stuck(y.work.store, 2, Syncing)
    && y.flight.value.kind == UpdateNote && y.flight.value.base == Some(1) && y.flight.value.payload.Some?
    && y.flight.value.noteId == 1 && y.flight.value.workspaceId == 1
  }

  /** The note and its queued update, at a revision and in a status, on the first version. */
  predicate Stuck(s: Store, revision: nat, status: Status) {
    && 1 in s.notes && s.notes[1].id == 1 && s.notes[1].workspaceId == 1 && s.notes[1].base == Some(1) && !s.notes[1].deleted
    && s.notes[1].revision == revision
    && 2 in s.changes && s.changes[2].id == 2 && s.changes[2].noteId == 1 && s.changes[2].workspaceId == 1
    && s.changes[2].kind == UpdateNote && s.changes[2].base == Some(1) && s.changes[2].revision == revision && s.changes[2].payload.Some?
    && s.changes[2].status == status
  }

  lemma Send(y: System, y': System)
    requires Edited(y, 1) && y' == Advance(y, DEVICE, Start(2))
    ensures Underway(y')
  {
    StartSends(y, 2, y');
  }

  /** The server holds the update as its second version. */
  predicate Stored(t: Server.Tables) {
    && t.members == SERVER.members && Remote(t, 2, {1, 2}) && t.operations[2].change.revision == 2
  }

  lemma UpdateAccepted(t: Server.Tables, i: Server.SyncInput)
    requires Remote(t, 1, {1}) && i == Server.SyncInput(1, 1, 1, i.change, 2) && i.change.kind == UpdateNote && i.change.payload.Some?
    requires i.change.operationId == 2 && i.change.noteId == 1 && i.change.base == Some(1) && i.change.revision == 2
    ensures Stored(Server.Process(t, i).0)
  {
  }

  lemma Deliver(y: System, y': System)
    requires Underway(y) && y' == Advance(y, DEVICE, Step.Deliver(Wire(y.flight.value), 2))
    ensures Stored(y'.server) && y'.work == y.work && y'.flight == y.flight && y'.attempted == y.attempted
  {
    UpdateAccepted(y.server, Server.SyncInput(1, 1, 1, Wire(y.flight.value), 2));
  }

  /** The answer is lost: the run fails, and the change with it. */
  lemma Lose(y: System, p: PendingChange, y': System)
    requires Stuck(y.work.store, 2, Syncing) && y.flight == Some(p) && p.id == 2 && p.revision == 2 && IsAttempted(y, 2)
    requires y.work.store.changes[2] == p && p in y.attempted && y' == Advance(y, DEVICE, Abort)
    ensures Stuck(y'.work.store, 2, Failed) && y'.server == y.server && y'.flight == None && y'.attempted == []
  {
    LocalEffects.FailLeaves(y.work.store, y.attempted, 2);
  }

  lemma EditAgainStores(s: Store, e: Envelope, s': Store)
    requires Stuck(s, 2, Failed) && s' == LocalStore.Edit(s, 1, FIRST, e, Some(2), Some(2), 9, 5)
    ensures Stuck(s', 3, Pending)
  {
    ShortIsValid(FIRST);
    LocalEffects.EditLeaves(s, 1, FIRST, e, Some(2), Some(2), 9, 5);
  }

  lemma EditAgain(y: System, y': System)
    requires Stuck(y.work.store, 2, Failed) && y' == Advance(y, DEVICE, User(EditEncrypted(1, FIRST, 4, 2, Some(2), 9, 5)))
    ensures Stuck(y'.work.store, 3, Pending) && y'.server == y.server && y'.flight == y.flight && y'.attempted == y.attempted
  {
    ShortIsValid(FIRST);
    ShortSeals(FIRST, Context(1, 1, 3), 4);
    EditAgainStores(y.work.store, Seal(FIRST, 1, Context(1, 1, 3), 4).value, y'.work.store);
  }

  /** A rising sequence is no longer than its range. */
  lemma {:induction false} RisingIsShort(numbers: seq<nat>, low: nat, high: nat)
    requires low <= high && forall k :: 0 <= k < |numbers| ==> low < numbers[k] <= high
    requires forall j, k :: 0 <= j < k < |numbers| ==> numbers[j] < numbers[k]
    ensures |numbers| <= high - low
    decreases |numbers|
  {
    if numbers != [] {
      var last := numbers[|numbers| - 1];
      RisingIsShort(numbers[..|numbers| - 1], low, last - 1);
    }
  }

  lemma OnlySecondIsLeft(t: Server.Tables, numbers: seq<nat>)
    requires Paging.ListsEntries(t, 1, 1, numbers) && |t.log| == 2 && t.log[1].workspaceId == 1
    ensures numbers == [2]
  {
    assert 2 in numbers;
    forall k | 0 <= k < |numbers| ensures 1 < numbers[k] <= 2 { assert numbers[k] in numbers; }
    RisingIsShort(numbers, 1, 2);
  }

  lemma SecondIsServed(t: Server.Tables, numbers: seq<nat>, page: PullPage)
    requires Stored(t) && numbers == [2] && Paging.ListsEntries(t, 1, 1, numbers) && Paging.Serves(t, 1, 1, numbers, 500, page)
    ensures page.workspaceId == 1 && |page.changes| == 1 && page.changes[0].version.id == 2 && page.changes[0].note == t.notes[1]
  {
    assert numbers[0] in numbers;
  }

  /** What the next pull shows: the device's own second version. */
  lemma PullShowsOwnVersion(t: Server.Tables) returns (page: PullPage)
    requires ServerInvariants.Inv(t) && Stored(t)
    ensures Paging.Pull(t, 1, 1, Some(Cursor(1, 1)), 500) == Ok(page)
    ensures page.workspaceId == 1 && |page.changes| == 1 && page.changes[0].version.id == 2 && page.changes[0].note == t.notes[1]
  {
    var numbers := Paging.PullAnswersExactly(t, 1, 1, Some(Cursor(1, 1)), 500);
    OnlySecondIsLeft(t, numbers);
    page := OwnPage(t);
    SecondIsServed(t, numbers, page);
  }

  lemma OwnPage(t: Server.Tables) returns (page: PullPage)
    requires (1, 1) in t.members
    ensures Paging.Pull(t, 1, 1, Some(Cursor(1, 1)), 500) == Ok(page)
  {
    page := Paging.PageAt(t, 1, 1, 500);
  }

  lemma PullStops(s: Store, page: PullPage, s': Store)
    requires Stuck(s, 3, Failed) && |page.changes| == 1 && page.changes[0].version.id == 2 && page.changes[0].note.id == 1
    requires s' == ApplyPage(s, page, 8)
    ensures 2 in s'.changes && s'.changes[2].status == Conflicted
  {
    assert page.changes == [page.changes[0]];
    assert ApplyPulledAll(s, page.workspaceId, page.changes, 8) == ApplyPulled(s, page.workspaceId, page.changes[0], 8);
    LocalEffects.PulledOverWork(s, page.workspaceId, page.changes[0], 8, 2, 2);
  }

  /** The edited update is on its way. */
  ghost predicate Resent(y: System, p: PendingChange) {
    && y.flight == Some(p) && p.id == 2 && p.revision == 3 && Wire(p) in y.sent
    && Stuck(y.work.store, 3, Syncing) && y.work.store.changes[2] == p && Stored(y.server)
  }

  lemma Resend(y: System, y': System)
    requires Stuck(y.work.store, 3, Pending) && Stored(y.server) && y.flight == None && y.attempted == []
    requires y' == Advance(y, DEVICE, Start(2))
    ensures y'.flight.Some? && Resent(y', y'.flight.value) && y'.server == y.server
  {
    StartSends(y, 2, y');
  }

  /** It is rejected, because its id is on record with the first content. */
  lemma Reject(y: System, p: PendingChange, y': System) returns (r: PushResult)
    requires Resent(y, p) && ServerInvariants.Inv(y.server) && y' == Advance(y, DEVICE, Step.Deliver(Wire(p), 3))
    ensures Resent(y', p) && y'.server == y.server && (Wire(p), r) in y'.answers && r.Rejected? && r.operationId == 2
  {
    r := RetrySafety.RepeatAnswered(y.server, DEVICE, Wire(p), 3);
    RetrySafety.DeliveredIs(y, DEVICE, Wire(p), 3, r, y');
  }

  lemma Fail(y: System, p: PendingChange, r: PushResult, y': System)
    requires Resent(y, p) && (Wire(p), r) in y.answers && r.Rejected? && r.operationId == 2 && y' == Advance(y, DEVICE, Receive(r, 6))
    ensures Stuck(y'.work.store, 3, Failed) && y'.server == y.server && y'.flight == None
  {
    ReceiveApplies(y, r, 6, y');
    LocalEffects.RefusalLeaves(y.work.store, 1, p, Some(r), 6);
  }

  lemma Pull(y: System, page: PullPage, y': System)
    requires Stuck(y.work.store, 3, Failed) && y.flight == None && y.server.notes.Keys == {1} && y.server.notes[1] == Note(1, 1, 1, 2, false)
    requires page.workspaceId == 1 && |page.changes| == 1 && page.changes[0].version.id == 2 && page.changes[0].note == y.server.notes[1]
    requires y' == Advance(y, DEVICE, ReceivePage(page, 8))
    ensures 2 in y'.work.store.changes && y'.work.store.changes[2].status == Conflicted && y'.server == y.server
  {
    PullStops(y.work.store, page, ApplyPage(y.work.store, page, 8));
  }

  // ---- The steps, one after another ----

  /** The update has arrived, its answer has not. */
  ghost predicate Unanswered(y: System, p: PendingChange) {
    && y.flight == Some(p) && p.id == 2 && p.revision == 2 && p in y.attempted && IsAttempted(y, 2)
    && Stuck(y.work.store, 2, Syncing) && y.work.store.changes[2] == p && Stored(y.server)
  }

  lemma DoSend(y: System) returns (steps: seq<Step>, y': System)
    requires Edited(y, 1)
    ensures y' == Execute(y, DEVICE, steps) && Alone(steps) && Underway(y') && y'.flight.value in y'.attempted
  {
    steps := [Start(2)];
    ExecuteOne(y, DEVICE, Start(2));
    y' := Advance(y, DEVICE, Start(2));
    Send(y, y');
    AttemptIsFlight(y, y');
  }

  lemma DoDeliver(y: System) returns (steps: seq<Step>, y': System)
    requires Underway(y) && y.flight.value in y.attempted
    ensures y' == Execute(y, DEVICE, steps) && Alone(steps) && Unanswered(y', y.flight.value)
  {
    var step := Step.Deliver(Wire(y.flight.value), 2);
    steps := [step];
    ExecuteOne(y, DEVICE, step);
    y' := Advance(y, DEVICE, step);
    Deliver(y, y');
  }

  lemma DoLose(y: System, p: PendingChange) returns (steps: seq<Step>, y': System)
    requires Unanswered(y, p)
    ensures y' == Execute(y, DEVICE, steps) && Alone(steps)
    ensures Stuck(y'.work.store, 2, Failed) && Stored(y'.server) && y'.flight == None && y'.attempted == []
  {
    steps := [Abort];
    ExecuteOne(y, DEVICE, Abort);
    y' := Advance(y, DEVICE, Abort);
    Lose(y, p, y');
  }

  lemma DoEditAgain(y: System) returns (steps: seq<Step>, y': System)
    requires Stuck(y.work.store, 2, Failed) && Stored(y.server) && y.flight == None && y.attempted == []
    ensures y' == Execute(y, DEVICE, steps) && Alone(steps)
    ensures Stuck(y'.work.store, 3, Pending) && Stored(y'.server) && y'.flight == None && y'.attempted == []
  {
    var step := User(EditEncrypted(1, FIRST, 4, 2, Some(2), 9, 5));
    steps := [step];
    ExecuteOne(y, DEVICE, step);
    y' := Advance(y, DEVICE, step);
    EditAgain(y, y');
  }

  lemma LostAndEdited(y5: System) returns (steps: seq<Step>, y9: System)
    requires Edited(y5, 1)
    ensures y9 == Execute(y5, DEVICE, steps) && Alone(steps)
    ensures Stuck(y9.work.store, 3, Pending) && Stored(y9.server) && y9.flight == None && y9.attempted == []
  {
    var a, y6 := DoSend(y5);
    var b, y7 := DoDeliver(y6);
    var c, y8 := DoLose(y7, y6.flight.value);
    var d;
    d, y9 := DoEditAgain(y8);
    steps := Then(y5, a, y6, b, y7);
    steps := Then(y5, steps, y7, c, y8);
    steps := Then(y5, steps, y8, d, y9);
  }

  lemma AttemptIsFlight(y: System, y': System)
    requires CanStart(y, DEVICE, 2) && y' == Advance(y, DEVICE, Start(2)) && y'.flight.Some?
    ensures y'.flight.value in y'.attempted
  {
    assert y'.attempted[|y.attempted|] == y'.flight.value;
  }

  lemma DoResend(y: System) returns (steps: seq<Step>, y': System)
    requires Stuck(y.work.store, 3, Pending) && Stored(y.server) && y.flight == None && y.attempted == []
    ensures y' == Execute(y, DEVICE, steps) && Alone(steps)
    ensures y'.flight.Some? && Resent(y', y'.flight.value) && y'.server == y.server
  {
    steps := [Start(2)];
    ExecuteOne(y, DEVICE, Start(2));
    y' := Advance(y, DEVICE, Start(2));
    Resend(y, y');
  }

  lemma DoReject(y: System, p: PendingChange) returns (steps: seq<Step>, r: PushResult, y': System)
    requires Resent(y, p) && ServerInvariants.Inv(y.server)
    ensures y' == Execute(y, DEVICE, steps) && Alone(steps)
    ensures Resent(y', p) && y'.server == y.server && (Wire(p), r) in y'.answers && r.Rejected? && r.operationId == 2
  {
    var step := Step.Deliver(Wire(p), 3);
    steps := [step];
    ExecuteOne(y, DEVICE, step);
    y' := Advance(y, DEVICE, step);
    r := Reject(y, p, y');
  }

  lemma DoFail(y: System, p: PendingChange, r: PushResult) returns (steps: seq<Step>, y': System)
    requires Resent(y, p) && (Wire(p), r) in y.answers && r.Rejected? && r.operationId == 2
    ensures y' == Execute(y, DEVICE, steps) && Alone(steps)
    ensures Stuck(y'.work.store, 3, Failed) && y'.server == y.server && y'.flight == None
  {
    steps := [Receive(r, 6)];
    ExecuteOne(y, DEVICE, Receive(r, 6));
    y' := Advance(y, DEVICE, Receive(r, 6));
    Fail(y, p, r, y');
  }

  lemma DoRetry(y: System) returns (steps: seq<Step>, y': System)
    requires Stuck(y.work.store, 3, Pending) && Stored(y.server) && ServerInvariants.Inv(y.server) && y.flight == None && y.attempted == []
    ensures y' == Execute(y, DEVICE, steps) && Alone(steps)
    ensures Stuck(y'.work.store, 3, Failed) && y'.server == y.server && y'.flight == None
  {
    var a, y10 := DoResend(y);
    var b, r, y11 := DoReject(y10, y10.flight.value);
    var c;
    c, y' := DoFail(y11, y10.flight.value, r);
    steps := Then(y, a, y10, b, y11);
    steps := Then(y, steps, y11, c, y');
  }

  lemma DoPull(y: System, page: PullPage) returns (steps: seq<Step>, y': System)
    requires Stuck(y.work.store, 3, Failed) && y.flight == None && y.server.notes.Keys == {1} && y.server.notes[1] == Note(1, 1, 1, 2, false)
    requires page.workspaceId == 1 && |page.changes| == 1 && page.changes[0].version.id == 2 && page.changes[0].note == y.server.notes[1]
    ensures y' == Execute(y, DEVICE, steps) && Alone(steps)
    ensures 2 in y'.work.store.changes && y'.work.store.changes[2].status == Conflicted
  {
    steps := [ReceivePage(page, 8)];
    ExecuteOne(y, DEVICE, ReceivePage(page, 8));
    y' := Advance(y, DEVICE, ReceivePage(page, 8));
    Pull(y, page, y');
  }

  /** From an empty device and server, nobody else doing anything: create and sync, edit, lose the answer to the update, edit
      again, sync. The retry is rejected and the pull stops the user's text in a conflict. */
  lemma ReachesSelfConflict() returns (steps: seq<Step>, y: System)
    ensures y == Execute(Fresh(SERVER), DEVICE, steps) && Alone(steps)
    ensures 2 in y.work.store.changes && y.work.store.changes[2].status == Conflicted
  {
    var first, y5 := FirstHalf();
    var second, y9 := LostAndEdited(y5);
    steps := Then(Fresh(SERVER), first, y5, second, y9);
    SyncSafety.NewDeviceStarts(SERVER, DEVICE);
    SyncSafety.ReachableInv(SERVER, EMPTY, DEVICE, steps, y9);
    var third, y12 := DoRetry(y9);
    steps := Then(Fresh(SERVER), steps, y9, third, y12);
    var page := PullShowsOwnVersion(y12.server);
    var fourth;
    fourth, y := DoPull(y12, page);
    steps := Then(Fresh(SERVER), steps, y12, fourth, y);
  }
}
