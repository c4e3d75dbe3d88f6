/** The engine that drives one sync run over the local repository and the sync service. */
module SyncEngine {
  import opened Wrappers
  import opened SyncTypes
  import opened LocalStore
  import opened LocalRepository
  import opened SyncServer
  import opened SyncService
  import opened SyncSystem
  import opened SyncRun
  import opened Paging
  import ServerTables

  function AsPusher(device: Device): Pusher {
    Pusher(device.workspaceId, device.userId, device.clientId)
  }

  /** Pushing one change is a batch of one. */
  lemma PushIsBatchOfOne(t: ServerTables.Tables, device: Device, request: PushChange, draw: Id)
    requires (device.workspaceId, device.userId) in t.members
    ensures var (t', answers) := PushAll(t, AsPusher(device), [request], [draw]);
      SyncRun.Push(t, device, request, draw) == (t', if answers.Some? then Some(answers.value[0]) else None)
      && (answers.Some? ==> |answers.value| == 1)
  {
    var p := AsPusher(device);
    var (t1, processed) := ServerTables.Process(t, Input(p, request, draw));
    assert PushAll(t1, p, [request][1..], [draw][1..]) == (t1, Some([]));
  }

  /** After a failure the rest of the loop does nothing. */
  lemma {:induction false} PushStops(r: RunState, device: Device, ids: seq<Id>, draws: seq<Id>, faults: seq<Fault>, now: int)
    requires r.threw && |draws| == |ids| == |faults|
    ensures PushPhase(r, device, ids, draws, faults, now) == r
    decreases |ids|
  {
    if ids != [] { PushStops(r, device, ids[1..], draws[1..], faults[1..], now); }
  }

  class NoteSyncEngine {
    const localData: LocalNotesRepository
    const service: Service

    constructor (localData: LocalNotesRepository, service: Service)
      ensures this.localData == localData && this.service == service
    {
      this.localData, this.service := localData, service;
    }

    /** The run so far. */
    ghost function Run(attempted: seq<PendingChange>, threw: bool): RunState
      reads localData, service.repository.database
    {
      RunState(localData.State(), service.repository.database.State(), attempted, threw)
    }

    /** Send one change; the answer, unless it or the request is lost. */
    method Send(device: Device, request: PushChange, draw: Id, fault: Fault) returns (answer: Option<PushResult>)
      requires service.repository.database.Valid()
      modifies service.repository.database
      ensures service.repository.database.Valid()
      ensures fault == RequestLost ==> answer.None? && service.repository.database.State() == old(service.repository.database.State())
      ensures fault != RequestLost ==>
        var (t, pushed) := SyncRun.Push(old(service.repository.database.State()), device, request, draw);
        service.repository.database.State() == t && answer == if fault == AnswerLost then None else pushed
    {
      answer := None;
      if fault == RequestLost { return; }
      ghost var t := service.repository.database.State();
      if (device.workspaceId, device.userId) in t.members { PushIsBatchOfOne(t, device, request, draw); }
      var results, threw := service.Push(AsPusher(device), [request], [draw]);
      if !threw && results.Ok? && fault != AnswerLost { answer := Some(results.value[0]); }
    }

    /** One round of the push loop. */
    method PushRound(device: Device, id: Id, draw: Id, fault: Fault, attempted: seq<PendingChange>, now: int)
      returns (attempted': seq<PendingChange>, threw: bool)
      requires service.repository.database.Valid()
      modifies localData, service.repository.database
      ensures service.repository.database.Valid()
      ensures Run(attempted', threw) == Exchange(old(Run(attempted, false)), device, id, draw, fault, now)
    {
      attempted', threw := attempted, false;
      var retryable := localData.ListRetryableChanges(device.workspaceId);
      if id !in retryable || localData.changes[id].id != id { return; }
      var started := localData.BeginSyncAttempt([localData.changes[id]]);
      if started == [] { return; }
      attempted' := attempted + [started[0]];
      var answer := Send(device, Wire(started[0]), draw, fault);
      if answer.None? { return attempted', true; }
      localData.ApplyPushResults(device.workspaceId, [started[0]], [answer.value], now);
    }
  
    /** The push loop over the prepared changes; ends at the first failure. */
    method PushPrepared(device: Device, ids: seq<Id>, draws: seq<Id>, faults: seq<Fault>, now: int)
      returns (attempted: seq<PendingChange>, threw: bool)
      requires service.repository.database.Valid() && |draws| == |ids| == |faults|
      modifies localData, service.repository.database
      ensures service.repository.database.Valid()
      ensures Run(attempted, threw) == PushPhase(old(Run([], false)), device, ids, draws, faults, now)
    {
      attempted, threw := [], false;
      assert ids[0..] == ids && draws[0..] == draws && faults[0..] == faults;
      for k := 0 to |ids|
        invariant service.repository.database.Valid() && !threw
        invariant PushPhase(old(Run([], false)), device, ids, draws, faults, now)
               == PushPhase(Run(attempted, threw), device, ids[k..], draws[k..], faults[k..], now)
      {
        assert ids[k..][0] == ids[k] && ids[k..][1..] == ids[k + 1..];
        assert draws[k..][0] == draws[k] && draws[k..][1..] == draws[k + 1..];
        assert faults[k..][0] == faults[k] && faults[k..][1..] == faults[k + 1..];
        attempted, threw := PushRound(device, ids[k], draws[k], faults[k], attempted, now);
        if threw {
          PushStops(Run(attempted, true), device, ids[k + 1..], draws[k + 1..], faults[k + 1..], now);
          return;
        }
      }
    }

    /** The pull loop: pages from the stored cursor until the last, or until the transport has answered `answered`. */
    method PullPages(device: Device, answered: Option<nat>, now: int, ghost attempted: seq<PendingChange>) returns (threw: bool)
      modifies localData
      ensures Run(attempted, threw) ==
        PullPhase(old(Run(attempted, false)), device, LocalCursor(old(localData.State()), device.workspaceId), PAGE_SIZE, answered, now)
    {
      var cursor := if device.workspaceId in localData.cursors then Some(localData.cursors[device.workspaceId]) else None;
      var left, more := answered, true;
      threw := false;
      ghost var t := service.repository.database.State();
      ghost var final := PullPhase(Run(attempted, false), device, cursor, PAGE_SIZE, answered, now);
      while more
        invariant !threw && service.repository.database.State() == t
        invariant final == if more then PullPhase(Run(attempted, false), device, cursor, PAGE_SIZE, left, now) else Run(attempted, false)
        decreases more, |Remaining(t, device.workspaceId, if cursor.None? then 0 else cursor.value.sequence)|
      {
        if left == Some(0) { return true; }
        var response := service.Pull(device.workspaceId, device.userId, cursor);
        if response.Err? { return true; }
        var page := response.value;
        PageTurns(Run(attempted, false), device, cursor, PAGE_SIZE, left, now, page);
        localData.ApplyPullResponse(page, now);
        cursor, more := Some(page.next), page.hasMore;
        if left.Some? { left := Some(left.value - 1); }
      }
    }

    /** `runSync` once every queued change holds an envelope: lists the prepared changes, pushes, pulls, and marks what
        is still in `syncing` failed if anything threw. */
    method RunSync(device: Device, draw: int -> Id, fault: int -> Fault, answered: Option<nat>, now: int)
      returns (ids: seq<Id>, threw: bool)
      requires service.repository.database.Valid()
      modifies localData, service.repository.database
      ensures service.repository.database.Valid()
      ensures Listing(old(localData.State()), device.workspaceId, ids)
      ensures var r := Sync(old(localData.State()), old(service.repository.database.State()), device, ids,
                            seq<Id>(|ids|, draw), seq(|ids|, fault), PAGE_SIZE, answered, now);
        localData.State() == r.store && service.repository.database.State() == r.server && threw == r.threw
    {
      ids := ListPrepared(device.workspaceId);
      var draws, faults := seq<Id>(|ids|, draw), seq(|ids|, fault);
      var attempted;
      attempted, threw := PushPrepared(device, ids, draws, faults, now);
      if !threw { threw := PullPages(device, answered, now, attempted); }
      if threw { localData.MarkSyncAttemptFailed(attempted); }
    }

    /** The retryable changes that can be sent, in order. */
    method ListPrepared(workspaceId: Id) returns (ids: seq<Id>)
      ensures Listing(localData.State(), workspaceId, ids)
    {
      var retryable := localData.ListRetryableChanges(workspaceId);
      ids := [];
      for k := 0 to |retryable|
        invariant Sorted(localData.changes, ids)
        invariant forall id :: id in ids ==> Prepared(localData.State(), workspaceId, id) && id in retryable[..k]
        invariant forall id :: id in retryable[..k] && Prepared(localData.State(), workspaceId, id) ==> id in ids
      {
        var id := retryable[k];
        if Prepared(localData.State(), workspaceId, id) {
          forall j | 0 <= j < |ids| ensures ids[j] != id && Before(localData.changes[ids[j]], localData.changes[id]) {
            assert ids[j] in ids;
            var m :| 0 <= m < k && retryable[m] == ids[j];
          }
          ids := ids + [id];
        }
      }
      assert retryable[..|retryable|] == retryable;
    }
  }
}
