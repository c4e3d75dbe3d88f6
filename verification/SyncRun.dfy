/** One sync run of the engine against the server: push the prepared changes one at a time, then pull page by
    page. Every request or answer may be lost. */
module SyncRun {
  import opened Wrappers
  import opened SyncTypes
  import opened LocalStore
  import opened Paging
  import Server = ServerTables
  import opened SyncSystem

  datatype Fault = Reliable | RequestLost | AnswerLost

  /** The run between two calls: both sides' tables, what it attempted, and whether it threw. */
  datatype RunState = RunState(store: Store, server: Server.Tables, attempted: seq<PendingChange>, threw: bool)

  predicate Prepared(s: Store, w: Id, id: Id) {
    id in s.changes && s.changes[id].id == id && s.changes[id].workspaceId == w && Retryable(s.changes[id])
    && (s.changes[id].kind == DeleteNote || s.changes[id].payload.Some?)
  }

  /** `listRetryableChanges` of the workspace, without changes that still lack a payload. */
  ghost predicate Listing(s: Store, w: Id, ids: seq<Id>) {
    && (forall k :: 0 <= k < |ids| ==> Prepared(s, w, ids[k]))
    && (forall id :: id in s.changes && Prepared(s, w, id) ==> id in ids)
    && (forall j, k :: 0 <= j < k < |ids| ==> ids[j] != ids[k] && Before(s.changes[ids[j]], s.changes[ids[k]]))
  }

  /** `SyncService.push` of one change: None where it throws. */
  function Push(t: Server.Tables, device: Device, request: PushChange, draw: Id): (Server.Tables, Option<PushResult>) {
    if (device.workspaceId, device.userId) !in t.members then (t, None)
    else
      var (t', p) := Server.Process(t, Server.SyncInput(device.workspaceId, device.userId, device.clientId, request, draw));
      (t', Server.Answer(request.operationId, p))
  }

  /** Sends a started change and applies the answer. */
  function Send(r: RunState, device: Device, p: PendingChange, draw: Id, fault: Fault, now: int): RunState {
    if fault == RequestLost then r.(threw := true)
    else
      var (t, answer) := Push(r.server, device, Wire(p), draw);
      if fault == AnswerLost || answer.None? then r.(server := t, threw := true)
      else r.(server := t, store := ApplyResults(r.store, device.workspaceId, [p], [answer.value], now))
  }

  /** One round of the push loop. */
  function Exchange(r: RunState, device: Device, id: Id, draw: Id, fault: Fault, now: int): RunState {
    if r.threw || id !in r.store.changes || !Retryable(r.store.changes[id])
       || r.store.changes[id].workspaceId != device.workspaceId || r.store.changes[id].id != id then r
    else
      var (s1, started) := BeginAll(r.store, [r.store.changes[id]]);
      if started == [] then r.(store := s1)
      else Send(r.(store := s1, attempted := r.attempted + [started[0]]), device, started[0], draw, fault, now)
  }

  function PushPhase(r: RunState, device: Device, ids: seq<Id>, draws: seq<Id>, faults: seq<Fault>, now: int): RunState
    requires |draws| == |ids| == |faults|
    decreases |ids|
  {
    if ids == [] then r
    else PushPhase(Exchange(r, device, ids[0], draws[0], faults[0], now), device, ids[1..], draws[1..], faults[1..], now)
  }

  /** The pull loop; `answered` bounds how many pages arrive before the transport fails, if it does. */
  function PullPhase(r: RunState, device: Device, cursor: Option<Cursor>, size: nat, answered: Option<nat>, now: int): RunState
    requires size >= 1
    decreases |Remaining(r.server, device.workspaceId, if cursor.None? then 0 else cursor.value.sequence)|
  {
    if answered == Some(0) then r.(threw := true)
    else
      match Pull(r.server, device.workspaceId, device.userId, cursor, size)
      case Err(_) => r.(threw := true)
      case Ok(page) =>
        var r1 := r.(store := ApplyPage(r.store, page, now));
        NextPageResumes(r.server, device.workspaceId, if cursor.None? then 0 else cursor.value.sequence, size);
        if page.hasMore
        then PullPhase(r1, device, Some(page.next), size, if answered.Some? then Some(answered.value - 1) else None, now)
        else r1
  }

  /** The loop after a page. */
  lemma PageTurns(r: RunState, device: Device, cursor: Option<Cursor>, size: nat, answered: Option<nat>, now: int, page: PullPage)
    requires size >= 1 && answered != Some(0) && Pull(r.server, device.workspaceId, device.userId, cursor, size) == Ok(page)
    ensures PullPhase(r, device, cursor, size, answered, now) ==
      var r1 := r.(store := ApplyPage(r.store, page, now));
      if page.hasMore
      then PullPhase(r1, device, Some(page.next), size, if answered.Some? then Some(answered.value - 1) else None, now)
      else r1
    ensures page.hasMore ==>
      |Remaining(r.server, device.workspaceId, page.next.sequence)|
        < |Remaining(r.server, device.workspaceId, if cursor.None? then 0 else cursor.value.sequence)|
  {
    NextPageResumes(r.server, device.workspaceId, if cursor.None? then 0 else cursor.value.sequence, size);
  }

  function LocalCursor(s: Store, w: Id): Option<Cursor> {
    if w in s.cursors then Some(s.cursors[w]) else None
  }

  /** Push, then pull from the stored cursor unless pushing threw. */
  function Phases(r0: RunState, device: Device, ids: seq<Id>, draws: seq<Id>, faults: seq<Fault>, size: nat, answered: Option<nat>,
                  now: int): RunState
    requires size >= 1 && |draws| == |ids| == |faults|
  {
    var r1 := PushPhase(r0, device, ids, draws, faults, now);
    if r1.threw then r1 else PullPhase(r1, device, LocalCursor(r1.store, device.workspaceId), size, answered, now)
  }

  /** `runSync` after its preparation: on any failure every attempt still in `syncing` is marked failed. */
  function Sync(s: Store, t: Server.Tables, device: Device, ids: seq<Id>, draws: seq<Id>, faults: seq<Fault>,
                size: nat, answered: Option<nat>, now: int): RunState
    requires size >= 1 && |draws| == |ids| == |faults|
  {
    var r := Phases(RunState(s, t, [], false), device, ids, draws, faults, size, answered, now);
    if r.threw then r.(store := FailAll(r.store, r.attempted)) else r
  }

  /** What sending leaves for each fault: a lost request reaches nobody, a lost answer leaves its work at the server alone,
      and a throw there, an outsider's included, ends the run like one. */
  lemma SendLeaves(r: RunState, device: Device, p: PendingChange, draw: Id, fault: Fault, now: int)
    ensures var r' := Send(r, device, p, draw, fault, now);
      var member := (device.workspaceId, device.userId) in r.server.members;
      var (t, processed) := Server.Process(r.server, Server.SyncInput(device.workspaceId, device.userId, device.clientId, Wire(p), draw));
      && r'.attempted == r.attempted
      && (fault == RequestLost ==> r' == r.(threw := true))
      && (fault != RequestLost ==> r'.server == if member then t else r.server)
      && (fault == AnswerLost ==> r'.store == r.store && r'.threw)
      && (fault == Reliable && (!member || processed.Threw?) ==> r'.store == r.store && r'.threw)
      && (fault == Reliable && member && !processed.Threw? ==>
            && r'.threw == r.threw
            && r'.store == ApplyResults(r.store, device.workspaceId, [p], [Server.Answer(p.id, processed).value], now))
  {
  }

  /** A round sends exactly a change that is there, of the workspace, and pending or failed, as one more attempt. */
  lemma ExchangeSendsExactly(r: RunState, device: Device, id: Id, draw: Id, fault: Fault, now: int)
    requires id in r.store.changes ==> r.store.changes[id].id == id
    ensures var s := r.store;
      Exchange(r, device, id, draw, fault, now) ==
        if !r.threw && id in s.changes && s.changes[id].status in {Pending, Failed} && s.changes[id].workspaceId == device.workspaceId
        then
          var c := s.changes[id].(attempts := s.changes[id].attempts + 1, status := Syncing);
          Send(RunState(s.(changes := s.changes[id := c]), r.server, r.attempted + [c], r.threw), device, c, draw, fault, now)
        else r
  {
    if id in r.store.changes {
      var c := r.store.changes[id];
      var (s1, first) := Begin(r.store, c);
      assert BeginAll(s1, [c][1..]) == (s1, []);
      assert first + [] == first;
    }
  }

  /** A listing: the workspace's pending and failed changes that can be sent, deletions and those with an envelope, once
      each, older ones first and at one time those of lower revision first. */
  lemma ListsExactly(s: Store, w: Id, ids: seq<Id>, id: Id)
    requires Listing(s, w, ids) && forall x :: x in s.changes ==> s.changes[x].id == x
    ensures id in ids <==>
      && id in s.changes && s.changes[id].workspaceId == w && s.changes[id].status in {Pending, Failed}
      && (s.changes[id].kind == DeleteNote || s.changes[id].payload != None)
    ensures forall j, k :: 0 <= j < k < |ids| ==>
      && ids[j] in s.changes && ids[k] in s.changes && ids[j] != ids[k]
      && var a, b := s.changes[ids[j]], s.changes[ids[k]];
         a.createdAt < b.createdAt || (a.createdAt == b.createdAt && a.revision <= b.revision)
  {
  }
}
