/** A run of the engine is a run of the distributed system, so whatever holds there holds of it. */
module SyncRefinement {
  import opened Wrappers
  import opened SyncTypes
  import opened LocalStore
  import opened SealedWork
  import opened Workspaces
  import opened SyncSystem
  import opened SyncSafety
  import opened SyncRun
  import opened Paging
  import opened PullConvergence
  import Server = ServerTables
  import ServerInvariants
  import StoreInvariants

  lemma {:induction false} ExecuteConcat(y: System, device: Device, a: seq<Step>, b: seq<Step>)
    ensures Execute(y, device, a + b) == Execute(Execute(y, device, a), device, b)
    decreases |a|
  {
    if a == [] {
      assert a + b == b;
    } else {
      assert (a + b)[0] == a[0] && (a + b)[1..] == a[1..] + b;
      ExecuteConcat(Advance(y, device, a[0]), device, a[1..], b);
    }
  }

  lemma ExecuteOne(y: System, device: Device, a: Step)
    ensures Execute(y, device, [a]) == Advance(y, device, a)
  {
    assert [a][1..] == [];
    assert Execute(Advance(y, device, a), device, []) == Advance(y, device, a);
  }

  lemma ExecuteSnoc(y: System, device: Device, a: seq<Step>, b: Step)
    ensures Execute(y, device, a + [b]) == Advance(Execute(y, device, a), device, b)
  {
    ExecuteConcat(y, device, a, [b]);
    ExecuteOne(Execute(y, device, a), device, b);
  }

  /** The system shows the run. */
  predicate Shows(y: System, r: RunState) {
    y.work.store == r.store && y.server == r.server && y.attempted == r.attempted
  }

  /** Every change still to be sent holds what it needs and was not attempted in this run. */
  ghost predicate Sendable(y: System, ids: seq<Id>) {
    && (forall k :: 0 <= k < |ids| ==> !IsAttempted(y, ids[k]))
    && (forall k :: 0 <= k < |ids| && ids[k] in y.work.store.changes ==>
          y.work.store.changes[ids[k]].kind == DeleteNote || y.work.store.changes[ids[k]].payload.Some?)
    && (forall j, k :: 0 <= j < k < |ids| ==> ids[j] != ids[k])
  }

  /** The change an exchange sends, and whether it sends one. */
  predicate Sends(s: Store, device: Device, id: Id) {
    id in s.changes && Retryable(s.changes[id]) && s.changes[id].workspaceId == device.workspaceId && s.changes[id].id == id
  }

  lemma StartShows(y: System, device: Device, id: Id)
    requires y.flight.None? && Sends(y.work.store, device, id) && Sendable(y, [id])
    ensures var y' := Advance(y, device, Start(id));
      var (s1, started) := BeginAll(y.work.store, [y.work.store.changes[id]]);
      && started != [] && CanStart(y, device, id)
      && y' == y.(work := y'.work, flight := Some(started[0]), attempted := y.attempted + [started[0]],
                  sent := y.sent + {Wire(started[0])}, promised := y'.promised)
      && y'.work.store == s1 && started[0].id == id
  {
    var s := y.work.store;
    var (s1, first) := Begin(s, s.changes[id]);
    var candidates := [s.changes[id]];
    assert BeginAll(s1, candidates[1..]) == (s1, []);
    assert first + [] == first;
    assert [id][0] == id;
  }

  /** Sending a started change is perhaps Deliver, perhaps Receive. */
  lemma SendRefines(y: System, r: RunState, device: Device, p: PendingChange, draw: Id, fault: Fault, now: int)
    returns (steps: seq<Step>)
    requires Shows(y, r) && y.flight == Some(p) && Wire(p) in y.sent && !r.threw
    ensures var y', r' := Execute(y, device, steps), Send(r, device, p, draw, fault, now);
      Shows(y', r') && (!r'.threw ==> y'.flight.None?)
  {
    steps := [];
    if fault != RequestLost && (device.workspaceId, device.userId) in r.server.members {
      var deliver := Deliver(Wire(p), draw);
      ExecuteOne(y, device, deliver);
      steps := [deliver];
      var answer := SyncRun.Push(r.server, device, Wire(p), draw).1;
      if fault == Reliable && answer.Some? {
        var receive := Receive(answer.value, now);
        ExecuteSnoc(y, device, steps, receive);
        steps := steps + [receive];
      }
    }
  }

  /** One round of the push loop is Start and then sending. */
  lemma ExchangeRefines(y: System, r: RunState, device: Device, id: Id, draw: Id, fault: Fault, now: int)
    returns (steps: seq<Step>)
    requires Shows(y, r) && y.flight.None? && !r.threw && Sendable(y, [id])
    ensures var y', r' := Execute(y, device, steps), Exchange(r, device, id, draw, fault, now);
      Shows(y', r') && (!r'.threw ==> y'.flight.None?)
  {
    steps := [];
    if Sends(r.store, device, id) {
      StartShows(y, device, id);
      ExecuteOne(y, device, Start(id));
      var y1 := Advance(y, device, Start(id));
      var p := y1.flight.value;
      var r1 := r.(store := y1.work.store, attempted := r.attempted + [p]);
      var more := SendRefines(y1, r1, device, p, draw, fault, now);
      ExecuteConcat(y, device, [Start(id)], more);
      steps := [Start(id)] + more;
    }
  }

  /** Sending and answering keep every change's kind and payload. */
  ghost predicate SameWork(s: Store, s': Store) {
    && s'.changes.Keys == s.changes.Keys
    && forall x :: x in s.changes ==> s'.changes[x].kind == s.changes[x].kind && s'.changes[x].payload == s.changes[x].payload
  }

  lemma ResultKeepsWork(s: Store, w: Id, p: PendingChange, result: Option<PushResult>, now: int)
    ensures SameWork(s, ApplyResult(s, w, p, result, now))
  {
    if p.id in s.changes && result.Some? {
      if AnswersAccepted(result.value) {
        AcceptedKeepsWork(s, w, p, result.value.version);
      } else if !result.value.Rejected? {
        ConflictsKeepWork(s, {p.id} + Spread(s, s.changes[p.id]), w, result.value.remote, now);
      }
    }
  }

  lemma AcceptedKeepsWork(s: Store, w: Id, p: PendingChange, v: Version)
    requires p.id in s.changes
    ensures SameWork(s, ApplyAccepted(s, w, p, v))
  {
  }

  lemma ConflictsKeepWork(s: Store, ids: set<Id>, w: Id, remote: Version, now: int)
    requires ids <= s.changes.Keys
    ensures SameWork(s, RecordConflicts(s, ids, w, remote, now))
  {
  }

  lemma ExchangeKeepsWork(r: RunState, device: Device, id: Id, draw: Id, fault: Fault, now: int)
    ensures SameWork(r.store, Exchange(r, device, id, draw, fault, now).store)
    ensures var r' := Exchange(r, device, id, draw, fault, now);
      r'.attempted == r.attempted || (|r'.attempted| == |r.attempted| + 1 && r'.attempted[..|r.attempted|] == r.attempted
                                      && r'.attempted[|r.attempted|].id == id)
  {
    if !r.threw && Sends(r.store, device, id) {
      var c := r.store.changes[id];
      var (s1, first) := Begin(r.store, c);
      assert BeginAll(s1, [c][1..]) == (s1, []);
      assert first + [] == first;
      var (t1, answer) := SyncRun.Push(r.server, device, Wire(first[0]), draw);
      if answer.Some? {
        SingleResult(s1, device.workspaceId, first[0], [answer.value], now);
        ResultKeepsWork(s1, device.workspaceId, first[0], ResultFor([answer.value], first[0].id), now);
      }
    }
  }

  lemma StillSendable(y: System, y': System, ids: seq<Id>, attempted: seq<PendingChange>)
    requires ids != [] && Sendable(y, ids) && SameWork(y.work.store, y'.work.store)
    requires y'.attempted == y.attempted
      || (|y'.attempted| == |y.attempted| + 1 && y'.attempted[..|y.attempted|] == y.attempted && y'.attempted[|y.attempted|].id == ids[0])
    ensures Sendable(y', ids[1..])
  {
    forall k | 0 <= k < |ids[1..]| ensures !IsAttempted(y', ids[1..][k]) {
      assert ids[1..][k] == ids[k + 1] && ids[0] != ids[k + 1] && !IsAttempted(y, ids[k + 1]);
      forall j | 0 <= j < |y'.attempted| ensures y'.attempted[j].id != ids[k + 1] {
        if j < |y.attempted| { assert y'.attempted[..|y.attempted|][j] == y.attempted[j]; }
      }
    }
  }

  lemma {:induction false} PushRefines(y: System, r: RunState, device: Device, ids: seq<Id>, draws: seq<Id>, faults: seq<Fault>, now: int)
    returns (steps: seq<Step>)
    requires Shows(y, r) && (!r.threw ==> y.flight.None?) && (!r.threw ==> Sendable(y, ids)) && |draws| == |ids| == |faults|
    ensures var y', r' := Execute(y, device, steps), PushPhase(r, device, ids, draws, faults, now);
      Shows(y', r') && (!r'.threw ==> y'.flight.None?)
    decreases |ids|
  {
    steps := [];
    if ids != [] {
      var r1 := Exchange(r, device, ids[0], draws[0], faults[0], now);
      var y1 := y;
      if !r.threw {
        assert Sendable(y, [ids[0]]);
        steps := ExchangeRefines(y, r, device, ids[0], draws[0], faults[0], now);
        y1 := Execute(y, device, steps);
        ExchangeKeepsWork(r, device, ids[0], draws[0], faults[0], now);
        StillSendable(y, y1, ids, r.attempted);
      }
      var more := PushRefines(y1, r1, device, ids[1..], draws[1..], faults[1..], now);
      ExecuteConcat(y, device, steps, more);
      steps := steps + more;
    }
  }

  /** Both sides agree on where a note is. */
  ghost predicate SameHomes(s: Store, t: Server.Tables) {
    forall n :: n in s.notes && n in t.notes ==> s.notes[n].workspaceId == t.notes[n].workspaceId
  }

  /** The entries show the workspace's notes as the server stores them. */
  ghost predicate FromServer(t: Server.Tables, w: Id, ps: seq<PullChange>) {
    forall k :: 0 <= k < |ps| ==>
      ps[k].note.id in t.notes && t.notes[ps[k].note.id] == ps[k].note && ps[k].note.workspaceId == w
  }

  lemma RowIsFromServer(t: Server.Tables, w: Id, numbers: seq<nat>, k: nat)
    requires Joinable(t) && k < |numbers|
    requires forall j :: 0 <= j < |numbers| ==> 1 <= numbers[j] <= |t.log| && Visible(t, w, t.log[numbers[j] - 1])
    ensures var note := Rows(t, numbers)[k].note;
      note.id in t.notes && t.notes[note.id] == note && note.workspaceId == w
  {
  }

  lemma PageIsFromServer(t: Server.Tables, w: Id, after: nat, size: nat)
    requires Joinable(t)
    ensures FromServer(t, w, PageAt(t, w, after, size).changes)
  {
    FeedIsExact(t, w, after, |t.log|);
    var numbers := Page(t, w, after, size);
    forall k | 0 <= k < |numbers|
      ensures var note := Rows(t, numbers)[k].note; note.id in t.notes && t.notes[note.id] == note && note.workspaceId == w
    {
      RowIsFromServer(t, w, numbers, k);
    }
  }

  lemma PageAgreesWith(s: Store, t: Server.Tables, page: PullPage)
    requires FromServer(t, page.workspaceId, page.changes) && SameHomes(s, t)
    ensures PageAgrees(s, page)
  {
    forall k | 0 <= k < |page.changes| ensures page.changes[k].note.workspaceId == page.workspaceId && Agrees(s, page.changes[k].note) {
      assert page.changes[k].note.id in t.notes;
    }
  }

  lemma {:induction false} PullKeepsHomes(s: Store, t: Server.Tables, w: Id, ps: seq<PullChange>, now: int)
    requires SameHomes(s, t) && FromServer(t, w, ps)
    ensures SameHomes(ApplyPulledAll(s, w, ps, now), t)
    decreases |ps|
  {
    if ps != [] {
      assert SameHomes(ApplyPulled(s, w, ps[0], now), t);
      PullKeepsHomes(ApplyPulled(s, w, ps[0], now), t, w, ps[1..], now);
    }
  }

  lemma PageRefines(y: System, r: RunState, device: Device, page: PullPage, now: int)
    requires Shows(y, r) && y.flight.None? && !r.threw && FromServer(r.server, page.workspaceId, page.changes) && SameHomes(r.store, r.server)
    ensures var y', r' := Advance(y, device, ReceivePage(page, now)), r.(store := ApplyPage(r.store, page, now));
      Shows(y', r') && y'.flight.None? && SameHomes(r'.store, r'.server)
  {
    PageAgreesWith(r.store, r.server, page);
    PullKeepsHomes(r.store, r.server, page.workspaceId, page.changes, now);
  }

  /** The first page of the loop, as a step. */
  lemma FirstPageRefines(y: System, r: RunState, device: Device, cursor: Option<Cursor>, size: nat, now: int, page: PullPage)
    requires Shows(y, r) && y.flight.None? && !r.threw && SameHomes(r.store, r.server) && Joinable(r.server)
    requires Pull(r.server, device.workspaceId, device.userId, cursor, size) == Ok(page)
    ensures var y', r' := Execute(y, device, [ReceivePage(page, now)]), r.(store := ApplyPage(r.store, page, now));
      Shows(y', r') && y'.flight.None? && SameHomes(r'.store, r'.server)
  {
    PageIsFromServer(r.server, device.workspaceId, if cursor.None? then 0 else cursor.value.sequence, size);
    PageRefines(y, r, device, page, now);
    ExecuteOne(y, device, ReceivePage(page, now));
  }

  /** The pull loop receives one page a step. */
  lemma {:induction false} PullRefines(y: System, r: RunState, device: Device, cursor: Option<Cursor>, size: nat, answered: Option<nat>, now: int)
    returns (steps: seq<Step>)
    requires Shows(y, r) && y.flight.None? && !r.threw && size >= 1 && SameHomes(r.store, r.server)
    requires Joinable(r.server)
    ensures var y', r' := Execute(y, device, steps), PullPhase(r, device, cursor, size, answered, now);
      Shows(y', r') && y'.flight.None?
    decreases |Remaining(r.server, device.workspaceId, if cursor.None? then 0 else cursor.value.sequence)|, 1
  {
    steps := [];
    var pulled := Pull(r.server, device.workspaceId, device.userId, cursor, size);
    if answered != Some(0) && pulled.Ok? {
      PageTurns(r, device, cursor, size, answered, now, pulled.value);
      steps := PagesRefine(y, r, device, cursor, size, if answered.Some? then Some(answered.value - 1) else None, now, pulled.value);
    }
  }

  /** The loop from a page on that was just pulled; `left` pages are still answered. */
  lemma {:induction false} PagesRefine(y: System, r: RunState, device: Device, cursor: Option<Cursor>, size: nat, left: Option<nat>, now: int,
                                       page: PullPage)
    returns (steps: seq<Step>)
    requires Shows(y, r) && y.flight.None? && !r.threw && size >= 1 && SameHomes(r.store, r.server)
    requires Joinable(r.server) && Pull(r.server, device.workspaceId, device.userId, cursor, size) == Ok(page)
    requires page.hasMore ==>
      |Remaining(r.server, device.workspaceId, page.next.sequence)|
        < |Remaining(r.server, device.workspaceId, if cursor.None? then 0 else cursor.value.sequence)|
    ensures var r1 := r.(store := ApplyPage(r.store, page, now));
      var y', r' := Execute(y, device, steps), if page.hasMore then PullPhase(r1, device, Some(page.next), size, left, now) else r1;
      Shows(y', r') && y'.flight.None?
    decreases |Remaining(r.server, device.workspaceId, if cursor.None? then 0 else cursor.value.sequence)|, 0
  {
    FirstPageRefines(y, r, device, cursor, size, now, page);
    steps := [ReceivePage(page, now)];
    if page.hasMore {
      var more := PullRefines(Execute(y, device, steps), r.(store := ApplyPage(r.store, page, now)), device, Some(page.next), size, left, now);
      ExecuteConcat(y, device, steps, more);
      steps := steps + more;
    }
  }

  // ---- Homes through the push loop ----

  lemma ProcessKeepsHomes(s: Store, t: Server.Tables, i: Server.SyncInput)
    requires ServerInvariants.Inv(t) && SameHomes(s, t)
    requires i.change.noteId in s.notes ==> s.notes[i.change.noteId].workspaceId == i.workspaceId
    ensures SameHomes(s, Server.Process(t, i).0) && ServerInvariants.Inv(Server.Process(t, i).0)
  {
    ServerInvariants.ProcessKeepsInv(t, i);
    var t' := Server.Process(t, i).0;
    forall n | n in s.notes && n in t'.notes ensures s.notes[n].workspaceId == t'.notes[n].workspaceId {
      if n in t.notes {
        assert ServerInvariants.NoteGrows(t.notes[n], t'.notes[n], ServerInvariants.History(t.log, n), ServerInvariants.History(t'.log, n));
      } else {
        OnlyItsNote(t, i);
      }
    }
  }

  lemma OnlyItsNote(t: Server.Tables, i: Server.SyncInput)
    requires forall n :: n in t.notes ==> t.notes[n].id == n
    ensures forall n :: n in Server.Process(t, i).0.notes && n !in t.notes ==>
      n == i.change.noteId && Server.Process(t, i).0.notes[n].workspaceId == i.workspaceId
  {
  }

  /** An answer changes no note but its base. */
  lemma ResultKeepsNotes(s: Store, w: Id, p: PendingChange, result: Option<PushResult>, now: int)
    ensures forall n :: n in ApplyResult(s, w, p, result, now).notes ==>
      n in s.notes && ApplyResult(s, w, p, result, now).notes[n].workspaceId == s.notes[n].workspaceId
  {
  }

  lemma AnswerKeepsHomes(s: Store, t: Server.Tables, w: Id, p: PendingChange, answer: PushResult, now: int)
    requires SameWorkspace(s) && SameHomes(s, t)
    ensures var s' := ApplyResults(s, w, [p], [answer], now); SameWorkspace(s') && SameHomes(s', t)
  {
    SingleResult(s, w, p, [answer], now);
    ResultKeepsWorkspace(s, w, p, ResultFor([answer], p.id), now);
    ResultKeepsNotes(s, w, p, ResultFor([answer], p.id), now);
  }

  lemma PushKeepsServer(s: Store, t: Server.Tables, device: Device, p: PendingChange, draw: Id)
    requires SameWorkspace(s) && SameHomes(s, t) && ServerInvariants.Inv(t)
    requires p.noteId in s.notes && s.notes[p.noteId].workspaceId == device.workspaceId
    ensures SameHomes(s, SyncRun.Push(t, device, Wire(p), draw).0) && ServerInvariants.Inv(SyncRun.Push(t, device, Wire(p), draw).0)
  {
    ProcessKeepsHomes(s, t, Server.SyncInput(device.workspaceId, device.userId, device.clientId, Wire(p), draw));
  }

  lemma ExchangeKeepsHomes(r: RunState, device: Device, id: Id, draw: Id, fault: Fault, now: int)
    requires SameWorkspace(r.store) && SameHomes(r.store, r.server) && ServerInvariants.Inv(r.server)
    ensures var r' := Exchange(r, device, id, draw, fault, now);
      SameWorkspace(r'.store) && SameHomes(r'.store, r'.server) && ServerInvariants.Inv(r'.server)
  {
    if !r.threw && Sends(r.store, device, id) {
      BeginMoves(r.store, id);
      BeginKeepsNotes(r.store, r.store.changes[id]);
      var (s1, started) := BeginAll(r.store, [r.store.changes[id]]);
      PushKeepsServer(s1, r.server, device, started[0], draw);
      var (t1, answer) := SyncRun.Push(r.server, device, Wire(started[0]), draw);
      if answer.Some? { AnswerKeepsHomes(s1, t1, device.workspaceId, started[0], answer.value, now); }
    }
  }

  lemma BeginKeepsNotes(s: Store, c: PendingChange)
    ensures BeginAll(s, [c]).0.notes == s.notes
  {
    assert BeginAll(Begin(s, c).0, [c][1..]).0 == Begin(s, c).0;
  }

  lemma {:induction false} PushKeepsHomes(r: RunState, device: Device, ids: seq<Id>, draws: seq<Id>, faults: seq<Fault>, now: int)
    requires SameWorkspace(r.store) && SameHomes(r.store, r.server) && ServerInvariants.Inv(r.server)
    requires |draws| == |ids| == |faults|
    ensures var r' := PushPhase(r, device, ids, draws, faults, now);
      SameHomes(r'.store, r'.server) && ServerInvariants.Inv(r'.server)
    decreases |ids|
  {
    if ids != [] {
      ExchangeKeepsHomes(r, device, ids[0], draws[0], faults[0], now);
      PushKeepsHomes(Exchange(r, device, ids[0], draws[0], faults[0], now), device, ids[1..], draws[1..], faults[1..], now);
    }
  }

  // ---- The whole run ----

  lemma ListedIsSendable(y: System, w: Id, ids: seq<Id>)
    requires Listing(y.work.store, w, ids) && y.attempted == []
    ensures Sendable(y, ids)
  {
    forall k | 0 <= k < |ids| ensures y.work.store.changes[ids[k]].kind == DeleteNote || y.work.store.changes[ids[k]].payload.Some? {
      assert Prepared(y.work.store, w, ids[k]);
    }
  }

  /** The last step of a run. */
  function Ending(threw: bool): Step {
    if threw then Abort else Finish
  }

  lemma EndShows(y: System, device: Device, r: RunState)
    requires Shows(y, r) && (!r.threw ==> y.flight.None?)
    ensures var y' := Advance(y, device, Ending(r.threw));
      && Enabled(y, device, Ending(r.threw)) && y'.server == r.server && y'.flight.None? && y'.attempted == []
      && y'.work.store == if r.threw then FailAll(r.store, r.attempted) else r.store
  {
  }

  lemma PullFromCursorRefines(y: System, r: RunState, device: Device, size: nat, answered: Option<nat>, now: int)
    returns (steps: seq<Step>)
    requires Shows(y, r) && y.flight.None? && !r.threw && size >= 1
    requires SameHomes(r.store, r.server) && ServerInvariants.Inv(r.server)
    ensures var y', r' := Execute(y, device, steps), PullPhase(r, device, LocalCursor(r.store, device.workspaceId), size, answered, now);
      Shows(y', r') && y'.flight.None?
  {
    InvIsJoinable(r.server);
    steps := PullRefines(y, r, device, LocalCursor(r.store, device.workspaceId), size, answered, now);
  }

  lemma PhasesRefine(y: System, r0: RunState, device: Device, ids: seq<Id>, draws: seq<Id>, faults: seq<Fault>, size: nat,
                     answered: Option<nat>, now: int)
    returns (steps: seq<Step>)
    requires Shows(y, r0) && y.flight.None? && !r0.threw && Sendable(y, ids) && size >= 1 && |draws| == |ids| == |faults|
    requires SameWorkspace(r0.store) && SameHomes(r0.store, r0.server) && ServerInvariants.Inv(r0.server)
    ensures var y', r := Execute(y, device, steps), Phases(r0, device, ids, draws, faults, size, answered, now);
      Shows(y', r) && (!r.threw ==> y'.flight.None?)
  {
    steps := PushRefines(y, r0, device, ids, draws, faults, now);
    var r1 := PushPhase(r0, device, ids, draws, faults, now);
    if !r1.threw {
      PushKeepsHomes(r0, device, ids, draws, faults, now);
      var more := PullFromCursorRefines(Execute(y, device, steps), r1, device, size, answered, now);
      ExecuteConcat(y, device, steps, more);
      steps := steps + more;
    }
  }

  /** Every run of the engine, whatever the faults and wherever it stops, is a run of the system: from an idle system,
      these steps and then Finish or Abort lead to the tables of `Sync` on both sides, and leave the system idle. */
  lemma SyncRefinesSystem(y: System, device: Device, ids: seq<Id>, draws: seq<Id>, faults: seq<Fault>, size: nat, answered: Option<nat>, now: int)
    returns (steps: seq<Step>)
    requires y.flight.None? && y.attempted == [] && SameWorkspace(y.work.store) && ServerInvariants.Inv(y.server)
    requires SameHomes(y.work.store, y.server) && Listing(y.work.store, device.workspaceId, ids)
    requires size >= 1 && |draws| == |ids| == |faults|
    ensures var r := Sync(y.work.store, y.server, device, ids, draws, faults, size, answered, now);
      var y' := Execute(y, device, steps);
      && Enabled(y', device, Ending(r.threw)) && y'.attempted == r.attempted
      && var end := Advance(y', device, Ending(r.threw));
      end.work.store == r.store && end.server == r.server && end.flight.None? && end.attempted == []
  {
    var r0 := RunState(y.work.store, y.server, [], false);
    ListedIsSendable(y, device.workspaceId, ids);
    steps := PhasesRefine(y, r0, device, ids, draws, faults, size, answered, now);
    EndShows(Execute(y, device, steps), device, Phases(r0, device, ids, draws, faults, size, answered, now));
  }

  /** So a run of the engine leaves nothing it attempted in `syncing`, keeps every invariant of the system, and in
      particular marks `synced` only what the server stored. */
  lemma EngineRunIsSafe(y: System, device: Device, ids: seq<Id>, draws: seq<Id>, faults: seq<Fault>, size: nat, answered: Option<nat>, now: int)
    requires Inv(y, device) && y.flight.None? && y.attempted == []
    requires SameHomes(y.work.store, y.server) && Listing(y.work.store, device.workspaceId, ids)
    requires size >= 1 && |draws| == |ids| == |faults|
    ensures var r := Sync(y.work.store, y.server, device, ids, draws, faults, size, answered, now);
      && StoreInvariants.Inv(r.store) && ServerInvariants.Inv(r.server)
      && (forall k :: 0 <= k < |r.attempted| ==>
            r.attempted[k].id in r.store.changes && r.store.changes[r.attempted[k].id].status != Syncing)
      && (forall id :: id in r.store.changes && r.store.changes[id].status == Synced && r.store.changes[id].workspaceId == device.workspaceId ==>
            StoredAs(r.server, device, r.store.changes[id]))
  {
    var steps := SyncRefinesSystem(y, device, ids, draws, faults, size, answered, now);
    var r := Sync(y.work.store, y.server, device, ids, draws, faults, size, answered, now);
    var y' := Execute(y, device, steps);
    ExecuteKeepsInv(y, device, steps, y');
    AdvanceKeepsInv(y', device, Ending(r.threw), Advance(y', device, Ending(r.threw)));
    forall k | 0 <= k < |r.attempted|
      ensures r.attempted[k].id in r.store.changes && r.store.changes[r.attempted[k].id].status != Syncing
    {
      EndLeavesNothingSyncing(y', device, Ending(r.threw), k);
    }
  }
}
