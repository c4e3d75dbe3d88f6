/** A run from an empty device that ends in a keep_local change nobody can open: the note is created and synced, edited
    here while another member edits it there, and the conflict is resolved with keep_local. */
module KeepLocalRun {
  import opened Wrappers
  import opened Json
  import opened Envelopes
  import opened SyncTypes
  import opened LocalStore
  import opened SealedWork
  import opened SyncSystem
  import opened SyncRefinement
  import opened KeepLocal
  import opened Workspaces
  import Server = ServerTables
  import ServerInvariants
  import SyncSafety

  const DEVICE: Device := Device(1, 1, 1, 1)
  const SERVER: Server.Tables := Server.Tables(map[(1, 1) := Editor, (1, 2) := Editor], map[], map[], map[], [])
  const FIRST: Document := Document("a", "")
  const SECOND: Document := Document("b", "")

  // ---- Short documents can be sealed ----

  lemma {:induction false} Utf8Bound(s: string)
    ensures Utf8Length(s) <= 4 * |s|
  {
    if s != [] { Utf8Bound(s[1..]); }
  }

  lemma {:induction false} EscapeBound(s: string)
    ensures |Escape(s)| <= 6 * |s|
  {
    if s != [] { EscapeBound(s[1..]); }
  }

  lemma ShortSeals(d: Document, context: Context, nonce: nat)
    requires |d.title| + |d.body| <= 100 && ValidContext(context)
    ensures Seal(d, DEVICE.key, context, nonce).Some?
  {
    EscapeBound(d.title);
    EscapeBound(d.body);
    Utf8Bound(PrintDocument(d));
    assert |PrintDocument(d)| <= |BODY| + |TITLE| + 1 + |Quote(d.title)| + |Quote(d.body)|;
  }

  lemma ShortIsValid(d: Document)
    requires d == FIRST || d == SECOND
    ensures ValidDocument(d) && |d.title| + |d.body| <= 100
  {
    assert !IsSpace(d.title[0]);
  }

  // ---- Stages ----

  /** The note and the changes of it on the device. */
  predicate Local(s: Store, base: Option<Id>, revision: nat, ids: set<Id>) {
    && s.notes.Keys == {1} && s.notes[1].id == 1 && s.notes[1].workspaceId == 1 && s.notes[1].base == base && !s.notes[1].deleted
    && s.notes[1].revision == revision && s.notes[1].payload.Some? && UpTo(s.notes[1].payload, revision)
    && s.notes[1].payload.value.envelopeVersion == 2
    && s.changes.Keys == ids
    && forall id :: id in ids ==>
         s.changes[id].id == id && s.changes[id].noteId == 1 && s.changes[id].workspaceId == 1 && s.changes[id].revision == id
         && s.changes[id].payload.Some?
  }

  /** The server's note at version `current`, and which operations it has seen. */
  predicate Remote(t: Server.Tables, current: Id, operations: set<Id>) {
    && t.members == SERVER.members && t.operations.Keys == operations
    && t.notes.Keys == {1} && t.notes[1] == Note(1, 1, 1, current, false)
    && t.versions.Keys == (if current == 1 then {1} else {1, 2})
    && current in t.versions && t.versions[current].id == current && t.versions[current].noteId == 1
    && |t.log| == current && forall k :: 0 <= k < |t.log| ==> t.log[k].workspaceId == 1 && t.log[k].noteId == 1 && t.log[k].versionId == k + 1
  }

  ghost predicate Created(y: System) {
    && y.flight.None? && y.attempted == [] && y.server == SERVER && Local(y.work.store, None, 1, {1}) && y.work.store.conflicts == map[]
    && y.work.store.changes[1].status == Pending && y.work.store.changes[1].kind == CreateNote
    && y.work.store.changes[1].base == None
  }

  lemma CreateStores(e: Envelope, s': Store)
    requires s' == LocalStore.Create(EMPTY, 1, 1, FIRST, e, 1, 1) && e.envelopeVersion == 2 && UpTo(Some(e), 1)
    ensures Local(s', None, 1, {1}) && s'.conflicts == map[]
    ensures s'.changes[1].status == Pending && s'.changes[1].kind == CreateNote && s'.changes[1].base == None
  {
    ShortIsValid(FIRST);
  }

  lemma Create(y: System, y': System)
    requires y == Fresh(SERVER)
    requires y' == Advance(y, DEVICE, User(CreateEncrypted(1, 1, FIRST, 1, 1, 1)))
    ensures Created(y')
  {
    ShortIsValid(FIRST);
    ShortSeals(FIRST, Context(1, 1, 1), 1);
    CreateStores(Seal(FIRST, 1, Context(1, 1, 1), 1).value, y'.work.store);
  }

  /** An attempt is on its way. */
  ghost predicate Sent(y: System, id: Id) {
    && y.flight.Some? && y.flight.value.id == id && id in y.work.store.changes && y.work.store.changes[id] == y.flight.value
    && y.flight.value.status == Syncing && Wire(y.flight.value) in y.sent && IsAttempted(y, id)
    && forall k :: 0 <= k < |y.attempted| ==> y.attempted[k].id <= id
  }

  lemma StartSends(y: System, id: Id, y': System)
    requires CanStart(y, DEVICE, id) && y' == Advance(y, DEVICE, Start(id))
    requires forall k :: 0 <= k < |y.attempted| ==> y.attempted[k].id <= id
    ensures Sent(y', id) && y'.server == y.server && y'.work.store.notes == y.work.store.notes
    ensures y'.work.store.conflicts == y.work.store.conflicts && y'.work.store.changes == y.work.store.changes[id := y'.flight.value]
    ensures y'.flight.value == y.work.store.changes[id].(attempts := y.work.store.changes[id].attempts + 1, status := Syncing)
  {
    var candidates := [y.work.store.changes[id]];
    var (s1, first) := Begin(y.work.store, candidates[0]);
    assert BeginAll(s1, candidates[1..]) == (s1, []);
    assert first + [] == first;
    assert y'.attempted[|y.attempted|].id == id;
  }

  ghost predicate CreateSent(y: System) {
    && Sent(y, 1) && y.server == SERVER && Local(y.work.store, None, 1, {1}) && y.work.store.conflicts == map[]
    && y.flight.value.kind == CreateNote && y.flight.value.base == None
  }

  lemma SendCreate(y: System, y': System)
    requires Created(y) && y' == Advance(y, DEVICE, Start(1))
    ensures CreateSent(y')
  {
    StartSends(y, 1, y');
  }

  ghost predicate CreateAnswered(y: System, r: PushResult) {
    && y.flight.Some? && y.flight.value.id == 1 && y.work.store.changes.Keys == {1} && y.work.store.changes[1] == y.flight.value
    && y.flight.value.status == Syncing && y.flight.value.base == None
    && (forall k :: 0 <= k < |y.attempted| ==> y.attempted[k].id <= 1)
    && Remote(y.server, 1, {1}) && Local(y.work.store, None, 1, {1}) && y.work.store.conflicts == map[]
    && (Wire(y.flight.value), r) in y.answers && r.Accepted? && r.operationId == 1 && r.version.id == 1
  }

  lemma CreationAccepted(i: Server.SyncInput)
    requires i == Server.SyncInput(1, 1, 1, i.change, 1) && i.change.kind == CreateNote && i.change.operationId == 1
    requires i.change.noteId == 1 && i.change.payload.Some?
    ensures var (t, p) := Server.Process(SERVER, i);
      Remote(t, 1, {1}) && p.Done? && p.accepted && !p.replayed && p.version.id == 1
  {
  }

  lemma DeliverCreate(y: System, y': System) returns (r: PushResult)
    requires CreateSent(y) && y' == Advance(y, DEVICE, Deliver(Wire(y.flight.value), 1))
    ensures CreateAnswered(y', r)
  {
    var request := Wire(y.flight.value);
    var i := Server.SyncInput(1, 1, 1, request, 1);
    CreationAccepted(i);
    r := Server.Answer(1, Server.Process(SERVER, i).1).value;
    assert (request, r) in y'.answers;
  }

  lemma ReceiveApplies(y: System, r: PushResult, now: int, y': System)
    requires y.flight.Some? && (Wire(y.flight.value), r) in y.answers && r.operationId == y.flight.value.id
    requires y' == Advance(y, DEVICE, Receive(r, now))
    ensures y' == y.(work := y'.work, flight := None)
    ensures y'.work.store == ApplyResult(y.work.store, 1, y.flight.value, Some(r), now)
  {
    SyncSafety.SingleResult(y.work.store, 1, y.flight.value, [r], now);
    SyncSafety.AnswerFound(r, y.flight.value.id);
  }

  lemma AcceptHere(s: Store, p: PendingChange, r: PushResult, s': Store)
    requires Local(s, None, 1, {1}) && s.conflicts == map[] && p == s.changes[1] && p.status == Syncing
    requires r.Accepted? && r.version.id == 1 && s' == ApplyResult(s, 1, p, Some(r), 2)
    ensures Local(s', Some(1), 1, {1}) && s'.conflicts == map[] && s'.changes[1].status == Synced
  {
  }

  ghost predicate InSyncThere(y: System) {
    && y.flight.None? && (forall k :: 0 <= k < |y.attempted| ==> y.attempted[k].id <= 1)
    && Remote(y.server, 1, {1}) && Local(y.work.store, Some(1), 1, {1}) && y.work.store.conflicts == map[]
    && y.work.store.changes[1].status == Synced
  }

  lemma ReceiveCreate(y: System, r: PushResult, y': System)
    requires CreateAnswered(y, r) && y' == Advance(y, DEVICE, Receive(r, 2))
    ensures InSyncThere(y')
  {
    ReceiveApplies(y, r, 2, y');
    AcceptHere(y.work.store, y.flight.value, r, y'.work.store);
  }

  ghost predicate Edited(y: System, current: Id) {
    && y.flight.None? && (forall k :: 0 <= k < |y.attempted| ==> y.attempted[k].id <= 1)
    && Remote(y.server, current, {1}) && Local(y.work.store, Some(1), 2, {1, 2}) && y.work.store.conflicts == map[]
    && y.work.store.changes[1].status == Synced && y.work.store.changes[2].status == Pending
    && y.work.store.changes[2].kind == UpdateNote && y.work.store.changes[2].base == Some(1)
  }

  lemma EditHere(s: Store, e: Envelope, s': Store)
    requires Local(s, Some(1), 1, {1}) && s.conflicts == map[] && s.changes[1].status == Synced
    requires UpTo(Some(e), 2) && e.envelopeVersion == 2 && s' == LocalStore.Edit(s, 1, SECOND, e, Some(1), None, 2, 3)
    ensures Local(s', Some(1), 2, {1, 2}) && s'.conflicts == map[] && s'.changes[1].status == Synced
    ensures s'.changes[2].status == Pending && s'.changes[2].kind == UpdateNote && s'.changes[2].base == Some(1)
  {
    ShortIsValid(SECOND);
  }

  lemma EditPerforms(w: Work) returns (e: Envelope)
    requires Local(w.store, Some(1), 1, {1}) && w.store.changes[1].status == Synced
    ensures UpTo(Some(e), 2) && e.envelopeVersion == 2
    ensures Perform(w, DEVICE.key, EditEncrypted(1, SECOND, 2, 1, None, 2, 3)).store == LocalStore.Edit(w.store, 1, SECOND, e, Some(1), None, 2, 3)
  {
    ShortIsValid(SECOND);
    ShortSeals(SECOND, Context(1, 1, 2), 2);
    e := Seal(SECOND, 1, Context(1, 1, 2), 2).value;
  }

  lemma Edit(y: System, y': System)
    requires InSyncThere(y) && y' == Advance(y, DEVICE, User(EditEncrypted(1, SECOND, 2, 1, None, 2, 3)))
    ensures Edited(y', 1)
  {
    var e := EditPerforms(y.work);
    EditHere(y.work.store, e, y'.work.store);
  }

  /** What the other member writes meanwhile. */
  const OTHERS: Server.DirectVersion := Server.DirectVersion(2, 2, StoredPayload("AES-GCM", Foreign([]), 2, "workspace-key-v1", 9), None)

  lemma EditedThere(y: System, y': System)
    requires Edited(y, 1) && y' == Advance(y, DEVICE, Environment(Server.AppendStep(1, 1, OTHERS)))
    ensures Edited(y', 2)
  {
  }

  ghost predicate UpdateSent(y: System) {
    && Sent(y, 2) && Remote(y.server, 2, {1}) && Local(y.work.store, Some(1), 2, {1, 2}) && y.work.store.conflicts == map[]
    && y.work.store.changes[1].status == Synced && y.flight.value.kind == UpdateNote && y.flight.value.base == Some(1)
  }

  lemma SendUpdate(y: System, y': System)
    requires Edited(y, 2) && y' == Advance(y, DEVICE, Start(2))
    ensures UpdateSent(y')
  {
    StartSends(y, 2, y');
  }

  ghost predicate UpdateAnswered(y: System, r: PushResult) {
    && y.flight.Some? && y.flight.value.id == 2 && 2 in y.work.store.changes && y.work.store.changes[2] == y.flight.value
    && y.flight.value.status == Syncing
    && Local(y.work.store, Some(1), 2, {1, 2}) && y.work.store.conflicts == map[] && y.work.store.changes[1].status == Synced
    && (Wire(y.flight.value), r) in y.answers && r.Conflict? && r.operationId == 2 && r.remote.id == 2
  }

  lemma UpdateConflicts(t: Server.Tables, i: Server.SyncInput)
    requires Remote(t, 2, {1}) && i == Server.SyncInput(1, 1, 1, i.change, 3) && i.change.kind == UpdateNote
    requires i.change.operationId == 2 && i.change.noteId == 1 && i.change.base == Some(1)
    ensures var p := Server.Process(t, i).1; p.Done? && !p.accepted && !p.replayed && p.version.id == 2
  {
  }

  lemma DeliverUpdate(y: System, y': System) returns (r: PushResult)
    requires UpdateSent(y) && y' == Advance(y, DEVICE, Deliver(Wire(y.flight.value), 3))
    ensures UpdateAnswered(y', r)
  {
    var request := Wire(y.flight.value);
    var i := Server.SyncInput(1, 1, 1, request, 3);
    UpdateConflicts(y.server, i);
    r := Server.Answer(2, Server.Process(y.server, i).1).value;
    assert (request, r) in y'.answers;
  }

  ghost predicate Conflicting(y: System) {
    && Local(y.work.store, Some(1), 2, {1, 2}) && y.work.store.conflicts.Keys == {ConflictKey(2, 2)}
    && var c := y.work.store.conflicts[ConflictKey(2, 2)];
    c.noteId == 1 && c.workspaceId == 1 && c.settlement == Unresolved
  }

  lemma ConflictHere(s: Store, p: PendingChange, r: PushResult, s': Store)
    requires Local(s, Some(1), 2, {1, 2}) && s.conflicts == map[] && s.changes[1].status == Synced && p == s.changes[2]
    requires p.status == Syncing && r.Conflict? && r.remote.id == 2 && s' == ApplyResult(s, 1, p, Some(r), 4)
    ensures Local(s', Some(1), 2, {1, 2}) && s'.conflicts.Keys == {ConflictKey(2, 2)}
    ensures var c := s'.conflicts[ConflictKey(2, 2)]; c.noteId == 1 && c.workspaceId == 1 && c.settlement == Unresolved
  {
    assert Spread(s, s.changes[2]) == {};
    assert {2} + Spread(s, s.changes[2]) == {2};
    assert ConflictRows(s.changes, {2}, 1, r.remote, 4).Keys == {ConflictKey(2, 2)};
  }

  lemma ReceiveConflict(y: System, r: PushResult, y': System)
    requires UpdateAnswered(y, r) && y' == Advance(y, DEVICE, Receive(r, 4))
    ensures Conflicting(y')
  {
    ReceiveApplies(y, r, 4, y');
    ConflictHere(y.work.store, y.flight.value, r, y'.work.store);
  }

  lemma CanKeep(s: Store, e: Option<Envelope>)
    requires s.conflicts.Keys == {ConflictKey(2, 2)} && Local(s, Some(1), 2, {1, 2})
    requires s.conflicts[ConflictKey(2, 2)].noteId == 1 && s.conflicts[ConflictKey(2, 2)].workspaceId == 1
    requires s.conflicts[ConflictKey(2, 2)].settlement == Unresolved
    ensures CanResolve(s, ConflictKey(2, 2), KeepLocal, e, 3, 3)
  {
    assert IsLatest(s, ConflictKey(2, 2), 1);
    assert ChangesOf(s, 1) == {1, 2};
    assert IsNextRevision(s, 1, 3);
  }

  /** The queued change opens for no key to no document. */
  ghost predicate OpensForNobody(c: PendingChange) {
    forall key, d :: !Holds(c.payload, key, ChangeContext(c), d)
  }

  lemma ResolvePerforms(w: Work, k: ConflictKey, a: Action, d: Document, nonce: nat, next: nat, id: Id, now: int, e: Option<Envelope>)
    requires k in w.store.conflicts && e.Some? && CanResolve(w.store, k, a, e, next, id)
    requires e == Seal(d, DEVICE.key, Context(w.store.conflicts[k].workspaceId, w.store.conflicts[k].noteId, next), nonce)
    ensures Perform(w, DEVICE.key, ResolveEncrypted(k, a, d, nonce, next, id, now)).store == Resolve(w.store, k, a, e, Some(next), next, id, now)
  {
  }

  lemma KeepQueues(s: Store, e: Option<Envelope>, s': Store)
    requires CanResolve(s, ConflictKey(2, 2), KeepLocal, e, 3, 3) && s.conflicts[ConflictKey(2, 2)].noteId == 1
    requires 1 in s.notes && s.notes[1].payload.Some?
    requires s' == Resolve(s, ConflictKey(2, 2), KeepLocal, e, Some(3), 3, 3, 5)
    ensures 3 in s'.changes && s'.changes[3].status == Pending && s'.changes[3].revision == 3
    ensures s'.changes[3].payload == s.notes[1].payload
  {
  }

  lemma KeepPerforms(w: Work, s': Store)
    requires w.store.conflicts.Keys == {ConflictKey(2, 2)} && Local(w.store, Some(1), 2, {1, 2})
    requires w.store.conflicts[ConflictKey(2, 2)].noteId == 1 && w.store.conflicts[ConflictKey(2, 2)].workspaceId == 1
    requires w.store.conflicts[ConflictKey(2, 2)].settlement == Unresolved
    requires s' == Perform(w, DEVICE.key, ResolveEncrypted(ConflictKey(2, 2), KeepLocal, SECOND, 3, 3, 3, 5)).store
    ensures 3 in s'.changes && s'.changes[3].status == Pending && s'.changes[3].revision == 3
      && s'.changes[3].payload == w.store.notes[1].payload
  {
    ShortIsValid(SECOND);
    ShortSeals(SECOND, Context(1, 1, 3), 3);
    var e := Seal(SECOND, 1, Context(1, 1, 3), 3);
    CanKeep(w.store, e);
    ResolvePerforms(w, ConflictKey(2, 2), KeepLocal, SECOND, 3, 3, 3, 5, e);
    KeepQueues(w.store, e, s');
  }

  lemma Keep(y: System, y': System)
    requires Conflicting(y) && y' == Advance(y, DEVICE, User(ResolveEncrypted(ConflictKey(2, 2), KeepLocal, SECOND, 3, 3, 3, 5)))
    ensures 3 in y'.work.store.changes && y'.work.store.changes[3].status == Pending && OpensForNobody(y'.work.store.changes[3])
  {
    KeepPerforms(y.work, y'.work.store);
    var c, stored := y'.work.store.changes[3], y.work.store.notes[1].payload;
    forall key, d ensures !Holds(c.payload, key, ChangeContext(c), d) {
      OldEnvelopeOpens(stored.value, 2, key, ChangeContext(c), d);
    }
  }

  // ---- The steps, one after another ----

  /** Nobody else does anything. */
  ghost predicate Alone(steps: seq<Step>) {
    forall a :: a in steps ==> !a.Environment?
  }

  lemma Then(y: System, first: seq<Step>, y1: System, second: seq<Step>, y2: System) returns (steps: seq<Step>)
    requires y1 == Execute(y, DEVICE, first) && y2 == Execute(y1, DEVICE, second)
    ensures y2 == Execute(y, DEVICE, steps) && (Alone(first) && Alone(second) ==> Alone(steps))
  {
    ExecuteConcat(y, DEVICE, first, second);
    steps := first + second;
  }

  lemma DoCreate(y: System) returns (steps: seq<Step>, y': System)
    requires y == Fresh(SERVER)
    ensures y' == Execute(y, DEVICE, steps) && Alone(steps) && Created(y')
  {
    var step := User(CreateEncrypted(1, 1, FIRST, 1, 1, 1));
    steps := [step];
    ExecuteOne(y, DEVICE, step);
    y' := Advance(y, DEVICE, step);
    Create(y, y');
  }

  lemma DoSendCreate(y: System) returns (steps: seq<Step>, y': System)
    requires Created(y)
    ensures y' == Execute(y, DEVICE, steps) && Alone(steps) && CreateSent(y')
  {
    steps := [Start(1)];
    ExecuteOne(y, DEVICE, Start(1));
    y' := Advance(y, DEVICE, Start(1));
    SendCreate(y, y');
  }

  lemma DoDeliverCreate(y: System) returns (steps: seq<Step>, r: PushResult, y': System)
    requires CreateSent(y)
    ensures y' == Execute(y, DEVICE, steps) && Alone(steps) && CreateAnswered(y', r)
  {
    var step := Deliver(Wire(y.flight.value), 1);
    steps := [step];
    ExecuteOne(y, DEVICE, step);
    y' := Advance(y, DEVICE, step);
    r := DeliverCreate(y, y');
  }

  lemma DoReceiveCreate(y: System, r: PushResult) returns (steps: seq<Step>, y': System)
    requires CreateAnswered(y, r)
    ensures y' == Execute(y, DEVICE, steps) && Alone(steps) && InSyncThere(y')
  {
    steps := [Receive(r, 2)];
    ExecuteOne(y, DEVICE, Receive(r, 2));
    y' := Advance(y, DEVICE, Receive(r, 2));
    ReceiveCreate(y, r, y');
  }

  lemma DoEdit(y: System) returns (steps: seq<Step>, y': System)
    requires InSyncThere(y)
    ensures y' == Execute(y, DEVICE, steps) && Alone(steps) && Edited(y', 1)
  {
    var step := User(EditEncrypted(1, SECOND, 2, 1, None, 2, 3));
    steps := [step];
    ExecuteOne(y, DEVICE, step);
    y' := Advance(y, DEVICE, step);
    Edit(y, y');
  }

  lemma FirstHalf() returns (steps: seq<Step>, y: System)
    ensures y == Execute(Fresh(SERVER), DEVICE, steps) && Edited(y, 1) && Alone(steps)
  {
    var y0 := Fresh(SERVER);
    var a, y1 := DoCreate(y0);
    var b, y2 := DoSendCreate(y1);
    var c, r, y3 := DoDeliverCreate(y2);
    var d, y4 := DoReceiveCreate(y3, r);
    var e;
    e, y := DoEdit(y4);
    steps := Then(y0, a, y1, b, y2);
    steps := Then(y0, steps, y2, c, y3);
    steps := Then(y0, steps, y3, d, y4);
    steps := Then(y0, steps, y4, e, y);
  }

  lemma SecondHalf(y5: System) returns (steps: seq<Step>, y: System)
    requires Edited(y5, 1)
    ensures y == Execute(y5, DEVICE, steps)
    ensures 3 in y.work.store.changes && y.work.store.changes[3].status == Pending && OpensForNobody(y.work.store.changes[3])
  {
    var y6 := Advance(y5, DEVICE, Environment(Server.AppendStep(1, 1, OTHERS)));
    EditedThere(y5, y6);
    var y7 := Advance(y6, DEVICE, Start(2));
    SendUpdate(y6, y7);
    var y8 := Advance(y7, DEVICE, Deliver(Wire(y7.flight.value), 3));
    var r := DeliverUpdate(y7, y8);
    var y9 := Advance(y8, DEVICE, Receive(r, 4));
    ReceiveConflict(y8, r, y9);
    y := Advance(y9, DEVICE, User(ResolveEncrypted(ConflictKey(2, 2), KeepLocal, SECOND, 3, 3, 3, 5)));
    Keep(y9, y);
    var a, b, c := Environment(Server.AppendStep(1, 1, OTHERS)), Start(2), Deliver(Wire(y7.flight.value), 3);
    var d, e := Receive(r, 4), User(ResolveEncrypted(ConflictKey(2, 2), KeepLocal, SECOND, 3, 3, 3, 5));
    FiveSteps(y5, a, b, c, d, e);
    steps := [a, b, c, d, e];
  }

  /** From an empty device and server, create, sync, edit, let another member edit, sync into the conflict, and keep the
      local text: the change then queued opens for nobody. */
  lemma ReachesUnopenable() returns (steps: seq<Step>, y: System)
    ensures ServerInvariants.Inv(SERVER) && y == Execute(Fresh(SERVER), DEVICE, steps)
    ensures 3 in y.work.store.changes && y.work.store.changes[3].status == Pending && OpensForNobody(y.work.store.changes[3])
  {
    var first, y5 := FirstHalf();
    var second;
    second, y := SecondHalf(y5);
    ExecuteConcat(Fresh(SERVER), DEVICE, first, second);
    steps := first + second;
  }

  lemma FiveSteps(y: System, a: Step, b: Step, c: Step, d: Step, e: Step)
    ensures Execute(y, DEVICE, [a, b, c, d, e]) ==
      Advance(Advance(Advance(Advance(Advance(y, DEVICE, a), DEVICE, b), DEVICE, c), DEVICE, d), DEVICE, e)
  {
    ExecuteOne(y, DEVICE, a);
    ExecuteSnoc(y, DEVICE, [a], b);
    assert [a] + [b] == [a, b];
    ExecuteSnoc(y, DEVICE, [a, b], c);
    assert [a, b] + [c] == [a, b, c];
    ExecuteSnoc(y, DEVICE, [a, b, c], d);
    assert [a, b, c] + [d] == [a, b, c, d];
    ExecuteSnoc(y, DEVICE, [a, b, c, d], e);
    assert [a, b, c, d] + [e] == [a, b, c, d, e];
  }
}
