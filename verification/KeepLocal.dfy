/** When a change that keep_local queues can be opened. It prefers the stored local envelope, which was sealed for an
    earlier revision, over the one made for the resolution. */
module KeepLocal {
  import opened Wrappers
  import opened Envelopes
  import opened SyncTypes
  import opened LocalStore
  import opened SealedWork
  import opened SyncSystem
  import opened SyncSafety
  import opened Workspaces
  import Migration
  import StoreInvariants
  import Server = ServerTables

  // ---- No stored envelope authenticates a revision above its row's ----

  /** A version 2 envelope of a note's metadata. */
  predicate Authenticates(payload: Option<Envelope>) {
    payload.Some? && payload.value.envelopeVersion == 2 && payload.value.ciphertext.Sealed?
    && payload.value.ciphertext.data.NoteData?
  }

  predicate UpTo(payload: Option<Envelope>, r: nat) {
    Authenticates(payload) ==> payload.value.ciphertext.data.context.revision <= r
  }

  ghost predicate NotesDated(notes: map<Id, LocalNote>) {
    forall n :: n in notes ==> UpTo(notes[n].payload, notes[n].revision)
  }

  ghost predicate ChangesDated(changes: map<Id, PendingChange>) {
    forall id :: id in changes ==> UpTo(changes[id].payload, changes[id].revision)
  }

  ghost predicate RowsDated(conflicts: map<ConflictKey, LocalConflict>) {
    forall k :: k in conflicts ==> UpTo(conflicts[k].payload, conflicts[k].revision)
  }

  ghost predicate Dated(s: Store) {
    NotesDated(s.notes) && ChangesDated(s.changes) && RowsDated(s.conflicts)
  }

  /** An envelope handed to a transaction is sealed for at most the revision it will have there, as every encrypting
      operation sees to. */
  predicate SealsOwn(s: Store, step: LocalStep) {
    match step
    case CreateStep(_, _, _, e, _, _) => UpTo(Some(e), 1)
    case EditStep(n, _, e, _, _, _, _) => n in s.notes ==> UpTo(Some(e), s.notes[n].revision + 1)
    case StorePayloadStep(_, r, e) => UpTo(Some(e), r)
    case ResolveStep(_, _, e, _, next, _, _) => UpTo(e, next)
    case _ => true
  }

  lemma LaterIsDated(payload: Option<Envelope>, r: nat, later: nat)
    requires UpTo(payload, r) && r <= later
    ensures UpTo(payload, later)
  {
  }

  // ---- The transactions ----

  lemma WritesKeepDated(s: Store, step: LocalStep, s': Store)
    requires Dated(s) && SealsOwn(s, step) && s' == LocalStore.Next(s, step)
    requires step.CreateStep? || step.EditStep? || step.DeleteStep? || step.StorePayloadStep?
    ensures Dated(s')
  {
  }

  lemma ResolveKeepsDated(s: Store, k: ConflictKey, a: Action, e: Option<Envelope>, expected: Option<nat>, next: nat, id: Id, now: int, s': Store)
    requires StoreInvariants.Inv(s) && Dated(s) && UpTo(e, next) && s' == Resolve(s, k, a, e, expected, next, id, now)
    ensures Dated(s')
  {
    if s' != s {
      var c := s.conflicts[k];
      var note := s.notes[c.noteId];
      assert note.revision < next && c.revision <= note.revision;
      LaterIsDated(note.payload, note.revision, next);
      LaterIsDated(c.payload, c.revision, next);
      assert UpTo(ResolutionPayload(note, c, a, e), next);
      assert NotesDated(s'.notes);
      assert ChangesDated(s'.changes);
      assert RowsDated(s'.conflicts);
    }
  }

  lemma RecordKeepsDated(s: Store, ids: set<Id>, w: Id, remote: Version, now: int, s': Store)
    requires Dated(s) && ids <= s.changes.Keys && s' == RecordConflicts(s, ids, w, remote, now)
    ensures Dated(s')
  {
    forall k | k in s'.conflicts ensures UpTo(s'.conflicts[k].payload, s'.conflicts[k].revision) {
      StoreInvariants.RowOf(s.changes, ids, w, remote, now, k);
    }
  }

  lemma AcceptedKeepsDated(s: Store, w: Id, p: PendingChange, v: Version, s': Store)
    requires Dated(s) && p.id in s.changes && s' == ApplyAccepted(s, w, p, v)
    ensures Dated(s')
  {
  }

  lemma ResultKeepsDated(s: Store, w: Id, p: PendingChange, r: Option<PushResult>, now: int, s': Store)
    requires Dated(s) && s' == ApplyResult(s, w, p, r, now)
    ensures Dated(s')
  {
    if p.id in s.changes && r.Some? {
      if AnswersAccepted(r.value) {
        AcceptedKeepsDated(s, w, p, r.value.version, s');
      } else if !r.value.Rejected? {
        RecordKeepsDated(s, {p.id} + Spread(s, s.changes[p.id]), w, r.value.remote, now, s');
      }
    }
  }

  lemma {:induction false} ResultsKeepDated(s: Store, w: Id, attempted: seq<PendingChange>, results: seq<PushResult>, now: int, s': Store)
    requires Dated(s) && s' == ApplyResults(s, w, attempted, results, now)
    ensures Dated(s')
    decreases |attempted|
  {
    if attempted != [] {
      var r := ResultFor(results, attempted[0].id);
      var s1 := ApplyResult(s, w, attempted[0], r, now);
      ResultKeepsDated(s, w, attempted[0], r, now, s1);
      ResultsKeepDated(s1, w, attempted[1..], results, now, s');
    }
  }

  lemma {:induction false} PulledKeepsDated(s: Store, w: Id, ps: seq<PullChange>, now: int, s': Store)
    requires Dated(s) && s' == ApplyPulledAll(s, w, ps, now)
    ensures Dated(s')
    decreases |ps|
  {
    if ps != [] {
      var s1 := ApplyPulled(s, w, ps[0], now);
      if Waiting(s, ps[0].note.id) != {} { RecordKeepsDated(s, Diverging(s, ps[0]), w, ps[0].version, now, s1); }
      PulledKeepsDated(s1, w, ps[1..], now, s');
    }
  }

  lemma {:induction false} BeginKeepsDated(s: Store, candidates: seq<PendingChange>, s': Store)
    requires Dated(s) && s' == BeginAll(s, candidates).0
    ensures Dated(s')
    decreases |candidates|
  {
    if candidates != [] { BeginKeepsDated(Begin(s, candidates[0]).0, candidates[1..], s'); }
  }

  /** Every transaction that is handed such an envelope, or none, keeps them all so. */
  lemma StepKeepsDated(s: Store, step: LocalStep, s': Store)
    requires StoreInvariants.Inv(s) && Dated(s) && SealsOwn(s, step) && s' == LocalStore.Next(s, step)
    ensures Dated(s')
  {
    match step
    case ResolveStep(k, a, e, expected, next, id, now) => ResolveKeepsDated(s, k, a, e, expected, next, id, now, s');
    case ResultsStep(w, attempted, results, now) => ResultsKeepDated(s, w, attempted, results, now, s');
    case PullStep(page, now) =>
      PulledKeepsDated(s, page.workspaceId, page.changes, now, ApplyPulledAll(s, page.workspaceId, page.changes, now));
    case BeginStep(candidates) => BeginKeepsDated(s, candidates, s');
    case FailStep(_) =>
    case CacheStep(_) =>
    case CacheDetailStep(_, _) =>
    case _ => WritesKeepDated(s, step, s');
  }

  // ---- Migration ----

  lemma PreparedIsDated(d: Document, existing: Option<Envelope>, key: Key, context: Context, nonce: nat)
    requires UpTo(existing, context.revision)
    ensures UpTo(Migration.Prepare(d, existing, key, context, nonce), context.revision)
  {
  }

  lemma MovedNotesDated(snapshot: Store, s: Store, w: Id, key: Key, nonces: Migration.Nonces, plan: Migration.Plan)
    requires NotesDated(snapshot.notes) && NotesDated(s.notes)
    requires Migration.MakePlan(snapshot, w, key, nonces) == Some(plan) && Migration.Unchanged(s, w, plan)
    ensures NotesDated(Migration.MovedNotes(s.notes, plan.notes, plan.notes.Keys))
  {
    forall n | n in s.notes && n in plan.notes ensures UpTo(Some(plan.notes[n].envelope), s.notes[n].revision) {
      var a := snapshot.notes[n];
      PreparedIsDated(a.legacy.value, a.payload, key, Migration.NoteContext(a), nonces.notes(n));
      assert Migration.NoteUnchanged(s.notes, w, n, plan.notes[n]);
    }
  }

  lemma MovedChangesDated(snapshot: Store, s: Store, w: Id, key: Key, nonces: Migration.Nonces, plan: Migration.Plan)
    requires ChangesDated(snapshot.changes) && ChangesDated(s.changes)
    requires Migration.MakePlan(snapshot, w, key, nonces) == Some(plan) && Migration.Unchanged(s, w, plan)
    ensures ChangesDated(Migration.MovedChanges(s.changes, plan.changes, plan.changes.Keys))
  {
    forall id | id in s.changes && id in plan.changes ensures UpTo(Some(plan.changes[id].envelope), s.changes[id].revision) {
      var a := snapshot.changes[id];
      PreparedIsDated(a.legacy.value, a.payload, key, ChangeContext(a), nonces.changes(id));
      assert Migration.ChangeUnchanged(s.changes, w, id, plan.changes[id]);
    }
  }

  lemma MovedRowsDated(snapshot: Store, s: Store, w: Id, key: Key, nonces: Migration.Nonces, plan: Migration.Plan)
    requires RowsDated(snapshot.conflicts) && RowsDated(s.conflicts)
    requires StoreInvariants.RecordsMatch(snapshot.changes, snapshot.conflicts)
    requires Migration.RowsTrack(snapshot.changes, snapshot.conflicts, s.conflicts)
    requires Migration.MakePlan(snapshot, w, key, nonces) == Some(plan) && Migration.Unchanged(s, w, plan)
    ensures RowsDated(Migration.MovedConflicts(s.conflicts, plan.conflicts, plan.conflicts.Keys))
  {
    forall k | k in s.conflicts && k in plan.conflicts && plan.conflicts[k].local.Some?
      ensures UpTo(Some(plan.conflicts[k].local.value.envelope), s.conflicts[k].revision)
    {
      var a := snapshot.conflicts[k];
      PreparedIsDated(a.legacy.value, a.payload, key, Context(a.workspaceId, a.noteId, a.revision), nonces.locals(k));
      assert Migration.RowTracks(a, s.conflicts[k], snapshot.changes[k.changeId]);
    }
  }

  lemma MigrateKeepsDated(snapshot: Store, s: Store, w: Id, key: Key, nonces: Migration.Nonces, s': Store)
    requires Dated(snapshot) && Dated(s) && StoreInvariants.RecordsMatch(snapshot.changes, snapshot.conflicts)
    requires Migration.RowsTrack(snapshot.changes, snapshot.conflicts, s.conflicts)
    requires s' == Migration.Migrate(snapshot, s, w, key, nonces).0
    ensures Dated(s')
  {
    if s' != s {
      var plan := Migration.MakePlan(snapshot, w, key, nonces).value;
      MovedNotesDated(snapshot, s, w, key, nonces, plan);
      MovedChangesDated(snapshot, s, w, key, nonces, plan);
      MovedRowsDated(snapshot, s, w, key, nonces, plan);
    }
  }

  // ---- Runs of the system ----

  /** A user's raw transaction is handed envelopes of its own revision. */
  predicate Honest(y: System, step: Step) {
    step.User? && step.local.Plain? ==> SealsOwn(y.work.store, step.local.step)
  }

  ghost predicate AllHonest(y: System, device: Device, steps: seq<Step>)
    decreases |steps|
  {
    steps != [] ==> Honest(y, steps[0]) && AllHonest(Advance(y, device, steps[0]), device, steps[1..])
  }

  ghost predicate AllDated(y: System) {
    Dated(y.work.store) && forall p :: p in y.planned ==> Dated(p)
  }

  lemma LocalSealsOwn(w: Work, key: Key, step: WorkStep)
    requires UserStep(step) && SameWorkspace(w.store) && (step.Plain? ==> SealsOwn(w.store, step.step))
    requires AsLocal(w, key, step).Some?
    ensures Perform(w, key, step).store == w.store || SealsOwn(w.store, AsLocal(w, key, step).value)
  {
    PerformIsLocal(w, key, step);
  }

  lemma UserKeepsDated(w: Work, key: Key, step: WorkStep, s': Store)
    requires StoreOk(w.store) && Dated(w.store) && UserStep(step) && (step.Plain? ==> SealsOwn(w.store, step.step))
    requires s' == Perform(w, key, step).store
    ensures Dated(s')
  {
    PerformIsLocal(w, key, step);
    var local := AsLocal(w, key, step);
    if s' != w.store {
      LocalSealsOwn(w, key, step);
      StepKeepsDated(w.store, local.value, s');
    }
  }

  lemma AnswerKeepsDated(y: System, device: Device, step: Step, y': System)
    requires Bound(y.work, device.key) && SameWorkspace(y.work.store) && Dated(y.work.store)
    requires Enabled(y, device, step) && (step.Receive? || step.ReceiveNothing?) && y' == Advance(y, device, step)
    ensures Dated(y'.work.store)
  {
    ReceiveApplies(y, device, step, y');
    ResultKeepsDated(y.work.store, device.workspaceId, y.flight.value, Received(y, step), ReceivedAt(step), y'.work.store);
  }

  lemma PageKeepsDated(s: Store, page: PullPage, now: int, s': Store)
    requires Dated(s) && s' == ApplyPage(s, page, now)
    ensures Dated(s')
  {
    PulledKeepsDated(s, page.workspaceId, page.changes, now, ApplyPulledAll(s, page.workspaceId, page.changes, now));
  }

  lemma FailKeepsDated(s: Store, attempted: seq<PendingChange>)
    requires Dated(s)
    ensures Dated(FailAll(s, attempted))
  {
  }

  lemma CommitKeepsDated(y: System, device: Device, snapshot: Store, nonces: Migration.Nonces, s': Store)
    requires PlansTrack(y.planned, y.work.store) && AllDated(y) && snapshot in y.planned
    requires s' == Migration.Migrate(snapshot, y.work.store, device.workspaceId, device.key, nonces).0
    ensures Dated(s')
  {
    assert StoreOk(snapshot) && Migration.Tracks(snapshot, y.work.store);
    MigrateKeepsDated(snapshot, y.work.store, device.workspaceId, device.key, nonces, s');
  }

  /** The tables after a step other than an answer, as the step makes them of those before. */
  ghost predicate Makes(y: System, device: Device, step: Step, s': Store) {
    match step
    case User(w) => s' == Perform(y.work, device.key, w).store
    case Commit(snapshot, nonces) => s' == Migration.Migrate(snapshot, y.work.store, device.workspaceId, device.key, nonces).0
    case Start(id) => id in y.work.store.changes && s' == BeginAll(y.work.store, [y.work.store.changes[id]]).0
    case ReceivePage(page, now) => s' == ApplyPage(y.work.store, page, now)
    case Abort => s' == FailAll(y.work.store, y.attempted)
    case _ => s' == y.work.store
  }

  lemma AdvanceMakes(y: System, device: Device, step: Step)
    requires Enabled(y, device, step) && !step.Receive? && !step.ReceiveNothing?
    ensures Makes(y, device, step, Advance(y, device, step).work.store)
  {
  }

  lemma MadeIsDated(y: System, device: Device, step: Step, s': Store)
    requires StoreOk(y.work.store) && PlansTrack(y.planned, y.work.store) && AllDated(y) && Honest(y, step)
    requires Enabled(y, device, step) && !step.Receive? && !step.ReceiveNothing? && Makes(y, device, step, s')
    ensures Dated(s')
  {
    match step
    case User(w) => UserKeepsDated(y.work, device.key, w, s');
    case Commit(snapshot, nonces) => CommitKeepsDated(y, device, snapshot, nonces, s');
    case Start(id) => BeginKeepsDated(y.work.store, [y.work.store.changes[id]], s');
    case ReceivePage(page, now) => PageKeepsDated(y.work.store, page, now, s');
    case Abort => FailKeepsDated(y.work.store, y.attempted);
    case _ =>
  }

  lemma PlansStayDated(y: System, device: Device, step: Step)
    requires AllDated(y)
    ensures forall p :: p in Advance(y, device, step).planned ==> Dated(p)
  {
  }

  lemma AdvanceKeepsDated(y: System, device: Device, step: Step, y': System)
    requires StoreOk(y.work.store) && Bound(y.work, device.key) && PlansTrack(y.planned, y.work.store) && AllDated(y)
    requires Honest(y, step) && y' == Advance(y, device, step)
    ensures AllDated(y')
  {
    PlansStayDated(y, device, step);
    if Enabled(y, device, step) {
      if step.Receive? || step.ReceiveNothing? {
        AnswerKeepsDated(y, device, step, y');
      } else {
        AdvanceMakes(y, device, step);
        MadeIsDated(y, device, step, y'.work.store);
      }
    }
  }

  lemma {:induction false} ExecuteKeepsDated(y: System, device: Device, steps: seq<Step>, y': System)
    requires Inv(y, device) && AllDated(y) && AllHonest(y, device, steps) && y' == Execute(y, device, steps)
    ensures AllDated(y')
    decreases |steps|
  {
    if steps != [] {
      var y1 := Advance(y, device, steps[0]);
      AdvanceKeepsDated(y, device, steps[0], y1);
      AdvanceKeepsInv(y, device, steps[0], y1);
      ExecuteKeepsDated(y1, device, steps[1..], y');
    }
  }

  /** In every run, from tables of which it holds, no stored envelope of a note, a change or a conflict authenticates a
      revision above its row's. */
  lemma EnvelopesAreDated(t: Server.Tables, s0: Store, device: Device, steps: seq<Step>, y: System)
    requires Starts(t, s0, device) && Dated(s0) && AllHonest(Idling(t, s0), device, steps)
    requires y == Execute(Idling(t, s0), device, steps)
    ensures Dated(y.work.store) && StoreOk(y.work.store)
  {
    ReachableInv(t, s0, device, steps, y);
    ReachableInv(t, s0, device, [], Idling(t, s0));
    ExecuteKeepsDated(Idling(t, s0), device, steps, y);
  }

  // ---- When it opens ----

  lemma OldEnvelopeOpens(stored: Envelope, r: nat, key: Key, context: Context, d: Document)
    requires UpTo(Some(stored), r) && r < context.revision
    ensures Holds(Some(stored), key, context, d) <==> stored.envelopeVersion == 1 && Open(stored, key, None) == Some(d)
  {
  }

  /** What keep_local queues opens under its own revision exactly if neither the note nor the conflict stores an
      envelope and the one handed in opens under it, or the stored one is of version 1, which authenticates no revision,
      and opens at all. */
  lemma KeepLocalOpensExactly(s: Store, k: ConflictKey, e: Option<Envelope>, expected: Option<nat>, next: nat, id: Id, now: int,
                              key: Key, d: Document)
    requires StoreInvariants.Inv(s) && Dated(s) && CanResolve(s, k, KeepLocal, e, next, id)
    requires expected.Some? ==> expected.value == next
    ensures var c := Resolve(s, k, KeepLocal, e, expected, next, id, now).changes[id];
      && c.revision == next && c.noteId == s.conflicts[k].noteId && c.workspaceId == s.conflicts[k].workspaceId
      && (Holds(c.payload, key, ChangeContext(c), d) <==>
            match StoredLocal(s, k)
            case None => Holds(e, key, Context(s.conflicts[k].workspaceId, s.conflicts[k].noteId, next), d)
            case Some(stored) => stored.envelopeVersion == 1 && Open(stored, key, None) == Some(d))
  {
    var conflict := s.conflicts[k];
    var note := s.notes[conflict.noteId];
    assert note.revision < next && conflict.revision <= note.revision;
    if StoredLocal(s, k).Some? {
      LaterIsDated(conflict.payload, conflict.revision, note.revision);
      OldEnvelopeOpens(StoredLocal(s, k).value, note.revision, key, Context(conflict.workspaceId, conflict.noteId, next), d);
    }
  }

  lemma KeepLocalOfDocument(w: Work, key0: Key, k: ConflictKey, payload: Document, nonce: nat, next: nat, id: Id, now: int, key: Key, d: Document)
    requires StoreInvariants.Inv(w.store) && Dated(w.store) && k in w.store.conflicts
    requires var c := w.store.conflicts[k];
      var e := Seal(payload, key0, Context(c.workspaceId, c.noteId, next), nonce);
      e.Some? && CanResolve(w.store, k, KeepLocal, e, next, id)
    ensures var s' := Perform(w, key0, ResolveEncrypted(k, KeepLocal, payload, nonce, next, id, now)).store;
      id in s'.changes
      && (Holds(s'.changes[id].payload, key, ChangeContext(s'.changes[id]), d) <==>
            match StoredLocal(w.store, k)
            case None => key == key0 && d == payload
            case Some(stored) => stored.envelopeVersion == 1 && Open(stored, key, None) == Some(d))
  {
    var c := w.store.conflicts[k];
    var context := Context(c.workspaceId, c.noteId, next);
    KeepLocalOpensExactly(w.store, k, Seal(payload, key0, context, nonce), Some(next), next, id, now, key, d);
    SealedOpens(payload, key0, context, nonce, key, Some(context));
  }

  /** So in every run: resolving with keep_local and the document the user sees queues a change that opens to some
      document for some key exactly if no local envelope is stored, when it opens to that document under the device's
      key, or the stored one is of version 1. */
  lemma KeepLocalInAnyRun(t: Server.Tables, s0: Store, device: Device, steps: seq<Step>, y: System,
                          k: ConflictKey, payload: Document, nonce: nat, next: nat, id: Id, now: int, key: Key, d: Document)
    requires Starts(t, s0, device) && Dated(s0) && AllHonest(Idling(t, s0), device, steps)
    requires y == Execute(Idling(t, s0), device, steps) && k in y.work.store.conflicts
    requires var c := y.work.store.conflicts[k];
      var e := Seal(payload, device.key, Context(c.workspaceId, c.noteId, next), nonce);
      e.Some? && CanResolve(y.work.store, k, KeepLocal, e, next, id)
    ensures var s' := Perform(y.work, device.key, ResolveEncrypted(k, KeepLocal, payload, nonce, next, id, now)).store;
      id in s'.changes
      && (Holds(s'.changes[id].payload, key, ChangeContext(s'.changes[id]), d) <==>
            match StoredLocal(y.work.store, k)
            case None => key == device.key && d == payload
            case Some(stored) => stored.envelopeVersion == 1 && Open(stored, key, None) == Some(d))
  {
    EnvelopesAreDated(t, s0, device, steps, y);
    KeepLocalOfDocument(y.work, device.key, k, payload, nonce, next, id, now, key, d);
  }
}
