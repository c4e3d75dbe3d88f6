/** Moving a workspace's legacy plaintext into envelopes: planned on one reading of the tables, committed on
    whatever they have become. */
module Migration {
  import opened Wrappers
  import opened Envelopes
  import opened SyncTypes
  import opened LocalStore
  import StoreInvariants

  /** The envelope that will hold a row's plaintext, the plaintext, and the revision it was planned at. */
  datatype Planned = Planned(envelope: Envelope, document: Document, revision: nat)

  datatype PlannedConflict = PlannedConflict(local: Option<Planned>, resolved: Option<Planned>)

  datatype Plan = Plan(
    notes: map<Id, Planned>, changes: map<Id, Planned>, conflicts: map<ConflictKey, PlannedConflict>)

  /** The nonces drawn for the rows that have no envelope yet. */
  datatype Nonces = Nonces(notes: Id -> nat, changes: Id -> nat, locals: ConflictKey -> nat, resolutions: ConflictKey -> nat)

  // ---- Planning ----

  /** `prepareEnvelope`: seal the plaintext, or check that the envelope there already holds it. None where it throws. */
  function Prepare(d: Document, existing: Option<Envelope>, key: Key, context: Context, nonce: nat): Option<Envelope> {
    match existing
    case None => Seal(d, key, context, nonce)
    case Some(e) => if Open(e, key, Some(context)) == Some(d) then Some(e) else None
  }

  predicate NoteToMove(s: Store, w: Id, n: Id) {
    n in s.notes && s.notes[n].workspaceId == w && s.notes[n].legacy.Some?
  }

  predicate ChangeToMove(s: Store, w: Id, id: Id) {
    id in s.changes && s.changes[id].workspaceId == w && s.changes[id].legacy.Some?
  }

  predicate ConflictToMove(s: Store, w: Id, k: ConflictKey) {
    k in s.conflicts && s.conflicts[k].workspaceId == w && (s.conflicts[k].legacy.Some? || s.conflicts[k].resolvedLegacy.Some?)
  }

  predicate NoPlaintext(s: Store, w: Id) {
    && (forall n :: n in s.notes ==> !NoteToMove(s, w, n))
    && (forall id :: id in s.changes ==> !ChangeToMove(s, w, id))
    && (forall k :: k in s.conflicts ==> !ConflictToMove(s, w, k))
  }

  function NoteContext(n: LocalNote): Context {
    Context(n.workspaceId, n.id, n.revision)
  }

  /** The revision of a conflict's resolution: that of the change which settled it, where the workspace has it. */
  function ResolvedRevision(s: Store, c: LocalConflict): nat {
    if c.settlement.Settled? && c.settlement.changeId in s.changes
       && s.changes[c.settlement.changeId].workspaceId == c.workspaceId
    then s.changes[c.settlement.changeId].revision else c.revision
  }

  function PreparedNote(s: Store, key: Key, nonces: Nonces, n: Id): Option<Envelope>
    requires n in s.notes && s.notes[n].legacy.Some?
  {
    Prepare(s.notes[n].legacy.value, s.notes[n].payload, key, NoteContext(s.notes[n]), nonces.notes(n))
  }

  function PreparedChange(s: Store, key: Key, nonces: Nonces, id: Id): Option<Envelope>
    requires id in s.changes && s.changes[id].legacy.Some?
  {
    Prepare(s.changes[id].legacy.value, s.changes[id].payload, key, ChangeContext(s.changes[id]), nonces.changes(id))
  }

  function PreparedLocal(s: Store, key: Key, nonces: Nonces, k: ConflictKey): Option<Envelope>
    requires k in s.conflicts && s.conflicts[k].legacy.Some?
  {
    var c := s.conflicts[k];
    Prepare(c.legacy.value, c.payload, key, Context(c.workspaceId, c.noteId, c.revision), nonces.locals(k))
  }

  function PreparedResolution(s: Store, key: Key, nonces: Nonces, k: ConflictKey): Option<Envelope>
    requires k in s.conflicts && s.conflicts[k].resolvedLegacy.Some?
  {
    var c := s.conflicts[k];
    Prepare(c.resolvedLegacy.value, c.resolved, key, Context(c.workspaceId, c.noteId, ResolvedRevision(s, c)), nonces.resolutions(k))
  }

  predicate ConflictPreparable(s: Store, key: Key, nonces: Nonces, k: ConflictKey)
    requires k in s.conflicts
  {
    && (s.conflicts[k].legacy.Some? ==> PreparedLocal(s, key, nonces, k).Some?)
    && (s.conflicts[k].resolvedLegacy.Some? ==> PreparedResolution(s, key, nonces, k).Some?)
  }

  predicate Preparable(s: Store, w: Id, key: Key, nonces: Nonces) {
    && (forall n :: n in s.notes && NoteToMove(s, w, n) ==> PreparedNote(s, key, nonces, n).Some?)
    && (forall id :: id in s.changes && ChangeToMove(s, w, id) ==> PreparedChange(s, key, nonces, id).Some?)
    && (forall k :: k in s.conflicts && ConflictToMove(s, w, k) ==> ConflictPreparable(s, key, nonces, k))
  }

  function PlanConflict(s: Store, key: Key, nonces: Nonces, k: ConflictKey): PlannedConflict
    requires k in s.conflicts && ConflictPreparable(s, key, nonces, k)
  {
    var c := s.conflicts[k];
    PlannedConflict(
      if c.legacy.None? then None else Some(Planned(PreparedLocal(s, key, nonces, k).value, c.legacy.value, c.revision)),
      if c.resolvedLegacy.None? then None
      else Some(Planned(PreparedResolution(s, key, nonces, k).value, c.resolvedLegacy.value, ResolvedRevision(s, c))))
  }

  /** The plan, or None where preparing it throws. */
  function MakePlan(s: Store, w: Id, key: Key, nonces: Nonces): Option<Plan> {
    if !Preparable(s, w, key, nonces) then None
    else
      Some(Plan(
        map n | n in s.notes && NoteToMove(s, w, n) ::
          Planned(PreparedNote(s, key, nonces, n).value, s.notes[n].legacy.value, s.notes[n].revision),
        map id | id in s.changes && ChangeToMove(s, w, id) ::
          Planned(PreparedChange(s, key, nonces, id).value, s.changes[id].legacy.value, s.changes[id].revision),
        map k | k in s.conflicts && ConflictToMove(s, w, k) :: PlanConflict(s, key, nonces, k)))
  }

  // ---- Commit ----

  predicate NoteUnchanged(notes: map<Id, LocalNote>, w: Id, n: Id, p: Planned) {
    n in notes && notes[n].workspaceId == w && notes[n].revision == p.revision && notes[n].legacy == Some(p.document)
  }

  predicate ChangeUnchanged(changes: map<Id, PendingChange>, w: Id, id: Id, p: Planned) {
    id in changes && changes[id].workspaceId == w && changes[id].revision == p.revision && changes[id].legacy == Some(p.document)
  }

  function DocumentOf(p: Option<Planned>): Option<Document> {
    if p.Some? then Some(p.value.document) else None
  }

  /** A conflict row is compared by its two plaintexts alone. */
  predicate ConflictUnchanged(conflicts: map<ConflictKey, LocalConflict>, w: Id, k: ConflictKey, p: PlannedConflict) {
    k in conflicts && conflicts[k].workspaceId == w
    && conflicts[k].legacy == DocumentOf(p.local) && conflicts[k].resolvedLegacy == DocumentOf(p.resolved)
  }

  predicate Unchanged(s: Store, w: Id, plan: Plan) {
    && (forall n :: n in plan.notes ==> NoteUnchanged(s.notes, w, n, plan.notes[n]))
    && (forall id :: id in plan.changes ==> ChangeUnchanged(s.changes, w, id, plan.changes[id]))
    && (forall k :: k in plan.conflicts ==> ConflictUnchanged(s.conflicts, w, k, plan.conflicts[k]))
  }

  function Or(current: Option<Envelope>, planned: Option<Planned>): Option<Envelope> {
    if current.Some? then current else if planned.Some? then Some(planned.value.envelope) else None
  }

  function MovedNote(n: LocalNote, p: Planned): LocalNote {
    n.(payload := Or(n.payload, Some(p)), legacy := None)
  }

  function MovedChange(c: PendingChange, p: Planned): PendingChange {
    c.(payload := Or(c.payload, Some(p)), legacy := None)
  }

  function MovedConflict(c: LocalConflict, p: PlannedConflict): LocalConflict {
    c.(payload := Or(c.payload, p.local), legacy := None, resolved := Or(c.resolved, p.resolved), resolvedLegacy := None)
  }

  /** The rows of a table after those in `done` were moved. */
  function MovedNotes(notes: map<Id, LocalNote>, plan: map<Id, Planned>, done: set<Id>): map<Id, LocalNote> {
    map n | n in notes :: if n in done && n in plan then MovedNote(notes[n], plan[n]) else notes[n]
  }

  function MovedChanges(changes: map<Id, PendingChange>, plan: map<Id, Planned>, done: set<Id>): map<Id, PendingChange> {
    map id | id in changes :: if id in done && id in plan then MovedChange(changes[id], plan[id]) else changes[id]
  }

  function MovedConflicts(conflicts: map<ConflictKey, LocalConflict>, plan: map<ConflictKey, PlannedConflict>, done: set<ConflictKey>)
    : map<ConflictKey, LocalConflict>
  {
    map k | k in conflicts :: if k in done && k in plan then MovedConflict(conflicts[k], plan[k]) else conflicts[k]
  }

  function Move(s: Store, plan: Plan): Store {
    s.(notes := MovedNotes(s.notes, plan.notes, plan.notes.Keys),
       changes := MovedChanges(s.changes, plan.changes, plan.changes.Keys),
       conflicts := MovedConflicts(s.conflicts, plan.conflicts, plan.conflicts.Keys))
  }

  /** The transaction that carries a plan out: the tables after it and whether it returned. */
  function Commit(s: Store, w: Id, plan: Plan): (Store, bool) {
    if Unchanged(s, w, plan) && NoPlaintext(Move(s, plan), w) then (Move(s, plan), true) else (s, false)
  }

  /** `migratePlaintextWorkspace`, planned on `planned` and committed on `s`: the tables after it and whether it
      returned. */
  function Migrate(planned: Store, s: Store, w: Id, key: Key, nonces: Nonces): (Store, bool) {
    match MakePlan(planned, w, key, nonces)
    case None => (s, false)
    case Some(plan) => Commit(s, w, plan)
  }

  // ---- All or nothing ----

  /** A moved row differs in its envelope and its plaintext alone, and only rows that held plaintext are moved. */
  ghost predicate OnlyMoved(s: Store, s': Store, w: Id) {
    && s'.versions == s.versions && s'.cursors == s.cursors
    && s'.notes.Keys == s.notes.Keys && s'.changes.Keys == s.changes.Keys && s'.conflicts.Keys == s.conflicts.Keys
    && (forall n :: n in s.notes ==>
          if NoteToMove(s, w, n) then s'.notes[n].(payload := s.notes[n].payload, legacy := s.notes[n].legacy) == s.notes[n]
          else s'.notes[n] == s.notes[n])
    && (forall id :: id in s.changes ==>
          if ChangeToMove(s, w, id) then s'.changes[id].(payload := s.changes[id].payload, legacy := s.changes[id].legacy) == s.changes[id]
          else s'.changes[id] == s.changes[id])
    && (forall k :: k in s.conflicts && !ConflictToMove(s, w, k) ==> s'.conflicts[k] == s.conflicts[k])
  }

  lemma MoveOnlyMoves(planned: Store, s: Store, w: Id, key: Key, nonces: Nonces, plan: Plan)
    requires MakePlan(planned, w, key, nonces) == Some(plan) && Unchanged(s, w, plan)
    ensures OnlyMoved(s, Move(s, plan), w)
  {
    forall k | k in plan.conflicts ensures ConflictToMove(s, w, k) {
      assert ConflictUnchanged(s.conflicts, w, k, plan.conflicts[k]);
    }
  }

  /** Either it throws and the tables are as they were, or the workspace holds no plaintext and only the envelopes
      and plaintexts of the rows that held plaintext have moved. */
  lemma AllOrNothing(planned: Store, s: Store, w: Id, key: Key, nonces: Nonces)
    ensures var (s', returned) := Migrate(planned, s, w, key, nonces);
      if returned then NoPlaintext(s', w) && OnlyMoved(s, s', w) else s' == s
  {
    var plan := MakePlan(planned, w, key, nonces);
    if plan.Some? && Unchanged(s, w, plan.value) { MoveOnlyMoves(planned, s, w, key, nonces, plan.value); }
  }

  /** A row that has an envelope keeps it. */
  lemma EnvelopesAreKept(planned: Store, s: Store, w: Id, key: Key, nonces: Nonces)
    ensures var s' := Migrate(planned, s, w, key, nonces).0;
      && (forall n :: n in s.notes && s.notes[n].payload.Some? ==> n in s'.notes && s'.notes[n].payload == s.notes[n].payload)
      && (forall id :: id in s.changes && s.changes[id].payload.Some? ==> id in s'.changes && s'.changes[id].payload == s.changes[id].payload)
      && (forall k :: k in s.conflicts && s.conflicts[k].payload.Some? ==> k in s'.conflicts && s'.conflicts[k].payload == s.conflicts[k].payload)
      && (forall k :: k in s.conflicts && s.conflicts[k].resolved.Some? ==> k in s'.conflicts && s'.conflicts[k].resolved == s.conflicts[k].resolved)
  {
    var plan := MakePlan(planned, w, key, nonces);
    if plan.Some? { MovedKeepEnvelopes(s, plan.value); }
  }

  lemma MovedKeepEnvelopes(s: Store, plan: Plan)
    ensures var s' := Move(s, plan);
      && (forall n :: n in s.notes && s.notes[n].payload.Some? ==> n in s'.notes && s'.notes[n].payload == s.notes[n].payload)
      && (forall id :: id in s.changes && s.changes[id].payload.Some? ==> id in s'.changes && s'.changes[id].payload == s.changes[id].payload)
      && (forall k :: k in s.conflicts && s.conflicts[k].payload.Some? ==> k in s'.conflicts && s'.conflicts[k].payload == s.conflicts[k].payload)
      && (forall k :: k in s.conflicts && s.conflicts[k].resolved.Some? ==> k in s'.conflicts && s'.conflicts[k].resolved == s.conflicts[k].resolved)
  {
  }

  lemma PlanIsUnchanged(s: Store, w: Id, key: Key, nonces: Nonces)
    requires MakePlan(s, w, key, nonces).Some?
    ensures Unchanged(s, w, MakePlan(s, w, key, nonces).value)
  {
  }

  lemma PlanCoversPlaintext(s: Store, w: Id, key: Key, nonces: Nonces)
    requires MakePlan(s, w, key, nonces).Some?
    ensures NoPlaintext(Move(s, MakePlan(s, w, key, nonces).value), w)
  {
  }

  /** With nobody writing in between, the migration returns exactly when every row can be prepared. */
  lemma ReturnsWhenPreparable(s: Store, w: Id, key: Key, nonces: Nonces)
    ensures Migrate(s, s, w, key, nonces).1 == Preparable(s, w, key, nonces)
  {
    if MakePlan(s, w, key, nonces).Some? {
      PlanIsUnchanged(s, w, key, nonces);
      PlanCoversPlaintext(s, w, key, nonces);
    }
  }

  predicate HoldsPlaintext(c: LocalConflict) {
    c.legacy.Some? || c.resolvedLegacy.Some?
  }

  /** The workspace's notes whose plaintext was read at planning still have it, at the same revision; and no other has any. */
  ghost predicate NotesStill(a: map<Id, LocalNote>, b: map<Id, LocalNote>, w: Id) {
    forall n :: n in a && a[n].workspaceId == w && a[n].legacy.Some? ==>
      n in b && b[n].workspaceId == w && b[n].revision == a[n].revision && b[n].legacy == a[n].legacy
  }

  ghost predicate NoOtherNote(a: map<Id, LocalNote>, b: map<Id, LocalNote>, w: Id) {
    forall n :: n in b && b[n].workspaceId == w && b[n].legacy.Some? ==> n in a && a[n].workspaceId == w && a[n].legacy.Some?
  }

  ghost predicate ChangesStill(a: map<Id, PendingChange>, b: map<Id, PendingChange>, w: Id) {
    forall id :: id in a && a[id].workspaceId == w && a[id].legacy.Some? ==>
      id in b && b[id].workspaceId == w && b[id].revision == a[id].revision && b[id].legacy == a[id].legacy
  }

  ghost predicate NoOtherChange(a: map<Id, PendingChange>, b: map<Id, PendingChange>, w: Id) {
    forall id :: id in b && b[id].workspaceId == w && b[id].legacy.Some? ==> id in a && a[id].workspaceId == w && a[id].legacy.Some?
  }

  /** Of a conflict row both plaintexts are compared. */
  ghost predicate RowsStill(a: map<ConflictKey, LocalConflict>, b: map<ConflictKey, LocalConflict>, w: Id) {
    forall k :: k in a && a[k].workspaceId == w && HoldsPlaintext(a[k]) ==>
      k in b && b[k].workspaceId == w && b[k].legacy == a[k].legacy && b[k].resolvedLegacy == a[k].resolvedLegacy
  }

  ghost predicate NoOtherRow(a: map<ConflictKey, LocalConflict>, b: map<ConflictKey, LocalConflict>, w: Id) {
    forall k :: k in b && b[k].workspaceId == w && HoldsPlaintext(b[k]) ==> k in a && a[k].workspaceId == w && HoldsPlaintext(a[k])
  }

  ghost predicate StillPlanned(a: Store, b: Store, w: Id) {
    NotesStill(a.notes, b.notes, w) && ChangesStill(a.changes, b.changes, w) && RowsStill(a.conflicts, b.conflicts, w)
  }

  ghost predicate NoneAdded(a: Store, b: Store, w: Id) {
    NoOtherNote(a.notes, b.notes, w) && NoOtherChange(a.changes, b.changes, w) && NoOtherRow(a.conflicts, b.conflicts, w)
  }

  /** The plan has exactly the rows with plaintext, as they were read. */
  ghost predicate PlansNotes(a: map<Id, LocalNote>, w: Id, plan: map<Id, Planned>) {
    && (forall n :: n in plan <==> n in a && a[n].workspaceId == w && a[n].legacy.Some?)
    && (forall n :: n in plan ==> plan[n].revision == a[n].revision && Some(plan[n].document) == a[n].legacy)
  }

  ghost predicate PlansChanges(a: map<Id, PendingChange>, w: Id, plan: map<Id, Planned>) {
    && (forall id :: id in plan <==> id in a && a[id].workspaceId == w && a[id].legacy.Some?)
    && (forall id :: id in plan ==> plan[id].revision == a[id].revision && Some(plan[id].document) == a[id].legacy)
  }

  ghost predicate PlansRows(a: map<ConflictKey, LocalConflict>, w: Id, plan: map<ConflictKey, PlannedConflict>) {
    && (forall k :: k in plan <==> k in a && a[k].workspaceId == w && HoldsPlaintext(a[k]))
    && (forall k :: k in plan ==> DocumentOf(plan[k].local) == a[k].legacy && DocumentOf(plan[k].resolved) == a[k].resolvedLegacy)
  }

  lemma PlanReads(a: Store, w: Id, key: Key, nonces: Nonces, plan: Plan)
    requires MakePlan(a, w, key, nonces) == Some(plan)
    ensures PlansNotes(a.notes, w, plan.notes) && PlansChanges(a.changes, w, plan.changes) && PlansRows(a.conflicts, w, plan.conflicts)
  {
  }

  lemma NotesCompared(a: map<Id, LocalNote>, b: map<Id, LocalNote>, w: Id, plan: map<Id, Planned>)
    requires PlansNotes(a, w, plan)
    ensures NotesStill(a, b, w) <==> forall n :: n in plan ==> NoteUnchanged(b, w, n, plan[n])
    ensures var moved := MovedNotes(b, plan, plan.Keys);
      NoOtherNote(a, b, w) <==> forall n :: n in moved ==> !(moved[n].workspaceId == w && moved[n].legacy.Some?)
  {
    var moved := MovedNotes(b, plan, plan.Keys);
    if NotesStill(a, b, w) { forall n | n in plan ensures NoteUnchanged(b, w, n, plan[n]) {} }
    if forall n :: n in moved ==> !(moved[n].workspaceId == w && moved[n].legacy.Some?) {
      forall n | n in b && b[n].workspaceId == w && b[n].legacy.Some? ensures n in plan { assert n in moved; }
    }
  }

  lemma ChangesCompared(a: map<Id, PendingChange>, b: map<Id, PendingChange>, w: Id, plan: map<Id, Planned>)
    requires PlansChanges(a, w, plan)
    ensures ChangesStill(a, b, w) <==> forall id :: id in plan ==> ChangeUnchanged(b, w, id, plan[id])
    ensures var moved := MovedChanges(b, plan, plan.Keys);
      NoOtherChange(a, b, w) <==> forall id :: id in moved ==> !(moved[id].workspaceId == w && moved[id].legacy.Some?)
  {
    var moved := MovedChanges(b, plan, plan.Keys);
    if ChangesStill(a, b, w) { forall id | id in plan ensures ChangeUnchanged(b, w, id, plan[id]) {} }
    if forall id :: id in moved ==> !(moved[id].workspaceId == w && moved[id].legacy.Some?) {
      forall id | id in b && b[id].workspaceId == w && b[id].legacy.Some? ensures id in plan { assert id in moved; }
    }
  }

  lemma RowsCompared(a: map<ConflictKey, LocalConflict>, b: map<ConflictKey, LocalConflict>, w: Id, plan: map<ConflictKey, PlannedConflict>)
    requires PlansRows(a, w, plan)
    ensures RowsStill(a, b, w) <==> forall k :: k in plan ==> ConflictUnchanged(b, w, k, plan[k])
    ensures var moved := MovedConflicts(b, plan, plan.Keys);
      NoOtherRow(a, b, w) <==> forall k :: k in moved ==> !(moved[k].workspaceId == w && HoldsPlaintext(moved[k]))
  {
    var moved := MovedConflicts(b, plan, plan.Keys);
    if RowsStill(a, b, w) { forall k | k in plan ensures ConflictUnchanged(b, w, k, plan[k]) {} }
    if forall k :: k in moved ==> !(moved[k].workspaceId == w && HoldsPlaintext(moved[k])) {
      forall k | k in b && b[k].workspaceId == w && HoldsPlaintext(b[k]) ensures k in plan { assert k in moved; }
    }
  }

  lemma UnchangedExactly(a: Store, b: Store, w: Id, plan: Plan)
    requires PlansNotes(a.notes, w, plan.notes) && PlansChanges(a.changes, w, plan.changes) && PlansRows(a.conflicts, w, plan.conflicts)
    ensures Unchanged(b, w, plan) <==> StillPlanned(a, b, w)
  {
    NotesCompared(a.notes, b.notes, w, plan.notes);
    ChangesCompared(a.changes, b.changes, w, plan.changes);
    RowsCompared(a.conflicts, b.conflicts, w, plan.conflicts);
  }

  lemma NothingLeftExactly(a: Store, b: Store, w: Id, plan: Plan)
    requires PlansNotes(a.notes, w, plan.notes) && PlansChanges(a.changes, w, plan.changes) && PlansRows(a.conflicts, w, plan.conflicts)
    ensures NoPlaintext(Move(b, plan), w) <==> NoneAdded(a, b, w)
  {
    NotesCompared(a.notes, b.notes, w, plan.notes);
    ChangesCompared(a.changes, b.changes, w, plan.changes);
    RowsCompared(a.conflicts, b.conflicts, w, plan.conflicts);
  }

  /** Whatever was written in between, the migration returns exactly when everything that was to be moved could be
      prepared and is still as it was read, and no row has plaintext that was not read. */
  lemma ReturnsExactly(planned: Store, s: Store, w: Id, key: Key, nonces: Nonces)
    ensures Migrate(planned, s, w, key, nonces).1 <==>
      Preparable(planned, w, key, nonces) && StillPlanned(planned, s, w) && NoneAdded(planned, s, w)
  {
    var plan := MakePlan(planned, w, key, nonces);
    if plan.Some? {
      PlanReads(planned, w, key, nonces, plan.value);
      UnchangedExactly(planned, s, w, plan.value);
      NothingLeftExactly(planned, s, w, plan.value);
    }
  }

  // ---- What other transactions leave of a planned row ----

  /** At one revision, a note keeps its envelope until its plaintext goes. */
  ghost predicate NoteTracks(a: LocalNote, b: LocalNote) {
    && b.id == a.id && a.revision <= b.revision
    && (b.revision == a.revision ==> (b.payload == a.payload && b.legacy == a.legacy) || b.legacy.None?)
  }

  /** At one revision, a change keeps its envelope until its plaintext goes, and a closed change keeps its revision. */
  ghost predicate ChangeTracks(a: PendingChange, b: PendingChange) {
    && b.noteId == a.noteId && b.workspaceId == a.workspaceId && a.revision <= b.revision
    && (b.revision == a.revision ==> (b.payload == a.payload && b.legacy == a.legacy) || b.legacy.None?)
    && (StoreInvariants.Closed(a) ==> StoreInvariants.Closed(b) && b.revision == a.revision)
  }

  /** A conflict row keeps its local side or shows its change's again, until its plaintext goes, and its resolution
      until the resolution's plaintext goes. */
  ghost predicate RowTracks(a: LocalConflict, b: LocalConflict, change: PendingChange) {
    && b.noteId == a.noteId && b.revision == a.revision
    && (b.legacy.None? || (b.payload == a.payload && b.legacy == a.legacy) || (b.payload == change.payload && b.legacy == change.legacy))
    && (b.resolvedLegacy.Some? ==> b.resolved == a.resolved && b.resolvedLegacy == a.resolvedLegacy && b.settlement == a.settlement)
  }

  ghost predicate NotesTrack(a: map<Id, LocalNote>, b: map<Id, LocalNote>) {
    forall n :: n in a ==> n in b && NoteTracks(a[n], b[n])
  }

  ghost predicate ChangesTrack(a: map<Id, PendingChange>, b: map<Id, PendingChange>) {
    forall id :: id in a ==> id in b && ChangeTracks(a[id], b[id])
  }

  ghost predicate RowsTrack(changes: map<Id, PendingChange>, a: map<ConflictKey, LocalConflict>, b: map<ConflictKey, LocalConflict>) {
    forall k :: k in a && k.changeId in changes ==> k in b && RowTracks(a[k], b[k], changes[k.changeId])
  }

  ghost predicate Tracks(a: Store, b: Store) {
    NotesTrack(a.notes, b.notes) && ChangesTrack(a.changes, b.changes) && RowsTrack(a.changes, a.conflicts, b.conflicts)
  }

  lemma RowsTrackTransitive(a: Store, b: Store, c: Store)
    requires StoreInvariants.RecordsMatch(a.changes, a.conflicts) && ChangesTrack(a.changes, b.changes)
    requires RowsTrack(a.changes, a.conflicts, b.conflicts) && RowsTrack(b.changes, b.conflicts, c.conflicts)
    ensures RowsTrack(a.changes, a.conflicts, c.conflicts)
  {
    forall k | k in a.conflicts && k.changeId in a.changes
      ensures k in c.conflicts && RowTracks(a.conflicts[k], c.conflicts[k], a.changes[k.changeId])
    {
      assert ChangeTracks(a.changes[k.changeId], b.changes[k.changeId]);
      assert RowTracks(a.conflicts[k], b.conflicts[k], a.changes[k.changeId]);
      assert RowTracks(b.conflicts[k], c.conflicts[k], b.changes[k.changeId]);
    }
  }

  lemma NotesTrackTransitive(a: map<Id, LocalNote>, b: map<Id, LocalNote>, c: map<Id, LocalNote>)
    requires NotesTrack(a, b) && NotesTrack(b, c)
    ensures NotesTrack(a, c)
  {
    forall n | n in a ensures n in c && NoteTracks(a[n], c[n]) {
      assert NoteTracks(a[n], b[n]) && NoteTracks(b[n], c[n]);
    }
  }

  lemma ChangesTrackTransitive(a: map<Id, PendingChange>, b: map<Id, PendingChange>, c: map<Id, PendingChange>)
    requires ChangesTrack(a, b) && ChangesTrack(b, c)
    ensures ChangesTrack(a, c)
  {
    forall id | id in a ensures id in c && ChangeTracks(a[id], c[id]) {
      assert ChangeTracks(a[id], b[id]) && ChangeTracks(b[id], c[id]);
    }
  }

  lemma TracksTransitive(a: Store, b: Store, c: Store)
    requires StoreInvariants.RecordsMatch(a.changes, a.conflicts) && Tracks(a, b) && Tracks(b, c)
    ensures Tracks(a, c)
  {
    RowsTrackTransitive(a, b, c);
    NotesTrackTransitive(a.notes, b.notes, c.notes);
    ChangesTrackTransitive(a.changes, b.changes, c.changes);
  }

  lemma RowsTrackThemselves(changes: map<Id, PendingChange>, conflicts: map<ConflictKey, LocalConflict>)
    ensures RowsTrack(changes, conflicts, conflicts)
  {
  }

  lemma NewRowsTrack(s: Store, ids: set<Id>, w: Id, remote: Version, now: int)
    requires StoreInvariants.RecordsMatch(s.changes, s.conflicts) && ids <= s.changes.Keys
    ensures RowsTrack(s.changes, s.conflicts, s.conflicts + ConflictRows(s.changes, ids, w, remote, now))
  {
    forall k | k in s.conflicts && k.changeId in s.changes
      ensures RowTracks(s.conflicts[k], (s.conflicts + ConflictRows(s.changes, ids, w, remote, now))[k], s.changes[k.changeId])
    {
      StoreInvariants.RowOf(s.changes, ids, w, remote, now, k);
    }
  }

  lemma RecordConflictsTracks(s: Store, ids: set<Id>, w: Id, remote: Version, now: int, s': Store)
    requires StoreInvariants.RecordsMatch(s.changes, s.conflicts) && ids <= s.changes.Keys
    requires s' == RecordConflicts(s, ids, w, remote, now)
    ensures Tracks(s, s')
  {
    NewRowsTrack(s, ids, w, remote, now);
    assert ChangesTrack(s.changes, s'.changes);
  }

  lemma RebaseTracks(s: Store, pushed: PendingChange, versionId: Id, s': Store)
    requires s' == Rebase(s, pushed, versionId)
    ensures Tracks(s, s')
  {
    RowsTrackThemselves(s.changes, s.conflicts);
  }

  lemma SyncedTracks(s: Store, w: Id, pushed: PendingChange, v: Version, s': Store)
    requires pushed.id in s.changes && s.changes[pushed.id].status == Syncing
    requires s' == s.(versions := s.versions[v.id := Cached(w, v)],
                      changes := s.changes[pushed.id := s.changes[pushed.id].(status := Synced)])
    ensures Tracks(s, s')
  {
    RowsTrackThemselves(s.changes, s.conflicts);
  }

  lemma AcceptedTracks(s: Store, w: Id, pushed: PendingChange, v: Version, s': Store)
    requires StoreInvariants.RecordsMatch(s.changes, s.conflicts)
    requires pushed.id in s.changes && s' == ApplyAccepted(s, w, pushed, v)
    ensures Tracks(s, s')
  {
    var s1 := s.(versions := s.versions[v.id := Cached(w, v)]);
    if AnswersRevision(s1, pushed) {
      var s2 := s1.(changes := s1.changes[pushed.id := s1.changes[pushed.id].(status := Synced)]);
      SyncedTracks(s, w, pushed, v, s2);
      RebaseTracks(s2, pushed, v.id, s');
      TracksTransitive(s, s2, s');
    } else {
      RebaseTracks(s1, pushed, v.id, s');
    }
  }

  lemma FailOneTracks(s: Store, id: Id, s': Store)
    requires s' == FailOne(s, id)
    ensures Tracks(s, s')
  {
    RowsTrackThemselves(s.changes, s.conflicts);
  }

  lemma ResultTracks(s: Store, w: Id, pushed: PendingChange, r: Option<PushResult>, now: int, s': Store)
    requires StoreInvariants.RecordsMatch(s.changes, s.conflicts) && s' == ApplyResult(s, w, pushed, r, now)
    ensures Tracks(s, s')
  {
    if pushed.id !in s.changes || r.None? || r.value.Rejected? {
      FailOneTracks(s, pushed.id, s');
    } else if r.value.Accepted? || r.value.DuplicateAccepted? {
      AcceptedTracks(s, w, pushed, r.value.version, s');
    } else {
      RecordConflictsTracks(s, {pushed.id} + Spread(s, s.changes[pushed.id]), w, r.value.remote, now, s');
    }
  }

  lemma {:induction false} ResultsTrack(s: Store, w: Id, attempted: seq<PendingChange>, results: seq<PushResult>, now: int, s': Store)
    requires StoreInvariants.Inv(s) && s' == ApplyResults(s, w, attempted, results, now)
    ensures Tracks(s, s')
    decreases |attempted|
  {
    if attempted == [] {
      RowsTrackThemselves(s.changes, s.conflicts);
    } else {
      var r := ResultFor(results, attempted[0].id);
      var s1 := ApplyResult(s, w, attempted[0], r, now);
      ResultTracks(s, w, attempted[0], r, now, s1);
      StoreInvariants.ApplyResultKeepsInv(s, w, attempted[0], r, now);
      ResultsTrack(s1, w, attempted[1..], results, now, s');
      TracksTransitive(s, s1, s');
    }
  }

  lemma EntryTracks(s: Store, w: Id, p: PullChange, now: int, s': Store)
    requires StoreInvariants.RecordsMatch(s.changes, s.conflicts) && s' == ApplyPulled(s, w, p, now)
    ensures Tracks(s, s')
  {
    if Waiting(s, p.note.id) != {} {
      RecordConflictsTracks(s, Diverging(s, p), w, p.version, now, s');
    } else {
      RowsTrackThemselves(s.changes, s.conflicts);
    }
  }

  lemma {:induction false} PulledTracks(s: Store, w: Id, ps: seq<PullChange>, now: int, s': Store)
    requires StoreInvariants.Inv(s) && s' == ApplyPulledAll(s, w, ps, now)
    ensures Tracks(s, s')
    decreases |ps|
  {
    if ps == [] {
      RowsTrackThemselves(s.changes, s.conflicts);
    } else {
      var s1 := ApplyPulled(s, w, ps[0], now);
      EntryTracks(s, w, ps[0], now, s1);
      StoreInvariants.ApplyPulledKeepsInv(s, w, ps[0], now);
      PulledTracks(s1, w, ps[1..], now, s');
      TracksTransitive(s, s1, s');
    }
  }

  lemma BeginOneTracks(s: Store, c: PendingChange, s': Store)
    requires s' == Begin(s, c).0
    ensures Tracks(s, s')
  {
    RowsTrackThemselves(s.changes, s.conflicts);
  }

  lemma BeginOneKeepsInv(s: Store, c: PendingChange, s': Store)
    requires StoreInvariants.Inv(s) && s' == Begin(s, c).0
    ensures StoreInvariants.Inv(s')
  {
    StoreInvariants.BeginKeepsInv(s, [c]);
    assert BeginAll(s', [c][1..]) == (s', []);
  }

  lemma {:induction false} BeginTracks(s: Store, candidates: seq<PendingChange>, s': Store)
    requires StoreInvariants.Inv(s) && s' == BeginAll(s, candidates).0
    ensures Tracks(s, s')
    decreases |candidates|
  {
    if candidates == [] {
      RowsTrackThemselves(s.changes, s.conflicts);
    } else {
      var s1 := Begin(s, candidates[0]).0;
      BeginOneTracks(s, candidates[0], s1);
      BeginOneKeepsInv(s, candidates[0], s1);
      BeginTracks(s1, candidates[1..], s');
      TracksTransitive(s, s1, s');
    }
  }

  lemma SettledRowsTrack(s: Store, n: Id, a: Action, id: Id, payload: Option<Envelope>)
    ensures RowsTrack(s.changes, s.conflicts, Settle(s, n, a, id, payload))
  {
  }

  lemma ResolveTracks(s: Store, key: ConflictKey, a: Action, e: Option<Envelope>, expected: Option<nat>, next: nat, id: Id, now: int, s': Store)
    requires s' == Resolve(s, key, a, e, expected, next, id, now)
    ensures Tracks(s, s')
  {
    if s' == s {
      RowsTrackThemselves(s.changes, s.conflicts);
    } else {
      var c := s.conflicts[key];
      SettledRowsTrack(s, c.noteId, a, id, ResolutionPayload(s.notes[c.noteId], c, a, e));
      assert ChangesTrack(s.changes, s'.changes);
    }
  }

  lemma UpsertTracks(s: Store, kind: OperationKind, note: LocalNote, payload: Option<Envelope>, existing: Option<Id>, id: Id, now: int, s': Store)
    requires StoreInvariants.Inv(s) && CanUpsert(s, note.id, kind, existing, id) && note.revision == s.notes[note.id].revision + 1
    requires s' == s.(notes := s.notes[note.id := note], changes := Upsert(s, kind, note, payload, existing, id, now))
    ensures Tracks(s, s')
  {
    RowsTrackThemselves(s.changes, s.conflicts);
  }

  lemma EditTracks(s: Store, n: Id, d: Document, e: Envelope, expected: Option<nat>, existing: Option<Id>, id: Id, now: int, s': Store)
    requires StoreInvariants.Inv(s) && s' == Edit(s, n, d, e, expected, existing, id, now)
    ensures Tracks(s, s')
  {
    if s' == s {
      RowsTrackThemselves(s.changes, s.conflicts);
    } else {
      var note := s.notes[n].(payload := Some(e), legacy := None, revision := s.notes[n].revision + 1);
      UpsertTracks(s, UpdateNote, note, Some(e), existing, id, now, s');
    }
  }

  lemma DeleteTracks(s: Store, n: Id, existing: Option<Id>, id: Id, now: int, s': Store)
    requires StoreInvariants.Inv(s) && s' == Delete(s, n, existing, id, now)
    ensures Tracks(s, s')
  {
    if s' == s {
      RowsTrackThemselves(s.changes, s.conflicts);
    } else {
      var note := s.notes[n].(deleted := true, revision := s.notes[n].revision + 1);
      UpsertTracks(s, DeleteNote, note, None, existing, id, now, s');
    }
  }

  lemma CreateTracks(s: Store, w: Id, n: Id, d: Document, e: Envelope, id: Id, now: int, s': Store)
    requires s' == Create(s, w, n, d, e, id, now)
    ensures Tracks(s, s')
  {
    RowsTrackThemselves(s.changes, s.conflicts);
  }

  /** The steps that write no conflict row and raise no revision. */
  lemma RowWriteTracks(s: Store, step: LocalStep, s': Store)
    requires step.StorePayloadStep? || step.FailStep? || step.CacheStep? || step.CacheDetailStep?
    requires s' == LocalStore.Next(s, step)
    ensures Tracks(s, s')
  {
    match step
    case StorePayloadStep(id, r, e) => ChangesOnlyTrack(s, s');
    case FailStep(attempted) => ChangesOnlyTrack(s, s');
    case _ => NotesOnlyTrack(s, s');
  }

  lemma ChangesOnlyTrack(s: Store, s': Store)
    requires s'.notes == s.notes && s'.conflicts == s.conflicts && ChangesTrack(s.changes, s'.changes)
    ensures Tracks(s, s')
  {
    RowsTrackThemselves(s.changes, s.conflicts);
  }

  lemma NotesOnlyTrack(s: Store, s': Store)
    requires s'.changes == s.changes && s'.conflicts == s.conflicts && NotesTrack(s.notes, s'.notes)
    ensures Tracks(s, s')
  {
    RowsTrackThemselves(s.changes, s.conflicts);
  }

  lemma MovedConflictsTrack(changes: map<Id, PendingChange>, conflicts: map<ConflictKey, LocalConflict>,
                            plan: map<ConflictKey, PlannedConflict>)
    ensures RowsTrack(changes, conflicts, MovedConflicts(conflicts, plan, plan.Keys))
  {
  }

  lemma MigrateTracks(planned: Store, s: Store, w: Id, key: Key, nonces: Nonces, s': Store)
    requires s' == Migrate(planned, s, w, key, nonces).0
    ensures Tracks(s, s')
  {
    if s' == s {
      RowsTrackThemselves(s.changes, s.conflicts);
    } else {
      var plan := MakePlan(planned, w, key, nonces).value;
      assert NotesTrack(s.notes, MovedNotes(s.notes, plan.notes, plan.notes.Keys));
      assert ChangesTrack(s.changes, MovedChanges(s.changes, plan.changes, plan.changes.Keys));
      MovedConflictsTrack(s.changes, s.conflicts, plan.conflicts);
    }
  }

  /** Whatever transaction runs, a row that still has its revision and its plaintext still has its envelope. */
  lemma StepTracks(s: Store, step: LocalStep, s': Store)
    requires StoreInvariants.Inv(s) && s' == LocalStore.Next(s, step)
    ensures Tracks(s, s')
  {
    match step
    case BeginStep(candidates) => BeginTracks(s, candidates, s');
    case ResultsStep(w, attempted, results, now) => ResultsTrack(s, w, attempted, results, now, s');
    case PullStep(page, now) => PulledTracks(s, page.workspaceId, page.changes, now, ApplyPulledAll(s, page.workspaceId, page.changes, now));
    case CreateStep(w, n, d, e, id, now) => CreateTracks(s, w, n, d, e, id, now, s');
    case EditStep(n, d, e, expected, existing, id, now) => EditTracks(s, n, d, e, expected, existing, id, now, s');
    case DeleteStep(n, existing, id, now) => DeleteTracks(s, n, existing, id, now, s');
    case ResolveStep(key, a, e, expected, next, id, now) => ResolveTracks(s, key, a, e, expected, next, id, now, s');
    case _ => RowWriteTracks(s, step, s');
  }

  // ---- Meaning ----

  lemma PreparedOpens(d: Document, existing: Option<Envelope>, key: Key, context: Context, nonce: nat)
    requires Prepare(d, existing, key, context, nonce).Some?
    ensures Open(Prepare(d, existing, key, context, nonce).value, key, Some(context)) == Some(d)
    ensures existing.Some? ==> Prepare(d, existing, key, context, nonce) == existing
  {
    if existing.None? { SealedOpens(d, key, context, nonce, key, Some(context)); }
  }

  lemma MovedRowHolds(d: Document, existing: Option<Envelope>, key: Key, context: Context, nonce: nat, current: Option<Envelope>)
    requires Prepare(d, existing, key, context, nonce).Some?
    requires current == existing || current.None? || Holds(current, key, context, d)
    ensures Holds(Or(current, Some(Planned(Prepare(d, existing, key, context, nonce).value, d, context.revision))), key, context, d)
  {
    PreparedOpens(d, existing, key, context, nonce);
  }

  /** Every migrated note's envelope opens, under the note's own ids and revision, to the plaintext it had. */
  lemma NoteKeepsMeaning(planned: Store, s: Store, w: Id, key: Key, nonces: Nonces, n: Id)
    requires NotesTrack(planned.notes, s.notes) && Migrate(planned, s, w, key, nonces).1 && NoteToMove(s, w, n)
    ensures var s' := Migrate(planned, s, w, key, nonces).0;
      n in s'.notes && Holds(s'.notes[n].payload, key, NoteContext(s'.notes[n]), s.notes[n].legacy.value)
  {
    var plan := MakePlan(planned, w, key, nonces).value;
    var s' := Move(s, plan);
    assert !NoteToMove(s', w, n);
    assert n in plan.notes && NoteUnchanged(s.notes, w, n, plan.notes[n]);
    var a := planned.notes[n];
    assert NoteTracks(a, s.notes[n]);
    MovedRowHolds(a.legacy.value, a.payload, key, NoteContext(a), nonces.notes(n), s.notes[n].payload);
  }

  /** So does every migrated change's, under the change's. */
  lemma ChangeKeepsMeaning(planned: Store, s: Store, w: Id, key: Key, nonces: Nonces, id: Id)
    requires ChangesTrack(planned.changes, s.changes) && Migrate(planned, s, w, key, nonces).1 && ChangeToMove(s, w, id)
    ensures var s' := Migrate(planned, s, w, key, nonces).0;
      id in s'.changes && s'.changes[id].revision == s.changes[id].revision && s'.changes[id].workspaceId == w
      && Holds(s'.changes[id].payload, key, ChangeContext(s'.changes[id]), s.changes[id].legacy.value)
  {
    var plan := MakePlan(planned, w, key, nonces).value;
    var s' := Move(s, plan);
    assert !ChangeToMove(s', w, id);
    assert id in plan.changes && ChangeUnchanged(s.changes, w, id, plan.changes[id]);
    var a := planned.changes[id];
    assert ChangeTracks(a, s.changes[id]);
    MovedRowHolds(a.legacy.value, a.payload, key, ChangeContext(a), nonces.changes(id), s.changes[id].payload);
  }

  lemma PlannedRow(planned: Store, s: Store, w: Id, key: Key, nonces: Nonces, k: ConflictKey)
    requires StoreInvariants.RecordsMatch(planned.changes, planned.conflicts) && RowsTrack(planned.changes, planned.conflicts, s.conflicts)
    requires Migrate(planned, s, w, key, nonces).1 && ConflictToMove(s, w, k)
    ensures var plan := MakePlan(planned, w, key, nonces).value;
      && k in planned.conflicts && ConflictToMove(planned, w, k) && k.changeId in planned.changes
      && ConflictPreparable(planned, key, nonces, k) && plan.conflicts[k] == PlanConflict(planned, key, nonces, k)
      && ConflictUnchanged(s.conflicts, w, k, plan.conflicts[k])
      && RowTracks(planned.conflicts[k], s.conflicts[k], planned.changes[k.changeId])
      && Migrate(planned, s, w, key, nonces).0.conflicts[k] == MovedConflict(s.conflicts[k], plan.conflicts[k])
  {
    var plan := MakePlan(planned, w, key, nonces).value;
    var s' := Move(s, plan);
    assert !ConflictToMove(s', w, k);
    assert k in plan.conflicts;
  }

  /** Every migrated conflict's local envelope opens under the conflict's own ids and revision to the plaintext it
      had, even where an answer rewrote the row from its change in between. */
  lemma ConflictKeepsMeaning(planned: Store, s: Store, w: Id, key: Key, nonces: Nonces, k: ConflictKey)
    requires StoreInvariants.RecordsMatch(planned.changes, planned.conflicts) && StoreInvariants.RecordsAtHome(planned)
    requires RowsTrack(planned.changes, planned.conflicts, s.conflicts) && Migrate(planned, s, w, key, nonces).1
    requires ConflictToMove(s, w, k) && s.conflicts[k].legacy.Some?
    ensures var s' := Migrate(planned, s, w, key, nonces).0;
      k in s'.conflicts
      && Holds(s'.conflicts[k].payload, key, Context(w, s'.conflicts[k].noteId, s'.conflicts[k].revision), s.conflicts[k].legacy.value)
  {
    PlannedRow(planned, s, w, key, nonces, k);
    var a, b, change := planned.conflicts[k], s.conflicts[k], planned.changes[k.changeId];
    var context := Context(w, a.noteId, a.revision);
    if b.payload != a.payload && b.payload.Some? {
      assert ChangeToMove(planned, w, k.changeId) && PreparedChange(planned, key, nonces, k.changeId).Some?;
      PreparedOpens(change.legacy.value, change.payload, key, ChangeContext(change), nonces.changes(k.changeId));
      assert ChangeContext(change) == context;
    }
    MovedRowHolds(a.legacy.value, a.payload, key, context, nonces.locals(k), b.payload);
  }

  /** And every migrated resolution's, under the revision its settling change had when the migration was planned. */
  lemma ResolutionKeepsMeaning(planned: Store, s: Store, w: Id, key: Key, nonces: Nonces, k: ConflictKey)
    requires StoreInvariants.RecordsMatch(planned.changes, planned.conflicts)
    requires RowsTrack(planned.changes, planned.conflicts, s.conflicts) && Migrate(planned, s, w, key, nonces).1
    requires ConflictToMove(s, w, k) && s.conflicts[k].resolvedLegacy.Some?
    ensures var s' := Migrate(planned, s, w, key, nonces).0;
      k in s'.conflicts && k in planned.conflicts && s'.conflicts[k].settlement == planned.conflicts[k].settlement
      && s'.conflicts[k].noteId == planned.conflicts[k].noteId && s'.conflicts[k].revision == planned.conflicts[k].revision
      && s'.conflicts[k].workspaceId == planned.conflicts[k].workspaceId == w
      && Holds(s'.conflicts[k].resolved, key,
               Context(w, s'.conflicts[k].noteId, ResolvedRevision(planned, planned.conflicts[k])), s.conflicts[k].resolvedLegacy.value)
  {
    PlannedRow(planned, s, w, key, nonces, k);
    var a := planned.conflicts[k];
    var context := Context(w, a.noteId, ResolvedRevision(planned, a));
    MovedRowHolds(a.resolvedLegacy.value, a.resolved, key, context, nonces.resolutions(k), s.conflicts[k].resolved);
  }

  /** What opens under one revision opens under another exactly if they are equal or the envelope is of version 1,
      which authenticates none. */
  lemma HoldsUnderOtherRevision(payload: Option<Envelope>, key: Key, context: Context, d: Document, r: nat)
    requires Holds(payload, key, context, d)
    ensures Holds(payload, key, context.(revision := r), d) <==> r == context.revision || payload.value.envelopeVersion == 1
  {
  }

  /** A migrated resolution opens under the revision its settling change has at commit exactly if that is still the
      revision it had at planning, or the envelope is of version 1. The change keeps its revision unless a later edit
      reuses it, so it does if the change was closed. */
  lemma ResolutionOpensExactly(planned: Store, s: Store, w: Id, key: Key, nonces: Nonces, k: ConflictKey)
    requires StoreInvariants.RecordsMatch(planned.changes, planned.conflicts)
    requires RowsTrack(planned.changes, planned.conflicts, s.conflicts) && Migrate(planned, s, w, key, nonces).1
    requires ConflictToMove(s, w, k) && s.conflicts[k].resolvedLegacy.Some?
    ensures var s' := Migrate(planned, s, w, key, nonces).0;
      && k in s'.conflicts && k in planned.conflicts && s'.conflicts[k].resolved.Some?
      && var at := ResolvedRevision(s', s'.conflicts[k]);
      Holds(s'.conflicts[k].resolved, key, Context(w, s'.conflicts[k].noteId, at), s.conflicts[k].resolvedLegacy.value) <==>
        at == ResolvedRevision(planned, planned.conflicts[k]) || s'.conflicts[k].resolved.value.envelopeVersion == 1
  {
    ResolutionKeepsMeaning(planned, s, w, key, nonces, k);
    var s' := Migrate(planned, s, w, key, nonces).0;
    var c := s'.conflicts[k];
    HoldsUnderOtherRevision(c.resolved, key, Context(w, c.noteId, ResolvedRevision(planned, planned.conflicts[k])),
                            s.conflicts[k].resolvedLegacy.value, ResolvedRevision(s', c));
  }

  /** The two revisions agree exactly if the settling change still has its revision, as it does once closed. */
  lemma SettlingRevisionsAgree(planned: Store, s: Store, w: Id, key: Key, nonces: Nonces, k: ConflictKey)
    requires StoreInvariants.RecordsMatch(planned.changes, planned.conflicts)
    requires Tracks(planned, s) && Migrate(planned, s, w, key, nonces).1
    requires ConflictToMove(s, w, k) && s.conflicts[k].resolvedLegacy.Some? && s.conflicts[k].settlement.Settled?
    requires s.conflicts[k].settlement.changeId in planned.changes
    requires planned.changes[s.conflicts[k].settlement.changeId].workspaceId == w
    ensures var s', id := Migrate(planned, s, w, key, nonces).0, s.conflicts[k].settlement.changeId;
      && k in s'.conflicts && k in planned.conflicts && id in s.changes
      && (ResolvedRevision(s', s'.conflicts[k]) == ResolvedRevision(planned, planned.conflicts[k])
          <==> s.changes[id].revision == planned.changes[id].revision)
      && (StoreInvariants.Closed(planned.changes[id]) ==> s.changes[id].revision == planned.changes[id].revision)
  {
    ResolutionKeepsMeaning(planned, s, w, key, nonces, k);
    var id := s.conflicts[k].settlement.changeId;
    assert ChangeTracks(planned.changes[id], s.changes[id]);
  }

  /** Everything that was plaintext opens again: notes, changes and conflicts under their own ids and revisions,
      resolutions under the revision their settling change had at planning. */
  ghost predicate MeaningKept(planned: Store, s: Store, s': Store, w: Id, key: Key) {
    && (forall n :: n in s.notes && NoteToMove(s, w, n) ==>
          n in s'.notes && Holds(s'.notes[n].payload, key, NoteContext(s'.notes[n]), s.notes[n].legacy.value))
    && (forall id :: id in s.changes && ChangeToMove(s, w, id) ==>
          id in s'.changes && Holds(s'.changes[id].payload, key, ChangeContext(s'.changes[id]), s.changes[id].legacy.value))
    && (forall k :: k in s.conflicts && ConflictToMove(s, w, k) && s.conflicts[k].legacy.Some? ==>
          k in s'.conflicts
          && Holds(s'.conflicts[k].payload, key, Context(w, s'.conflicts[k].noteId, s'.conflicts[k].revision),
                   s.conflicts[k].legacy.value))
    && (forall k :: k in s.conflicts && ConflictToMove(s, w, k) && s.conflicts[k].resolvedLegacy.Some? ==>
          k in s'.conflicts && k in planned.conflicts
          && Holds(s'.conflicts[k].resolved, key,
                   Context(w, s'.conflicts[k].noteId, ResolvedRevision(planned, planned.conflicts[k])),
                   s.conflicts[k].resolvedLegacy.value))
  }

  lemma MigrateKeepsMeaning(planned: Store, s: Store, w: Id, key: Key, nonces: Nonces, s': Store)
    requires StoreInvariants.RecordsMatch(planned.changes, planned.conflicts) && StoreInvariants.RecordsAtHome(planned)
    requires Tracks(planned, s) && Migrate(planned, s, w, key, nonces) == (s', true)
    ensures MeaningKept(planned, s, s', w, key)
  {
    forall n | n in s.notes && NoteToMove(s, w, n)
      ensures n in s'.notes && Holds(s'.notes[n].payload, key, NoteContext(s'.notes[n]), s.notes[n].legacy.value)
    {
      NoteKeepsMeaning(planned, s, w, key, nonces, n);
    }
    forall id | id in s.changes && ChangeToMove(s, w, id)
      ensures id in s'.changes && Holds(s'.changes[id].payload, key, ChangeContext(s'.changes[id]), s.changes[id].legacy.value)
    {
      ChangeKeepsMeaning(planned, s, w, key, nonces, id);
    }
    forall k | k in s.conflicts && ConflictToMove(s, w, k) && s.conflicts[k].legacy.Some?
      ensures k in s'.conflicts
      ensures Holds(s'.conflicts[k].payload, key, Context(w, s'.conflicts[k].noteId, s'.conflicts[k].revision), s.conflicts[k].legacy.value)
    {
      ConflictKeepsMeaning(planned, s, w, key, nonces, k);
    }
    forall k | k in s.conflicts && ConflictToMove(s, w, k) && s.conflicts[k].resolvedLegacy.Some?
      ensures k in s'.conflicts && k in planned.conflicts
      ensures Holds(s'.conflicts[k].resolved, key, Context(w, s'.conflicts[k].noteId, ResolvedRevision(planned, planned.conflicts[k])),
                    s.conflicts[k].resolvedLegacy.value)
    {
      ResolutionKeepsMeaning(planned, s, w, key, nonces, k);
    }
  }
}
