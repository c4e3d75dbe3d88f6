/** What the server promises over whole runs of both note APIs. */
module ServerTheorems {
  import opened Wrappers
  import opened Text
  import opened SyncTypes
  import opened ServerTables
  import opened ServerInvariants

  /** A note as a reader of the change log alone sees it. */
  datatype Head = Head(workspaceId: Id, current: Id, deleted: bool)

  /** Fold the log: each entry sets its note's version and deletion flag. */
  function Rebuild(log: seq<Entry>): map<Id, Head> {
    if log == [] then map[]
    else
      var e := log[|log| - 1];
      Rebuild(log[..|log| - 1])[e.noteId := Head(e.workspaceId, e.versionId, e.deletion)]
  }

  lemma {:induction false} RebuildIsLastEntry(log: seq<Entry>, n: Id)
    ensures n in Rebuild(log) <==> History(log, n) != []
    ensures n in Rebuild(log) ==>
      var e := History(log, n)[|History(log, n)| - 1];
      Rebuild(log)[n] == Head(e.workspaceId, e.versionId, e.deletion)
  {
    if log != [] {
      RebuildIsLastEntry(log[..|log| - 1], n);
    }
  }

  /** The change log determines the tables: folding it gives every note's current version and
      deletion flag, and no other note. */
  lemma LogDeterminesNotes(t: Tables)
    requires Inv(t)
    ensures Rebuild(t.log).Keys == t.notes.Keys
    ensures forall n :: n in t.notes ==>
      Rebuild(t.log)[n] == Head(t.notes[n].workspaceId, t.notes[n].current, t.notes[n].deleted)
  {
    forall n
      ensures n in Rebuild(t.log) <==> n in t.notes
      ensures n in t.notes ==> Rebuild(t.log)[n] == Head(t.notes[n].workspaceId, t.notes[n].current, t.notes[n].deleted)
    {
      RebuildIsLastEntry(t.log, n);
      LastEntryIsCurrent(t, n);
    }
  }

  /** How many versions a note has, and its version numbered k, both read from the log. */
  function Top(t: Tables, n: Id): int
    requires n in t.notes
  {
    Length(t.notes[n], History(t.log, n))
  }

  function VersionAt(t: Tables, n: Id, k: int): Id
    requires 1 <= k <= |History(t.log, n)|
  {
    History(t.log, n)[k - 1].versionId
  }

  /** A note's log is its versions 1..n in order, once each, followed by exactly one deletion entry carrying
      version n when the note is deleted, and by nothing otherwise. */
  lemma LogListsVersionsOnce(t: Tables, n: Id, k: int)
    requires Inv(t) && n in t.notes && 1 <= k <= |History(t.log, n)|
    ensures 1 <= Top(t, n) <= |History(t.log, n)| && t.notes[n].current == VersionAt(t, n, Top(t, n))
    ensures History(t.log, n)[k - 1].deletion <==> k == Top(t, n) + 1
    ensures k == Top(t, n) + 1 ==> VersionAt(t, n, k) == t.notes[n].current && t.notes[n].deleted
    ensures k <= Top(t, n) ==>
      && VersionAt(t, n, k) in t.versions
      && var v := t.versions[VersionAt(t, n, k)];
      && v.noteId == n && v.number == k
      && v.parent == (if k == 1 then None else Some(VersionAt(t, n, k - 1)))
  {
    var h := History(t.log, n);
    assert Linear(t.notes[n], h, t.versions);
    if k <= Top(t, n) { assert Link(t.versions, h, n, k - 1); }
  }

  /** No version lies outside its note's chain: a stored version is the one numbered as it says. */
  lemma StoredVersionsAreListed(t: Tables, v: Id)
    requires Inv(t) && v in t.versions
    ensures t.versions[v].noteId in t.notes
    ensures 1 <= t.versions[v].number <= Top(t, t.versions[v].noteId)
    ensures VersionAt(t, t.versions[v].noteId, t.versions[v].number) == v
  {
    assert Logged(t.versions[v], t.notes, t.log);
  }

  /** Every operation on record after any run: an accepted update has its stated base as parent, an accepted
      create is version 1, an accepted delete left the note deleted at its stated base, and an accepted create
      or update stored exactly its payload and revision. */
  lemma AcceptedOperationsHold(steps: seq<Step>, o: Id)
    requires o in Run(EMPTY, steps).operations && Run(EMPTY, steps).operations[o].accepted
    ensures var t := Run(EMPTY, steps);
      var op := t.operations[o];
      && op.versionId in t.versions && op.change.noteId in t.notes
      && var v := t.versions[op.versionId];
      && match op.change.kind
         case CreateNote => v.number == 1 && v.parent == None
         case UpdateNote => op.change.base.Some? && v.parent == op.change.base
         case DeleteNote =>
           op.change.base == Some(op.versionId) && t.notes[op.change.noteId].deleted
           && t.notes[op.change.noteId].current == op.versionId
    ensures var t := Run(EMPTY, steps);
      var op := t.operations[o];
      op.change.kind != DeleteNote ==>
        && op.change.payload.Some? && op.versionId in t.versions
        && t.versions[op.versionId].payload == Stored(op.change.payload.value)
        && t.versions[op.versionId].clientVersion == Some(Decimal(op.change.revision))
  {
    ReachableTables(steps);
    var t := Run(EMPTY, steps);
    assert Faithful(t.operations[o], t.notes, t.versions);
  }

  /** A deleted note never changes again, whatever both APIs do. */
  lemma DeletedNotesAreFrozen(t: Tables, steps: seq<Step>, n: Id)
    requires Inv(t) && n in t.notes && t.notes[n].deleted
    ensures n in Run(t, steps).notes && Run(t, steps).notes[n] == t.notes[n]
    ensures History(Run(t, steps).log, n) == History(t.log, n)
  {
    RunKeepsInv(t, steps);
    assert NoteGrows(t.notes[n], Run(t, steps).notes[n], History(t.log, n), History(Run(t, steps).log, n));
  }

  /** Repeating an operation, after any further operations of anyone and with whatever identifier the server
      draws this time, changes nothing and returns the original status and version as a duplicate. */
  lemma ReplayIsIdempotent(t: Tables, i: SyncInput, steps: seq<Step>, redrawn: Id)
    requires Inv(t) && Process(t, i).1.Done?
    ensures var first := Process(t, i).1;
      var later := Run(Process(t, i).0, steps);
      var (after, again) := Process(later, i.(versionId := redrawn));
      && after == later
      && again.Done? && again.replayed
      && again.kind == i.change.kind && again.accepted == first.accepted && again.version == first.version
      && i.change.noteId in later.notes && again.note == later.notes[i.change.noteId]
  {
    ProcessKeepsInv(t, i);
    var t1, first := Process(t, i).0, Process(t, i).1;
    RunKeepsInv(t1, steps);
    var later, o := Run(t1, steps), i.change.operationId;
    assert later.operations[o] == t1.operations[o];
    assert Faithful(later.operations[o], later.notes, later.versions);
  }

  /** Reusing a recorded operation id with another request, user, client or workspace is rejected, whenever it
      comes, and changes nothing. */
  lemma ReusedIdIsRejected(t: Tables, i: SyncInput, steps: seq<Step>, j: SyncInput)
    requires Inv(t) && Process(t, i).1.Done?
    requires j.change.operationId == i.change.operationId
    requires j.change != i.change || j.userId != i.userId || j.clientId != i.clientId || j.workspaceId != i.workspaceId
    ensures var later := Run(Process(t, i).0, steps);
      Process(later, j) == (later, Refused(IdempotencyMismatch))
  {
    ProcessKeepsInv(t, i);
    RunKeepsInv(Process(t, i).0, steps);
  }

  // ---- What becomes of an operation ----

  /** The workspace has the note, and it is not deleted. */
  predicate Present(t: Tables, workspaceId: Id, noteId: Id) {
    noteId in t.notes && t.notes[noteId].workspaceId == workspaceId && !t.notes[noteId].deleted
  }

  /** What a new operation of each kind needs besides its base: an owner or an editor to write, an owner to delete. */
  predicate Allowed(t: Tables, i: SyncInput) {
    var at := (i.workspaceId, i.userId);
    && at in t.members
    && match i.change.kind
       case CreateNote => t.members[at] in {Owner, Editor}
       case UpdateNote => Present(t, i.workspaceId, i.change.noteId) && t.members[at] in {Owner, Editor}
       case DeleteNote => Present(t, i.workspaceId, i.change.noteId) && t.members[at] == Owner
  }

  /** The operation meets the note where it expects it: nowhere for a create, at its base otherwise. */
  predicate MeetsBase(t: Tables, i: SyncInput) {
    if i.change.kind == CreateNote then i.change.noteId !in t.notes
    else i.change.noteId in t.notes && Some(t.notes[i.change.noteId].current) == i.change.base
  }

  /** A version it writes can be written. */
  predicate Writable(t: Tables, i: SyncInput) {
    i.change.kind != DeleteNote ==> i.change.payload.Some? && i.versionId !in t.versions
  }

  predicate NewlyAccepted(p: Processed) {
    p.Done? && p.accepted && !p.replayed
  }

  predicate NewConflict(p: Processed) {
    p.Done? && !p.accepted && !p.replayed
  }

  /** A new operation is accepted if and only if its user may do it, its note is where it expects it and its version
      can be written. */
  lemma AcceptedExactly(t: Tables, i: SyncInput)
    requires Inv(t) && i.change.operationId !in t.operations
    ensures NewlyAccepted(Process(t, i).1) <==> Allowed(t, i) && MeetsBase(t, i) && Writable(t, i)
  {
    if i.change.noteId in t.notes { CurrentExists(t, i.change.noteId); }
  }

  /** It conflicts if and only if its user may do it and the workspace's note is at another version than it expects;
      then it is answered with the note's current version, and only the operation record is written. */
  lemma ConflictsExactly(t: Tables, i: SyncInput)
    requires Inv(t) && i.change.operationId !in t.operations
    ensures NewConflict(Process(t, i).1) <==>
      Allowed(t, i) && !MeetsBase(t, i) && i.change.noteId in t.notes && t.notes[i.change.noteId].workspaceId == i.workspaceId
    ensures NewConflict(Process(t, i).1) ==> RecordsConflict(t, i, Process(t, i).0, Process(t, i).1)
  {
    if i.change.noteId in t.notes { CurrentExists(t, i.change.noteId); }
    if NewConflict(Process(t, i).1) { ConflictLeaves(t, i); }
  }

  predicate RecordsConflict(t: Tables, i: SyncInput, t': Tables, p: Processed) {
    && p.Done? && i.change.noteId in t.notes && t.notes[i.change.noteId].current in t.versions
    && p.kind == i.change.kind && p.note == t.notes[i.change.noteId] && p.version == t.versions[p.note.current]
    && t' == t.(operations := t.operations[i.change.operationId :=
           Operation(i.workspaceId, i.userId, i.clientId, i.change, false, p.note.current)])
  }

  lemma ConflictLeaves(t: Tables, i: SyncInput)
    requires Inv(t) && i.change.operationId !in t.operations && NewConflict(Process(t, i).1)
    ensures RecordsConflict(t, i, Process(t, i).0, Process(t, i).1)
  {
    if i.change.noteId in t.notes { CurrentExists(t, i.change.noteId); }
  }

  /** A throw changes nothing, and neither does a repeat. */
  lemma ThrowsLeaveNothing(t: Tables, i: SyncInput)
    ensures Process(t, i).1.Threw? || i.change.operationId in t.operations ==> Process(t, i).0 == t
  {
  }

  /** A refusal changes nothing, and its reason is the first of: a reused id, no such note, no right. */
  lemma RefusedExactly(t: Tables, i: SyncInput)
    requires Inv(t) && i.change.operationId !in t.operations
    ensures Process(t, i).1.Refused? <==> !Allowed(t, i)
    ensures Process(t, i).1.Refused? ==>
      && Process(t, i).0 == t
      && (Process(t, i).1.reason == NoteNotFound <==>
            i.change.kind != CreateNote
            && (!Present(t, i.workspaceId, i.change.noteId) || (i.workspaceId, i.userId) !in t.members))
      && Process(t, i).1.reason != IdempotencyMismatch
  {
    if i.change.noteId in t.notes { CurrentExists(t, i.change.noteId); }
  }

  /** The note is new, at the new version, or deleted where it was. */
  predicate LeavesNote(t: Tables, i: SyncInput, note: Note) {
    var n := i.change.noteId;
    match i.change.kind
    case CreateNote => note == Note(n, i.workspaceId, i.userId, i.versionId, false)
    case UpdateNote => n in t.notes && note == t.notes[n].(current := i.versionId)
    case DeleteNote => n in t.notes && note == t.notes[n].(deleted := true)
  }

  /** Its version is the next one with the operation's content, or for a deletion the one it was at. */
  predicate LeavesVersion(t: Tables, i: SyncInput, versions: map<Id, Version>, v: Version) {
    var n := i.change.noteId;
    if i.change.kind == DeleteNote then
      n in t.notes && t.notes[n].current in t.versions && versions == t.versions && v == t.versions[t.notes[n].current]
    else
      && versions == t.versions[i.versionId := v]
      && v.id == i.versionId && v.noteId == n && v.author == i.userId
      && i.change.payload.Some? && v.payload == Stored(i.change.payload.value) && v.clientVersion == Some(Decimal(i.change.revision))
      && if i.change.kind == CreateNote then v.number == 1 && v.parent == None
         else n in t.notes && t.notes[n].current in t.versions
              && v.number == t.versions[t.notes[n].current].number + 1 && v.parent == Some(t.notes[n].current)
  }

  /** What an accepted operation leaves: its note at the new version with its content, or deleted at its base; its
      record, one log entry of its user, and no other row touched. */
  lemma AcceptedLeaves(t: Tables, i: SyncInput)
    requires Inv(t) && i.change.operationId !in t.operations && NewlyAccepted(Process(t, i).1)
    ensures var (t', p) := Process(t, i);
      && p.kind == i.change.kind && LeavesNote(t, i, p.note) && LeavesVersion(t, i, t'.versions, p.version)
      && t'.members == t.members && t'.notes == t.notes[i.change.noteId := p.note]
      && t'.log == t.log + [Entry(i.workspaceId, i.change.noteId, i.change.kind == DeleteNote, p.note.current, i.userId)]
      && t'.operations == t.operations[i.change.operationId :=
           Operation(i.workspaceId, i.userId, i.clientId, i.change, true, p.note.current)]
  {
    AcceptedExactly(t, i);
    if i.change.noteId in t.notes { CurrentExists(t, i.change.noteId); }
  }
}
