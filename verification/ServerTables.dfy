/** The note tables of the server and what each transaction does to them, as functions.
    A transaction that throws leaves the tables as they were. */
module ServerTables {
  import opened Wrappers
  import opened Text
  import opened Envelopes
  import opened SyncTypes

  datatype Entry = Entry(workspaceId: Id, noteId: Id, deletion: bool, versionId: Id, actor: Id)

  datatype Operation = Operation(
    workspaceId: Id, actor: Id, clientId: Id, change: PushChange, accepted: bool, versionId: Id)

  /** `log[k]` is the change with sequence number k + 1. */
  datatype Tables = Tables(
    members: map<(Id, Id), Role>, notes: map<Id, Note>, versions: map<Id, Version>,
    operations: map<Id, Operation>, log: seq<Entry>)

  /** One call of the sync API; `versionId` is the identifier drawn for a version it may insert. */
  datatype SyncInput = SyncInput(workspaceId: Id, userId: Id, clientId: Id, change: PushChange, versionId: Id)

  /** The version columns a direct note API call supplies. */
  datatype DirectVersion = DirectVersion(id: Id, author: Id, payload: StoredPayload, clientVersion: Option<string>)

  datatype Processed =
    | Done(kind: OperationKind, accepted: bool, note: Note, version: Version, replayed: bool)
    | Refused(reason: Refusal)
    | Threw

  predicate Writes(t: Tables, workspaceId: Id, userId: Id) {
    (workspaceId, userId) in t.members && t.members[(workspaceId, userId)] != Viewer
  }

  predicate Owns(t: Tables, workspaceId: Id, userId: Id) {
    (workspaceId, userId) in t.members && t.members[(workspaceId, userId)] == Owner
  }

  predicate LiveIn(t: Tables, workspaceId: Id, noteId: Id) {
    noteId in t.notes && t.notes[noteId].workspaceId == workspaceId && !t.notes[noteId].deleted
  }

  predicate HasVersion(t: Tables, noteId: Id, versionId: Id) {
    versionId in t.versions && t.versions[versionId].noteId == noteId
  }

  /** Insert a version, point the note at it and log it: the three writes of both APIs. */
  function AddVersion(t: Tables, note: Note, v: Version): Tables {
    t.(notes := t.notes[note.id := note.(current := v.id)],
       versions := t.versions[v.id := v],
       log := t.log + [Entry(note.workspaceId, note.id, false, v.id, v.author)])
  }

  function MarkDeleted(t: Tables, note: Note, actor: Id): Tables {
    t.(notes := t.notes[note.id := note.(deleted := true)],
       log := t.log + [Entry(note.workspaceId, note.id, true, note.current, actor)])
  }

  function Record(t: Tables, i: SyncInput, accepted: bool, versionId: Id): Tables {
    t.(operations := t.operations[i.change.operationId :=
         Operation(i.workspaceId, i.userId, i.clientId, i.change, accepted, versionId)])
  }

  function PushedVersion(i: SyncInput, number: nat, parent: Option<Id>): Version
    requires i.change.payload.Some?
  {
    Version(i.versionId, i.change.noteId, number, parent, i.userId, Stored(i.change.payload.value),
            Some(Decimal(i.change.revision)))
  }

  /** `processOperation` */
  function Process(t: Tables, i: SyncInput): (Tables, Processed) {
    if i.change.operationId in t.operations then (t, Replay(t, i))
    else if i.change.kind == CreateNote then ProcessCreate(t, i)
    else ProcessExisting(t, i)
  }

  function Replay(t: Tables, i: SyncInput): Processed
    requires i.change.operationId in t.operations
  {
    var o := t.operations[i.change.operationId];
    if o.workspaceId != i.workspaceId || o.actor != i.userId || o.clientId != i.clientId || o.change != i.change then
      Refused(IdempotencyMismatch)
    else if o.change.noteId !in t.notes || t.notes[o.change.noteId].workspaceId != i.workspaceId
            || !HasVersion(t, o.change.noteId, o.versionId) then Threw
    else Done(o.change.kind, o.accepted, t.notes[o.change.noteId], t.versions[o.versionId], true)
  }

  /** Record a conflict against the note's current version. */
  function Diverge(t: Tables, i: SyncInput, note: Note): (Tables, Processed) {
    if !HasVersion(t, note.id, note.current) then (t, Threw)
    else (Record(t, i, false, note.current), Done(i.change.kind, false, note, t.versions[note.current], false))
  }

  function ProcessCreate(t: Tables, i: SyncInput): (Tables, Processed) {
    var n := i.change.noteId;
    if !Writes(t, i.workspaceId, i.userId) then (t, Refused(Forbidden))
    else if n in t.notes && t.notes[n].workspaceId == i.workspaceId then Diverge(t, i, t.notes[n])
    else if n in t.notes || i.change.payload.None? || i.versionId in t.versions then (t, Threw)
    else
      var v := PushedVersion(i, 1, None);
      var note := Note(n, i.workspaceId, i.userId, v.id, false);
      (Record(AddVersion(t, note, v), i, true, v.id), Done(CreateNote, true, note, v, false))
  }

  function ProcessExisting(t: Tables, i: SyncInput): (Tables, Processed) {
    var n := i.change.noteId;
    if !LiveIn(t, i.workspaceId, n) || (i.workspaceId, i.userId) !in t.members then (t, Refused(NoteNotFound))
    else
      var note := t.notes[n];
      if (i.change.kind == UpdateNote && !Writes(t, i.workspaceId, i.userId))
         || (i.change.kind == DeleteNote && !Owns(t, i.workspaceId, i.userId)) then (t, Refused(Forbidden))
      else if Some(note.current) != i.change.base then Diverge(t, i, note)
      else if !HasVersion(t, n, note.current) then (t, Threw)
      else if i.change.kind == DeleteNote then
        (Record(MarkDeleted(t, note, i.userId), i, true, note.current),
         Done(DeleteNote, true, note.(deleted := true), t.versions[note.current], false))
      else if i.change.payload.None? || i.versionId in t.versions then (t, Threw)
      else
        var v := PushedVersion(i, t.versions[note.current].number + 1, Some(note.current));
        (Record(AddVersion(t, note, v), i, true, v.id), Done(UpdateNote, true, note.(current := v.id), v, false))
  }

  /** `createNote` of the direct note API, whose caller is the author too. */
  function DirectCreate(t: Tables, workspaceId: Id, userId: Id, noteId: Id, d: DirectVersion): Tables {
    if !Writes(t, workspaceId, userId) || noteId in t.notes || d.id in t.versions then t
    else AddVersion(t, Note(noteId, workspaceId, userId, d.id, false),
                    Version(d.id, noteId, 1, None, userId, d.payload, d.clientVersion))
  }

  predicate CanAppend(t: Tables, workspaceId: Id, noteId: Id, d: DirectVersion) {
    && LiveIn(t, workspaceId, noteId) && Writes(t, workspaceId, d.author)
    && HasVersion(t, noteId, t.notes[noteId].current) && d.id !in t.versions
  }

  /** `appendVersion` of the direct note API. */
  function DirectAppend(t: Tables, workspaceId: Id, noteId: Id, d: DirectVersion): Tables {
    if !CanAppend(t, workspaceId, noteId, d) then t
    else
      var note := t.notes[noteId];
      AddVersion(t, note, Version(d.id, noteId, t.versions[note.current].number + 1, Some(note.current), d.author,
                                  d.payload, d.clientVersion))
  }

  /** `softDeleteNote` of the direct note API. */
  function DirectDelete(t: Tables, workspaceId: Id, noteId: Id, userId: Id): Tables {
    if !LiveIn(t, workspaceId, noteId) || !Owns(t, workspaceId, userId) then t
    else MarkDeleted(t, t.notes[noteId], userId)
  }

  datatype Step =
    | SyncStep(input: SyncInput)
    | CreateStep(workspaceId: Id, userId: Id, noteId: Id, version: DirectVersion)
    | AppendStep(workspaceId: Id, noteId: Id, version: DirectVersion)
    | DeleteStep(workspaceId: Id, noteId: Id, userId: Id)
    | MemberStep(members: map<(Id, Id), Role>)

  /** One transaction of any client, over either API, or any change of the memberships. */
  function Next(t: Tables, step: Step): Tables {
    match step
    case SyncStep(i) => Process(t, i).0
    case CreateStep(w, u, n, d) => DirectCreate(t, w, u, n, d)
    case AppendStep(w, n, d) => DirectAppend(t, w, n, d)
    case DeleteStep(w, n, u) => DirectDelete(t, w, n, u)
    case MemberStep(m) => t.(members := m)
  }

  function Run(t: Tables, steps: seq<Step>): Tables
    decreases |steps|
  {
    if steps == [] then t else Run(Next(t, steps[0]), steps[1..])
  }

  const EMPTY: Tables := Tables(map[], map[], map[], map[], [])

  /** `pushResult` and the refusal branch of `push`. None where the transaction threw. */
  function Answer(operationId: Id, p: Processed): Option<PushResult> {
    match p
    case Done(_, accepted, note, version, replayed) =>
      Some(if accepted && replayed then DuplicateAccepted(operationId, note, version)
           else if accepted then Accepted(operationId, note, version)
           else if replayed then DuplicateConflict(operationId, note, version)
           else Conflict(operationId, note, version))
    case Refused(reason) => Some(Rejected(operationId, reason))
    case Threw => None
  }
}
