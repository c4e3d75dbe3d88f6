/** The server's note tables as the two repositories and the sync service write them, row by row. */
module SyncServer {
  import opened Wrappers
  import opened Text
  import opened SyncTypes
  import opened ServerTables
  import opened Paging
  import ServerInvariants

  class Database {
    var members: map<(Id, Id), Role>
    var notes: map<Id, Note>
    var versions: map<Id, Version>
    var operations: map<Id, Operation>
    var log: seq<Entry>

    constructor ()
      ensures State() == EMPTY && ServerInvariants.Inv(State())
    {
      members, notes, versions, operations, log := map[], map[], map[], map[], [];
    }

    function State(): Tables
      reads this
    {
      Tables(members, notes, versions, operations, log)
    }

    /** Rows are stored under their own ids. */
    ghost predicate Valid()
      reads this
    {
      forall n :: n in notes ==> notes[n].id == n
    }

    /** Undo a transaction that threw. */
    method Rollback(saved: Tables)
      modifies this
      ensures State() == saved
    {
      members, notes, versions := saved.members, saved.notes, saved.versions;
      operations, log := saved.operations, saved.log;
    }

    /** A repeated identifier throws. */
    method InsertVersion(v: Version) returns (ok: bool)
      modifies this`versions
      ensures ok <==> v.id !in old(versions)
      ensures versions == if ok then old(versions)[v.id := v] else old(versions)
    {
      ok := v.id !in versions;
      if ok { versions := versions[v.id := v]; }
    }

    method InsertChange(workspaceId: Id, noteId: Id, deletion: bool, versionId: Id, actor: Id)
      modifies this`log
      ensures log == old(log) + [Entry(workspaceId, noteId, deletion, versionId, actor)]
    {
      log := log + [Entry(workspaceId, noteId, deletion, versionId, actor)];
    }
  }

  class PostgresSyncRepository {
    const database: Database

    constructor (database: Database)
      ensures this.database == database
    {
      this.database := database;
    }

    method InsertOperation(i: SyncInput, accepted: bool, versionId: Id)
      modifies database`operations
      ensures database.State() == Record(old(database.State()), i, accepted, versionId)
    {
      database.operations := database.operations[i.change.operationId :=
        Operation(i.workspaceId, i.userId, i.clientId, i.change, accepted, versionId)];
    }

    /** `processOperation`: a thrown error takes back every row written before it. */
    method ProcessOperation(i: SyncInput) returns (p: Processed)
      requires database.Valid()
      modifies database
      ensures database.State() == Process(old(database.State()), i).0 && p == Process(old(database.State()), i).1
      ensures database.Valid()
    {
      var saved := database.State();
      if i.change.operationId in database.operations {
        p := Replay(saved, i);
      } else if i.change.kind == CreateNote {
        p := CreateOperation(i);
      } else {
        p := ExistingOperation(i);
      }
      if p.Threw? { database.Rollback(saved); }
    }

    /** Record the operation as a conflict first, then read the version it conflicts with. */
    method RecordConflict(i: SyncInput, note: Note) returns (p: Processed)
      modifies database`operations
      ensures p == Diverge(old(database.State()), i, note).1
      ensures !p.Threw? ==> database.State() == Diverge(old(database.State()), i, note).0
    {
      InsertOperation(i, false, note.current);
      if !HasVersion(database.State(), note.id, note.current) { return Threw; }
      p := Done(i.change.kind, false, note, database.versions[note.current], false);
    }

    method CreateOperation(i: SyncInput) returns (p: Processed)
      requires database.Valid()
      modifies database
      ensures p == ProcessCreate(old(database.State()), i).1
      ensures !p.Threw? ==> database.State() == ProcessCreate(old(database.State()), i).0
    {
      var n := i.change.noteId;
      if !Writes(database.State(), i.workspaceId, i.userId) { return Refused(Forbidden); }
      if n in database.notes && database.notes[n].workspaceId == i.workspaceId {
        p := RecordConflict(i, database.notes[n]);
        return;
      }
      if n in database.notes { return Threw; }
      // The new row has no version yet.
      database.notes := database.notes[n := Note(n, i.workspaceId, i.userId, 0, false)];
      if i.change.payload.None? { return Threw; }
      var v := PushedVersion(i, 1, None);
      var inserted := database.InsertVersion(v);
      if !inserted { return Threw; }
      database.notes := database.notes[n := database.notes[n].(current := v.id)];
      InsertOperation(i, true, v.id);
      database.InsertChange(i.workspaceId, n, false, v.id, i.userId);
      p := Done(CreateNote, true, database.notes[n], v, false);
    }

    method ExistingOperation(i: SyncInput) returns (p: Processed)
      requires i.change.kind != CreateNote && database.Valid()
      modifies database
      ensures p == ProcessExisting(old(database.State()), i).1
      ensures !p.Threw? ==> database.State() == ProcessExisting(old(database.State()), i).0
    {
      var n := i.change.noteId;
      if !LiveIn(database.State(), i.workspaceId, n) || (i.workspaceId, i.userId) !in database.members {
        return Refused(NoteNotFound);
      }
      var current, role := database.notes[n], database.members[(i.workspaceId, i.userId)];
      if (i.change.kind == UpdateNote && role == Viewer) || (i.change.kind == DeleteNote && role != Owner) {
        return Refused(Forbidden);
      }
      if Some(current.current) != i.change.base {
        p := RecordConflict(i, current);
      } else if i.change.kind == DeleteNote {
        p := DeleteOperation(i, current);
      } else {
        p := UpdateOperation(i, current);
      }
    }

    method DeleteOperation(i: SyncInput, current: Note) returns (p: Processed)
      requires current.id == i.change.noteId && database.Valid()
      modifies database
      ensures p.Threw? <==> !HasVersion(old(database.State()), current.id, current.current)
      ensures !p.Threw? ==>
        && database.State() == Record(MarkDeleted(old(database.State()), current, i.userId), i, true, current.current)
        && p == Done(DeleteNote, true, current.(deleted := true), old(database.versions)[current.current], false)
    {
      database.notes := database.notes[current.id := current.(deleted := true)];
      if !HasVersion(database.State(), current.id, current.current) { return Threw; }
      InsertOperation(i, true, current.current);
      database.InsertChange(current.workspaceId, current.id, true, current.current, i.userId);
      p := Done(DeleteNote, true, database.notes[current.id], database.versions[current.current], false);
    }

    method UpdateOperation(i: SyncInput, current: Note) returns (p: Processed)
      requires current.id == i.change.noteId && database.Valid()
      modifies database
      ensures p.Threw? <==>
        !HasVersion(old(database.State()), current.id, current.current) || i.change.payload.None? || i.versionId in old(database.versions)
      ensures !p.Threw? ==>
        var v := PushedVersion(i, old(database.versions)[current.current].number + 1, Some(current.current));
        && database.State() == Record(AddVersion(old(database.State()), current, v), i, true, v.id)
        && p == Done(UpdateNote, true, current.(current := v.id), v, false)
    {
      if !HasVersion(database.State(), current.id, current.current) || i.change.payload.None? { return Threw; }
      var v := PushedVersion(i, database.versions[current.current].number + 1, Some(current.current));
      var inserted := database.InsertVersion(v);
      if !inserted { return Threw; }
      database.notes := database.notes[current.id := current.(current := v.id)];
      InsertOperation(i, true, v.id);
      database.InsertChange(current.workspaceId, current.id, false, v.id, i.userId);
      p := Done(UpdateNote, true, database.notes[current.id], v, false);
    }

    /** `pullChanges`: scan the log in order for the first `limit` visible entries after a sequence number. */
    method PullChanges(workspaceId: Id, after: nat, limit: nat) returns (numbers: seq<nat>)
      ensures numbers == Page(database.State(), workspaceId, after, limit)
    {
      numbers := [];
      var t, k := database.State(), 0;
      while k < |t.log|
        invariant k <= |t.log| && t == database.State()
        invariant numbers == First(Feed(t, workspaceId, after, k), limit)
      {
        k := k + 1;
        if after < k && Visible(t, workspaceId, t.log[k - 1]) && |numbers| < limit { numbers := numbers + [k]; }
      }
    }
  }

  function First(f: seq<nat>, limit: nat): seq<nat> {
    if |f| <= limit then f else f[..limit]
  }

  /** What the direct API returns for a write: the rows, null, or an exception. */
  datatype DirectAnswer = Written(note: Note, version: Version) | Absent | Raised

  predicate Shows(t: Tables, noteId: Id, a: DirectAnswer) {
    a.Written? ==>
      && noteId in t.notes && t.notes[noteId] == a.note
      && a.note.current in t.versions && t.versions[a.note.current] == a.version
  }

  class PostgresNoteRepository {
    const database: Database

    constructor (database: Database)
      ensures this.database == database
    {
      this.database := database;
    }

    /** `createNote` */
    method CreateNote(workspaceId: Id, userId: Id, noteId: Id, d: DirectVersion) returns (answer: DirectAnswer)
      requires database.Valid()
      modifies database
      ensures database.State() == DirectCreate(old(database.State()), workspaceId, userId, noteId, d) && database.Valid()
      ensures answer.Absent? <==>
        (workspaceId, userId) !in old(database.members) || old(database.members)[(workspaceId, userId)] == Viewer
      ensures answer.Raised? <==> !answer.Absent? && (noteId in old(database.notes) || d.id in old(database.versions))
      ensures answer.Written? ==>
        && answer.note == Note(noteId, workspaceId, userId, d.id, false)
        && answer.version == Version(d.id, noteId, 1, None, userId, d.payload, d.clientVersion)
      ensures Shows(database.State(), noteId, answer)
    {
      var saved := database.State();
      if !Writes(saved, workspaceId, userId) { return Absent; }
      if noteId in database.notes { return Raised; }
      database.notes := database.notes[noteId := Note(noteId, workspaceId, userId, 0, false)];
      var v := Version(d.id, noteId, 1, None, userId, d.payload, d.clientVersion);
      var ok := database.InsertVersion(v);
      if !ok {
        database.Rollback(saved);
        return Raised;
      }
      database.notes := database.notes[noteId := database.notes[noteId].(current := v.id)];
      database.InsertChange(workspaceId, noteId, false, v.id, userId);
      answer := Written(database.notes[noteId], v);
    }

    /** `appendVersion` */
    method AppendVersion(workspaceId: Id, noteId: Id, d: DirectVersion) returns (answer: DirectAnswer)
      requires database.Valid()
      modifies database
      ensures database.State() == DirectAppend(old(database.State()), workspaceId, noteId, d) && database.Valid()
      ensures answer.Absent? <==>
        || noteId !in old(database.notes) || old(database.notes)[noteId].workspaceId != workspaceId || old(database.notes)[noteId].deleted
        || (workspaceId, d.author) !in old(database.members) || old(database.members)[(workspaceId, d.author)] == Viewer
      ensures answer.Written? <==> CanAppend(old(database.State()), workspaceId, noteId, d)
      ensures answer.Written? ==>
        var before := old(database.notes)[noteId];
        && before.current in old(database.versions) && answer.note == before.(current := d.id)
        && answer.version == Version(d.id, noteId, old(database.versions)[before.current].number + 1, Some(before.current), d.author,
                                     d.payload, d.clientVersion)
      ensures Shows(database.State(), noteId, answer)
    {
      var saved := database.State();
      if !LiveIn(saved, workspaceId, noteId) || !Writes(saved, workspaceId, d.author) { return Absent; }
      var note := database.notes[noteId];
      if !HasVersion(saved, noteId, note.current) { return Raised; }
      var v := Version(d.id, noteId, database.versions[note.current].number + 1, Some(note.current), d.author, d.payload, d.clientVersion);
      var ok := database.InsertVersion(v);
      if !ok { return Raised; }
      database.notes := database.notes[noteId := note.(current := v.id)];
      database.InsertChange(workspaceId, noteId, false, v.id, d.author);
      answer := Written(database.notes[noteId], v);
    }

    /** `softDeleteNote` */
    method SoftDeleteNote(workspaceId: Id, noteId: Id, userId: Id) returns (ok: bool)
      requires database.Valid()
      modifies database
      ensures database.State() == DirectDelete(old(database.State()), workspaceId, noteId, userId) && database.Valid()
      ensures ok <==>
        && noteId in old(database.notes) && old(database.notes)[noteId].workspaceId == workspaceId && !old(database.notes)[noteId].deleted
        && (workspaceId, userId) in old(database.members) && old(database.members)[(workspaceId, userId)] == Owner
    {
      if !LiveIn(database.State(), workspaceId, noteId) || !Owns(database.State(), workspaceId, userId) { return false; }
      var note := database.notes[noteId];
      database.notes := database.notes[noteId := note.(deleted := true)];
      database.InsertChange(workspaceId, noteId, true, note.current, userId);
      ok := true;
    }
  }
}
