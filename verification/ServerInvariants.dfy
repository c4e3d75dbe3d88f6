/** What every transaction of either note API keeps: linear version chains, a log that
    determines the tables, and operation records that never change. */
module ServerInvariants {
  import opened Wrappers
  import opened Text
  import opened SyncTypes
  import opened ServerTables

  /** A note's log entries, in sequence order. */
  function History(log: seq<Entry>, noteId: Id): seq<Entry> {
    if log == [] then []
    else
      var earlier := History(log[..|log| - 1], noteId);
      if log[|log| - 1].noteId == noteId then earlier + [log[|log| - 1]] else earlier
  }

  lemma HistoryAppend(log: seq<Entry>, e: Entry, noteId: Id)
    ensures History(log + [e], noteId) ==
      if e.noteId == noteId then History(log, noteId) + [e] else History(log, noteId)
  {
    assert (log + [e])[..|log|] == log;
  }

  function Length(note: Note, h: seq<Entry>): int {
    if note.deleted then |h| - 1 else |h|
  }

  /** Entry k of a note's history is its version k + 1, whose parent is version k. */
  ghost predicate Link(versions: map<Id, Version>, h: seq<Entry>, noteId: Id, k: nat)
    requires k < |h|
  {
    && !h[k].deletion
    && h[k].versionId in versions
    && var v := versions[h[k].versionId];
    && v.id == h[k].versionId && v.noteId == noteId && v.number == k + 1
    && v.parent == (if k == 0 then None else Some(h[k - 1].versionId))
  }

  /** The history is the note's versions 1..n once each, then at most one deletion carrying version n;
      the current pointer is version n. */
  ghost predicate Linear(note: Note, h: seq<Entry>, versions: map<Id, Version>) {
    var n := Length(note, h);
    && n >= 1
    && (forall k :: 0 <= k < |h| ==> h[k].workspaceId == note.workspaceId && h[k].noteId == note.id)
    && (forall k :: 0 <= k < n ==> Link(versions, h, note.id, k))
    && note.current == h[n - 1].versionId
    && (note.deleted ==> h[n].deletion && h[n].versionId == note.current)
  }

  /** A stored version is the entry of its own number in its note's history. */
  ghost predicate Logged(v: Version, notes: map<Id, Note>, log: seq<Entry>) {
    && v.noteId in notes
    && 1 <= v.number <= Length(notes[v.noteId], History(log, v.noteId))
    && History(log, v.noteId)[v.number - 1].versionId == v.id
  }

  /** What holds of the three tables that both APIs write. */
  ghost predicate Core(notes: map<Id, Note>, versions: map<Id, Version>, log: seq<Entry>) {
    && (forall n :: n in notes ==> notes[n].id == n && Linear(notes[n], History(log, n), versions))
    && (forall n :: n !in notes ==> History(log, n) == [])
    && (forall v :: v in versions ==> versions[v].id == v && Logged(versions[v], notes, log))
  }

  /** What a recorded operation says about the tables. */
  ghost predicate Faithful(o: Operation, notes: map<Id, Note>, versions: map<Id, Version>) {
    && o.change.noteId in notes && notes[o.change.noteId].workspaceId == o.workspaceId
    && o.versionId in versions && versions[o.versionId].noteId == o.change.noteId
    && var v := versions[o.versionId];
    && (o.accepted && o.change.kind != DeleteNote ==>
          && o.change.payload.Some? && v.payload == Stored(o.change.payload.value)
          && v.clientVersion == Some(Decimal(o.change.revision)) && v.author == o.actor)
    && (o.accepted && o.change.kind == CreateNote ==> v.number == 1 && v.parent.None?)
    && (o.accepted && o.change.kind == UpdateNote ==> v.parent.Some? && v.parent == o.change.base)
    && (o.accepted && o.change.kind == DeleteNote ==>
          && o.change.base == Some(o.versionId) && notes[o.change.noteId].deleted
          && notes[o.change.noteId].current == o.versionId)
  }

  ghost predicate WritesVersion(o: Operation) {
    o.accepted && o.change.kind != DeleteNote
  }

  ghost predicate Recorded(t: Tables) {
    && (forall o :: o in t.operations ==>
          t.operations[o].change.operationId == o && Faithful(t.operations[o], t.notes, t.versions))
    && (forall o, o' :: o in t.operations && o' in t.operations && o != o'
          && WritesVersion(t.operations[o]) && WritesVersion(t.operations[o'])
          ==> t.operations[o].versionId != t.operations[o'].versionId)
  }

  ghost predicate Inv(t: Tables) {
    Core(t.notes, t.versions, t.log) && Recorded(t)
  }

  ghost predicate Extends<T>(m: map<Id, T>, m': map<Id, T>) {
    forall k :: k in m ==> k in m' && m'[k] == m[k]
  }

  /** A note keeps its workspace, and once deleted nothing about it changes again. */
  ghost predicate NoteGrows(note: Note, note': Note, h: seq<Entry>, h': seq<Entry>) {
    && note'.workspaceId == note.workspaceId && note'.id == note.id
    && (note.deleted ==> note' == note && h' == h)
  }

  ghost predicate NotesGrow(t: Tables, t': Tables) {
    forall n :: n in t.notes ==>
      n in t'.notes && NoteGrows(t.notes[n], t'.notes[n], History(t.log, n), History(t'.log, n))
  }

  /** What a transaction never takes back. */
  ghost predicate Grows(t: Tables, t': Tables) {
    && t.log <= t'.log && Extends(t.versions, t'.versions) && Extends(t.operations, t'.operations) && NotesGrow(t, t')
  }

  /** `v` continues the chain of `note`, or starts it. */
  ghost predicate Continues(t: Tables, note: Note, v: Version) {
    && v.id !in t.versions && v.noteId == note.id && !note.deleted
    && (note.id in t.notes ==>
          note == t.notes[note.id] && v.parent == Some(note.current)
          && note.current in t.versions && v.number == t.versions[note.current].number + 1)
    && (note.id !in t.notes ==> v.parent == None && v.number == 1)
  }

  lemma LinearGrows(note: Note, h: seq<Entry>, versions: map<Id, Version>, versions': map<Id, Version>)
    requires Linear(note, h, versions) && Extends(versions, versions')
    ensures Linear(note, h, versions')
  {
    forall k | 0 <= k < Length(note, h) ensures Link(versions', h, note.id, k) {
      assert Link(versions, h, note.id, k);
    }
  }

  lemma ChainGrows(t: Tables, note: Note, v: Version, h: seq<Entry>)
    requires Continues(t, note, v) && h == History(t.log, note.id)
    requires note.id in t.notes ==> Linear(note, h, t.versions)
    requires note.id !in t.notes ==> h == []
    ensures v.number == |h| + 1
    ensures Linear(note.(current := v.id), h + [Entry(note.workspaceId, note.id, false, v.id, v.author)], t.versions[v.id := v])
  {
    var e := Entry(note.workspaceId, note.id, false, v.id, v.author);
    var versions' := t.versions[v.id := v];
    if note.id in t.notes { assert Link(t.versions, h, note.id, |h| - 1); }
    forall k | 0 <= k < |h| + 1 ensures Link(versions', h + [e], note.id, k) {
      if k < |h| { assert Link(t.versions, h, note.id, k); }
    }
  }

  lemma AddVersionGrows(t: Tables, note: Note, v: Version)
    requires Core(t.notes, t.versions, t.log) && Continues(t, note, v)
    ensures Grows(t, AddVersion(t, note, v))
  {
    var t' := AddVersion(t, note, v);
    var e := Entry(note.workspaceId, note.id, false, v.id, v.author);
    forall n | n in t.notes
      ensures NoteGrows(t.notes[n], t'.notes[n], History(t.log, n), History(t'.log, n))
    {
      HistoryAppend(t.log, e, n);
    }
  }

  lemma AddVersionHistory(t: Tables, note: Note, v: Version, t': Tables)
    requires t' == AddVersion(t, note, v)
    ensures History(t'.log, note.id) == History(t.log, note.id) + [Entry(note.workspaceId, note.id, false, v.id, v.author)]
    ensures forall n :: n != note.id ==> History(t'.log, n) == History(t.log, n)
  {
    var e := Entry(note.workspaceId, note.id, false, v.id, v.author);
    HistoryAppend(t.log, e, note.id);
    forall n | n != note.id ensures History(t'.log, n) == History(t.log, n) { HistoryAppend(t.log, e, n); }
  }

  lemma AddVersionIsLinear(t: Tables, note: Note, v: Version, h: seq<Entry>, t': Tables)
    requires Core(t.notes, t.versions, t.log) && Continues(t, note, v) && t' == AddVersion(t, note, v)
    requires h == History(t.log, note.id) && Linear(note.(current := v.id), History(t'.log, note.id), t'.versions)
    requires forall n :: n != note.id ==> History(t'.log, n) == History(t.log, n)
    ensures forall n :: n in t'.notes ==> t'.notes[n].id == n && Linear(t'.notes[n], History(t'.log, n), t'.versions)
  {
    forall n | n in t'.notes ensures t'.notes[n].id == n && Linear(t'.notes[n], History(t'.log, n), t'.versions) {
      if n != note.id { LinearGrows(t.notes[n], History(t.log, n), t.versions, t'.versions); }
    }
  }

  lemma AddVersionKeepsCore(t: Tables, note: Note, v: Version)
    requires Core(t.notes, t.versions, t.log) && Continues(t, note, v)
    ensures var t' := AddVersion(t, note, v);
      Core(t'.notes, t'.versions, t'.log)
  {
    var t', h := AddVersion(t, note, v), History(t.log, note.id);
    AddVersionHistory(t, note, v, t');
    ChainGrows(t, note, v, h);
    AddVersionIsLinear(t, note, v, h, t');
    AddVersionLogs(t, note, v, h, t');
  }

  lemma AddVersionLogs(t: Tables, note: Note, v: Version, h: seq<Entry>, t': Tables)
    requires Core(t.notes, t.versions, t.log) && Continues(t, note, v) && t' == AddVersion(t, note, v)
    requires h == History(t.log, note.id) && v.number == |h| + 1
    requires History(t'.log, note.id) == h + [Entry(note.workspaceId, note.id, false, v.id, v.author)]
    requires forall n :: n != note.id ==> History(t'.log, n) == History(t.log, n)
    ensures forall w :: w in t'.versions ==> t'.versions[w].id == w && Logged(t'.versions[w], t'.notes, t'.log)
  {
    forall w | w in t'.versions ensures t'.versions[w].id == w && Logged(t'.versions[w], t'.notes, t'.log) {
      if w == v.id {
        assert (h + [Entry(note.workspaceId, note.id, false, v.id, v.author)])[v.number - 1].versionId == v.id;
      } else {
        assert Logged(t.versions[w], t.notes, t.log);
      }
    }
  }

  lemma MarkDeletedGrows(t: Tables, n: Id, actor: Id)
    requires Core(t.notes, t.versions, t.log) && n in t.notes && !t.notes[n].deleted
    ensures Grows(t, MarkDeleted(t, t.notes[n], actor))
  {
    var note := t.notes[n];
    var t' := MarkDeleted(t, note, actor);
    forall m | m in t.notes ensures NoteGrows(t.notes[m], t'.notes[m], History(t.log, m), History(t'.log, m)) {
      HistoryAppend(t.log, Entry(note.workspaceId, note.id, true, note.current, actor), m);
    }
  }

  lemma DeletionIsLinear(t: Tables, n: Id, e: Entry)
    requires n in t.notes && !t.notes[n].deleted && t.notes[n].id == n && Linear(t.notes[n], History(t.log, n), t.versions)
    requires e == Entry(t.notes[n].workspaceId, n, true, t.notes[n].current, e.actor)
    ensures Linear(t.notes[n].(deleted := true), History(t.log, n) + [e], t.versions)
  {
    var h := History(t.log, n);
    forall k | 0 <= k < |h| ensures Link(t.versions, h + [e], n, k) { assert Link(t.versions, h, n, k); }
  }

  lemma MarkDeletedKeepsCore(t: Tables, n: Id, actor: Id, t': Tables)
    requires Core(t.notes, t.versions, t.log) && n in t.notes && !t.notes[n].deleted && t' == MarkDeleted(t, t.notes[n], actor)
    ensures Core(t'.notes, t'.versions, t'.log)
  {
    var note := t.notes[n];
    var h, e := History(t.log, n), Entry(note.workspaceId, n, true, note.current, actor);
    forall m ensures History(t'.log, m) == if m == n then h + [e] else History(t.log, m) {
      HistoryAppend(t.log, e, m);
    }
    DeletionIsLinear(t, n, e);
    forall w | w in t'.versions ensures Logged(t'.versions[w], t'.notes, t'.log) {
      assert Logged(t.versions[w], t.notes, t.log);
    }
  }

  lemma GrowthKeepsRecords(t: Tables, t': Tables)
    requires Recorded(t) && Extends(t.versions, t'.versions) && NotesGrow(t, t') && t'.operations == t.operations
    ensures Recorded(t')
  {
    forall o | o in t'.operations ensures Faithful(t'.operations[o], t'.notes, t'.versions) {
      assert Faithful(t.operations[o], t.notes, t.versions);
      var n := t.operations[o].change.noteId;
      assert NoteGrows(t.notes[n], t'.notes[n], History(t.log, n), History(t'.log, n));
    }
  }

  lemma RecordKeepsRecorded(t: Tables, i: SyncInput, accepted: bool, versionId: Id)
    requires Recorded(t) && i.change.operationId !in t.operations
    requires Faithful(Operation(i.workspaceId, i.userId, i.clientId, i.change, accepted, versionId), t.notes, t.versions)
    requires accepted && i.change.kind != DeleteNote ==>
      forall o :: o in t.operations ==> t.operations[o].versionId != versionId
    ensures Recorded(Record(t, i, accepted, versionId)) && Grows(t, Record(t, i, accepted, versionId))
  {
  }

  lemma CurrentExists(t: Tables, n: Id)
    requires Core(t.notes, t.versions, t.log) && n in t.notes
    ensures HasVersion(t, n, t.notes[n].current)
    ensures t.versions[t.notes[n].current].number == Length(t.notes[n], History(t.log, n))
  {
    var h := History(t.log, n);
    assert Linear(t.notes[n], h, t.versions);
    assert Link(t.versions, h, n, Length(t.notes[n], h) - 1);
  }

  lemma LastEntryIsCurrent(t: Tables, n: Id)
    requires Core(t.notes, t.versions, t.log)
    ensures History(t.log, n) != [] <==> n in t.notes
    ensures n in t.notes ==>
      var e := History(t.log, n)[|History(t.log, n)| - 1];
      e.versionId == t.notes[n].current && e.deletion == t.notes[n].deleted && e.workspaceId == t.notes[n].workspaceId
  {
    if n in t.notes {
      var h := History(t.log, n);
      assert Linear(t.notes[n], h, t.versions);
      if !t.notes[n].deleted { assert Link(t.versions, h, n, |h| - 1); }
    }
  }

  lemma GrowsTransitive(a: Tables, b: Tables, c: Tables)
    requires Grows(a, b) && Grows(b, c)
    ensures Grows(a, c)
  {
    forall n | n in a.notes
      ensures n in c.notes && NoteGrows(a.notes[n], c.notes[n], History(a.log, n), History(c.log, n))
    {
      assert NoteGrows(a.notes[n], b.notes[n], History(a.log, n), History(b.log, n));
      assert NoteGrows(b.notes[n], c.notes[n], History(b.log, n), History(c.log, n));
    }
  }

  lemma PushedVersionKeepsInv(t: Tables, note: Note, i: SyncInput, number: nat, parent: Option<Id>, t': Tables)
    requires Inv(t) && i.change.operationId !in t.operations && i.change.payload.Some?
    requires Continues(t, note, PushedVersion(i, number, parent))
    requires note.id == i.change.noteId && note.workspaceId == i.workspaceId
    requires i.change.kind == CreateNote ==> note.id !in t.notes
    requires i.change.kind == UpdateNote ==> note.id in t.notes && parent == i.change.base
    requires i.change.kind != DeleteNote
    requires t' == Record(AddVersion(t, note, PushedVersion(i, number, parent)), i, true, i.versionId)
    ensures Inv(t') && Grows(t, t')
  {
    var v := PushedVersion(i, number, parent);
    var t1 := AddVersion(t, note, v);
    AddVersionKeepsCore(t, note, v);
    AddVersionGrows(t, note, v);
    GrowthKeepsRecords(t, t1);
    forall o | o in t1.operations ensures t1.operations[o].versionId != v.id {
      assert Faithful(t.operations[o], t.notes, t.versions);
    }
    RecordKeepsRecorded(t1, i, true, v.id);
    GrowsTransitive(t, t1, t');
  }

  lemma PushedDeletionKeepsInv(t: Tables, i: SyncInput, t': Tables)
    requires Inv(t) && i.change.operationId !in t.operations && i.change.kind == DeleteNote
    requires LiveIn(t, i.workspaceId, i.change.noteId) && Some(t.notes[i.change.noteId].current) == i.change.base
    requires t' == Record(MarkDeleted(t, t.notes[i.change.noteId], i.userId), i, true, t.notes[i.change.noteId].current)
    ensures Inv(t') && Grows(t, t')
  {
    var n := i.change.noteId;
    var note := t.notes[n];
    var t1 := MarkDeleted(t, note, i.userId);
    CurrentExists(t, n);
    MarkDeletedKeepsCore(t, n, i.userId, t1);
    MarkDeletedGrows(t, n, i.userId);
    GrowthKeepsRecords(t, t1);
    RecordKeepsRecorded(t1, i, true, note.current);
    GrowsTransitive(t, t1, t');
  }

  lemma DivergeKeepsInv(t: Tables, i: SyncInput, t': Tables)
    requires Inv(t) && i.change.operationId !in t.operations
    requires i.change.noteId in t.notes && t.notes[i.change.noteId].workspaceId == i.workspaceId
    requires t' == Diverge(t, i, t.notes[i.change.noteId]).0
    ensures Inv(t') && Grows(t, t')
  {
    var n := i.change.noteId;
    CurrentExists(t, n);
    RecordKeepsRecorded(t, i, false, t.notes[n].current);
  }

  /** An answered operation is on record under its own id with the status and version of the answer,
      and the answer shows the note and the version as they are stored. */
  ghost predicate Explains(t: Tables, i: SyncInput, p: Processed) {
    p.Done? ==>
      && p.version.id in t.versions && t.versions[p.version.id] == p.version
      && p.note.id == i.change.noteId && p.note.workspaceId == i.workspaceId
      && p.note.id in t.notes && t.notes[p.note.id] == p.note
      && p.kind == i.change.kind && p.version.noteId == i.change.noteId
      && i.change.operationId in t.operations
      && t.operations[i.change.operationId] ==
         Operation(i.workspaceId, i.userId, i.clientId, i.change, p.accepted, p.version.id)
  }

  lemma ProcessCreateKeepsInv(t: Tables, i: SyncInput, t': Tables)
    requires Inv(t) && i.change.operationId !in t.operations && i.change.kind == CreateNote
    requires t' == ProcessCreate(t, i).0
    ensures Inv(t') && Grows(t, t')
  {
    var n := i.change.noteId;
    if t' != t {
      if n in t.notes {
        DivergeKeepsInv(t, i, t');
      } else {
        PushedVersionKeepsInv(t, Note(n, i.workspaceId, i.userId, i.versionId, false), i, 1, None, t');
      }
    }
  }

  lemma ProcessExistingKeepsInv(t: Tables, i: SyncInput, t': Tables)
    requires Inv(t) && i.change.operationId !in t.operations && i.change.kind != CreateNote
    requires t' == ProcessExisting(t, i).0
    ensures Inv(t') && Grows(t, t')
  {
    if t' != t {
      var note := t.notes[i.change.noteId];
      CurrentExists(t, i.change.noteId);
      if Some(note.current) != i.change.base {
        DivergeKeepsInv(t, i, t');
      } else if i.change.kind == DeleteNote {
        PushedDeletionKeepsInv(t, i, t');
      } else {
        PushedVersionKeepsInv(t, note, i, t.versions[note.current].number + 1, Some(note.current), t');
      }
    }
  }

  lemma ProcessExplains(t: Tables, i: SyncInput)
    requires Inv(t)
    ensures var (t', p) := Process(t, i); Explains(t', i, p)
  {
    if i.change.operationId in t.operations {
      assert Faithful(t.operations[i.change.operationId], t.notes, t.versions);
    } else if i.change.kind == CreateNote {
      CreateExplains(t, i);
    } else {
      ExistingExplains(t, i);
    }
  }

  lemma CreateExplains(t: Tables, i: SyncInput)
    requires Inv(t) && i.change.operationId !in t.operations && i.change.kind == CreateNote
    ensures var (t', p) := ProcessCreate(t, i); Explains(t', i, p)
  {
    if i.change.noteId in t.notes { CurrentExists(t, i.change.noteId); }
  }

  lemma ExistingExplains(t: Tables, i: SyncInput)
    requires Inv(t) && i.change.operationId !in t.operations && i.change.kind != CreateNote
    ensures var (t', p) := ProcessExisting(t, i); Explains(t', i, p)
  {
    if i.change.noteId in t.notes { CurrentExists(t, i.change.noteId); }
  }

  /** A call of the sync API keeps the invariant, takes nothing back, and records what it answers. */
  lemma ProcessKeepsInv(t: Tables, i: SyncInput)
    requires Inv(t)
    ensures var (t', p) := Process(t, i); Inv(t') && Grows(t, t') && Explains(t', i, p)
  {
    ProcessExplains(t, i);
    if i.change.operationId !in t.operations {
      if i.change.kind == CreateNote {
        ProcessCreateKeepsInv(t, i, Process(t, i).0);
      } else {
        ProcessExistingKeepsInv(t, i, Process(t, i).0);
      }
    }
  }

  lemma DirectWriteKeepsInv(t: Tables, note: Note, v: Version)
    requires Inv(t) && Continues(t, note, v)
    ensures Inv(AddVersion(t, note, v)) && Grows(t, AddVersion(t, note, v))
  {
    AddVersionKeepsCore(t, note, v);
    AddVersionGrows(t, note, v);
    GrowthKeepsRecords(t, AddVersion(t, note, v));
  }

  lemma DirectAppendKeepsInv(t: Tables, w: Id, n: Id, d: DirectVersion)
    requires Inv(t)
    ensures Inv(DirectAppend(t, w, n, d)) && Grows(t, DirectAppend(t, w, n, d))
  {
    if CanAppend(t, w, n, d) {
      var note := t.notes[n];
      var v := Version(d.id, n, t.versions[note.current].number + 1, Some(note.current), d.author, d.payload, d.clientVersion);
      DirectWriteKeepsInv(t, note, v);
    }
  }

  lemma DirectCreateKeepsInv(t: Tables, w: Id, u: Id, n: Id, d: DirectVersion)
    requires Inv(t)
    ensures Inv(DirectCreate(t, w, u, n, d)) && Grows(t, DirectCreate(t, w, u, n, d))
  {
    if n !in t.notes && d.id !in t.versions {
      DirectWriteKeepsInv(t, Note(n, w, u, d.id, false), Version(d.id, n, 1, None, u, d.payload, d.clientVersion));
    }
  }

  lemma DirectDeleteKeepsInv(t: Tables, w: Id, n: Id, u: Id)
    requires Inv(t)
    ensures Inv(DirectDelete(t, w, n, u)) && Grows(t, DirectDelete(t, w, n, u))
  {
    if LiveIn(t, w, n) {
      MarkDeletedKeepsCore(t, n, u, MarkDeleted(t, t.notes[n], u));
      MarkDeletedGrows(t, n, u);
      GrowthKeepsRecords(t, MarkDeleted(t, t.notes[n], u));
    }
  }

  lemma NextKeepsInv(t: Tables, step: Step)
    requires Inv(t)
    ensures Inv(Next(t, step)) && Grows(t, Next(t, step))
  {
    match step
    case SyncStep(i) => ProcessKeepsInv(t, i);
    case CreateStep(w, u, n, d) => DirectCreateKeepsInv(t, w, u, n, d);
    case AppendStep(w, n, d) => DirectAppendKeepsInv(t, w, n, d);
    case DeleteStep(w, n, u) => DirectDeleteKeepsInv(t, w, n, u);
    case MemberStep(m) =>
  }

  /** Safety over whole runs: version chains stay linear, the log stays their record, and
      nothing recorded is taken back, under any interleaving of the two APIs. */
  lemma {:induction false} RunKeepsInv(t: Tables, steps: seq<Step>)
    requires Inv(t)
    ensures Inv(Run(t, steps)) && Grows(t, Run(t, steps))
    decreases |steps|
  {
    if steps == [] {
    } else {
      NextKeepsInv(t, steps[0]);
      RunKeepsInv(Next(t, steps[0]), steps[1..]);
      GrowsTransitive(t, Next(t, steps[0]), Run(t, steps));
    }
  }

  lemma ReachableTables(steps: seq<Step>)
    ensures Inv(Run(EMPTY, steps))
  {
    assert Inv(EMPTY);
    RunKeepsInv(EMPTY, steps);
  }
}
