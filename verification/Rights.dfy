/** Who may write: both note APIs, by the role a member has, and what that means for the change log over whole runs. */
module Rights {
  import opened Wrappers
  import opened SyncTypes
  import opened ServerTables
  import opened ServerTheorems
  import ServerInvariants

  /** The user's role in the workspace; None for an outsider. */
  function RoleOf(members: map<(Id, Id), Role>, workspaceId: Id, userId: Id): Option<Role> {
    if (workspaceId, userId) in members then Some(members[(workspaceId, userId)]) else None
  }

  // ---- The sync API ----

  /** A new create is forbidden exactly to outsiders and viewers. */
  lemma CreateForbiddenExactly(t: Tables, i: SyncInput)
    requires i.change.operationId !in t.operations && i.change.kind == CreateNote
    ensures Process(t, i) == (t, Refused(Forbidden)) <==> RoleOf(t.members, i.workspaceId, i.userId) in {None, Some(Viewer)}
    ensures !Process(t, i).1.Refused? || Process(t, i).1.reason == Forbidden
  {
  }

  /** Of a note the workspace has, a new update is forbidden exactly to viewers and a new deletion exactly to all but
      owners; an outsider is told that there is no such note, and so is everybody where there is none. */
  lemma ChangeForbiddenExactly(t: Tables, i: SyncInput)
    requires i.change.operationId !in t.operations && i.change.kind != CreateNote
    ensures var role, present := RoleOf(t.members, i.workspaceId, i.userId), Present(t, i.workspaceId, i.change.noteId);
      && (Process(t, i) == (t, Refused(NoteNotFound)) <==> !present || role == None)
      && (Process(t, i) == (t, Refused(Forbidden)) <==>
            present && if i.change.kind == UpdateNote then role == Some(Viewer) else role in {Some(Editor), Some(Viewer)})
  {
  }

  // ---- The direct API ----

  /** What `createNote` writes: note, first version and log entry of its caller, with exactly the content given. */
  lemma DirectCreateStores(t: Tables, w: Id, u: Id, n: Id, d: DirectVersion)
    ensures DirectCreate(t, w, u, n, d) ==
      if RoleOf(t.members, w, u) in {Some(Owner), Some(Editor)} && n !in t.notes && d.id !in t.versions
      then Tables(t.members, t.notes[n := Note(n, w, u, d.id, false)],
                  t.versions[d.id := Version(d.id, n, 1, None, u, d.payload, d.clientVersion)], t.operations,
                  t.log + [Entry(w, n, false, d.id, u)])
      else t
  {
  }

  /** What `appendVersion` writes: the given content as the next version of a live note, by an owner or an editor. */
  lemma DirectAppendStores(t: Tables, w: Id, n: Id, d: DirectVersion)
    requires ServerInvariants.Inv(t)
    ensures DirectAppend(t, w, n, d) ==
      if Present(t, w, n) && RoleOf(t.members, w, d.author) in {Some(Owner), Some(Editor)} && d.id !in t.versions
      then var before := t.notes[n].current;
        Tables(t.members, t.notes[n := t.notes[n].(current := d.id)],
               t.versions[d.id := Version(d.id, n, Number(t, before) + 1, Some(before), d.author, d.payload, d.clientVersion)],
               t.operations, t.log + [Entry(w, n, false, d.id, d.author)])
      else t
  {
    if n in t.notes { ServerInvariants.CurrentExists(t, n); }
  }

  function Number(t: Tables, v: Id): nat {
    if v in t.versions then t.versions[v].number else 0
  }

  /** What `softDeleteNote` writes: the mark and one entry of the owner who deleted it, at the note's last version. */
  lemma DirectDeleteMarks(t: Tables, w: Id, n: Id, u: Id)
    requires ServerInvariants.Inv(t)
    ensures DirectDelete(t, w, n, u) ==
      if Present(t, w, n) && RoleOf(t.members, w, u) == Some(Owner)
      then t.(notes := t.notes[n := t.notes[n].(deleted := true)],
              log := t.log + [Entry(w, n, true, t.notes[n].current, u)])
      else t
  {
  }

  // ---- Whole runs ----

  /** At each moment of a run the user has one of these roles. */
  ghost predicate AlwaysHas(t: Tables, steps: seq<Step>, w: Id, u: Id, roles: set<Option<Role>>)
    decreases |steps|
  {
    RoleOf(t.members, w, u) in roles && (steps != [] ==> AlwaysHas(Next(t, steps[0]), steps[1..], w, u, roles))
  }

  /** A step writes at most one entry, of a user whose role allows it: an owner or an editor, and for a deletion an owner. */
  lemma EntryIsAllowed(t: Tables, step: Step)
    requires ServerInvariants.Inv(t)
    ensures Next(t, step).log == t.log
      || exists e :: Next(t, step).log == t.log + [e]
           && RoleOf(t.members, e.workspaceId, e.actor) in (if e.deletion then {Some(Owner)} else {Some(Owner), Some(Editor)})
  {
    var t' := Next(t, step);
    match step
    case SyncStep(i) =>
      if i.change.operationId !in t.operations {
        AcceptedExactly(t, i);
        if NewlyAccepted(Process(t, i).1) {
          AcceptedLeaves(t, i);
          var e := Entry(i.workspaceId, i.change.noteId, i.change.kind == DeleteNote, Process(t, i).1.note.current, i.userId);
          assert t'.log == t.log + [e];
        } else {
          UnacceptedLeavesLog(t, i);
        }
      } else {
        ThrowsLeaveNothing(t, i);
      }
    case CreateStep(w, u, n, d) =>
      DirectCreateStores(t, w, u, n, d);
      if t'.log != t.log { assert t'.log == t.log + [Entry(w, n, false, d.id, u)]; }
    case AppendStep(w, n, d) =>
      DirectAppendStores(t, w, n, d);
      if t'.log != t.log { assert t'.log == t.log + [Entry(w, n, false, d.id, d.author)]; }
    case DeleteStep(w, n, u) =>
      DirectDeleteMarks(t, w, n, u);
      if t'.log != t.log { assert t'.log == t.log + [Entry(w, n, true, t.notes[n].current, u)]; }
    case MemberStep(_) =>
  }

  lemma UnacceptedLeavesLog(t: Tables, i: SyncInput)
    requires ServerInvariants.Inv(t) && i.change.operationId !in t.operations && !NewlyAccepted(Process(t, i).1)
    ensures Process(t, i).0.log == t.log
  {
    ConflictsExactly(t, i);
    RefusedExactly(t, i);
    ThrowsLeaveNothing(t, i);
  }

  /** Whoever is an outsider or a viewer throughout a run leaves no trace in the workspace's log, over neither API; and
      whoever is no owner throughout deletes nothing. */
  lemma {:induction false} ReadersLeaveNoTrace(t: Tables, steps: seq<Step>, w: Id, u: Id, k: nat)
    requires ServerInvariants.Inv(t) && |t.log| <= k < |Run(t, steps).log|
    requires Run(t, steps).log[k].workspaceId == w && Run(t, steps).log[k].actor == u
    ensures !AlwaysHas(t, steps, w, u, {None, Some(Viewer)})
    ensures Run(t, steps).log[k].deletion ==> !AlwaysHas(t, steps, w, u, {None, Some(Viewer), Some(Editor)})
    decreases |steps|
  {
    var t1 := Next(t, steps[0]);
    ServerInvariants.NextKeepsInv(t, steps[0]);
    EntryIsAllowed(t, steps[0]);
    if |t1.log| <= k {
      ReadersLeaveNoTrace(t1, steps[1..], w, u, k);
    } else {
      ServerInvariants.RunKeepsInv(t1, steps[1..]);
      assert Run(t, steps).log[k] == t1.log[k];
    }
  }
}
