/** An edit between planning and commit that leaves a migrated resolution under a revision its settling change no longer
    has: the note and the change are encrypted already, the settled conflict still holds its resolution as plaintext. */
module MigrationRace {
  import opened Wrappers
  import opened Envelopes
  import opened SyncTypes
  import opened LocalStore
  import SyncSystem
  import opened Migration
  import opened KeepLocalRun
  import StoreInvariants

  const KEY: Key := DEVICE.key
  const ROW: ConflictKey := ConflictKey(1, 9)
  const OLD: Envelope := Envelope("AES-GCM", Foreign([]), 2, 1, 9)

  const PLANNED: Store := Store(
    map[1 := LocalNote(1, 1, Some(9), false, Some(OLD), None, 2)],
    map[1 := PendingChange(1, 1, 1, UpdateNote, Some(8), None, None, 1, 0, 0, Resolved),
        2 := PendingChange(2, 1, 1, UpdateNote, Some(9), Some(OLD), None, 2, 1, 0, Pending)],
    map[ROW := LocalConflict(1, 1, Some(8), Cached(1, Version(9, 1, 2, Some(8), 2, Stored(OLD), None)), None, None, 1, 0,
                             Settled(KeepLocal, 2), None, Some(FIRST))],
    map[], map[])

  function Edited(e: Envelope): Store {
    LocalStore.Edit(PLANNED, 1, SECOND, e, Some(2), Some(2), 3, 5)
  }

  lemma PlannedIsWellFormed()
    ensures SyncSystem.StoreOk(PLANNED)
  {
    assert PLANNED.changes.Keys == {1, 2} && PLANNED.conflicts.Keys == {ROW};
  }

  lemma EditRaises(e: Envelope)
    ensures var s := Edited(e);
      && s.conflicts == PLANNED.conflicts && s.changes.Keys == {1, 2}
      && s.changes[2].revision == 3 && s.changes[2].workspaceId == 1 && s.changes[1] == PLANNED.changes[1]
      && (forall n :: n in s.notes ==> !NoteToMove(s, 1, n)) && (forall id :: id in s.changes ==> !ChangeToMove(s, 1, id))
  {
    ShortIsValid(SECOND);
  }

  lemma OnlyTheRowIsPlanned(nonces: Nonces)
    ensures var plan := MakePlan(PLANNED, 1, KEY, nonces);
      && plan.Some? && plan.value.notes == map[] && plan.value.changes == map[] && plan.value.conflicts.Keys == {ROW}
      && plan.value.conflicts[ROW].local == None && plan.value.conflicts[ROW].resolved.Some?
      && plan.value.conflicts[ROW].resolved.value.document == FIRST
      && plan.value.conflicts[ROW].resolved.value.envelope.envelopeVersion == 2
  {
    ShortIsValid(FIRST);
    ShortSeals(FIRST, Context(1, 1, 2), nonces.resolutions(ROW));
    assert PLANNED.conflicts.Keys == {ROW} && ResolvedRevision(PLANNED, PLANNED.conflicts[ROW]) == 2;
  }

  lemma CommitReturns(s: Store, plan: Plan)
    requires s.conflicts == PLANNED.conflicts && plan.notes == map[] && plan.changes == map[] && plan.conflicts.Keys == {ROW}
    requires plan.conflicts[ROW].local == None && plan.conflicts[ROW].resolved.Some? && plan.conflicts[ROW].resolved.value.document == FIRST
    requires (forall n :: n in s.notes ==> !NoteToMove(s, 1, n)) && (forall id :: id in s.changes ==> !ChangeToMove(s, 1, id))
    ensures Migration.Commit(s, 1, plan) == (Move(s, plan), true)
    ensures Move(s, plan).changes == s.changes && ROW in Move(s, plan).conflicts
    ensures Move(s, plan).conflicts[ROW] == MovedConflict(PLANNED.conflicts[ROW], plan.conflicts[ROW])
  {
    assert forall k :: k in s.conflicts ==> k == ROW;
  }

  /** The well-formed tables, the edit and the commit that returns: afterwards the resolution's settling change has
      revision 3, and the resolution does not open under it. */
  lemma SettlingRevisionMayRise(e: Envelope, nonces: Nonces)
    ensures SyncSystem.StoreOk(PLANNED)
    ensures var (s', returned) := Migrate(PLANNED, Edited(e), 1, KEY, nonces);
      && returned && ROW in s'.conflicts && ResolvedRevision(s', s'.conflicts[ROW]) == 3
      && !Holds(s'.conflicts[ROW].resolved, KEY, Context(1, 1, 3), FIRST)
  {
    PlannedIsWellFormed();
    EditRaises(e);
    OnlyTheRowIsPlanned(nonces);
    CommitReturns(Edited(e), MakePlan(PLANNED, 1, KEY, nonces).value);
    RowsTrackThemselves(PLANNED.changes, PLANNED.conflicts);
    ResolutionOpensExactly(PLANNED, Edited(e), 1, KEY, nonces, ROW);
  }
}
