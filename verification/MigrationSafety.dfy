/** The plaintext migration in any run of the system: planned on one reading of the tables, committed on whatever the
    user, the engine, the server and other migrations have made of them. */
module MigrationSafety {
  import opened Wrappers
  import opened Envelopes
  import opened SyncTypes
  import opened LocalStore
  import opened SealedWork
  import opened SyncSystem
  import opened SyncSafety
  import opened SyncRefinement
  import opened WrittenVersions
  import ServerInvariants
  import Migration
  import Server = ServerTables

  /** What a migration leaves: if it threw, the tables as they were; if it returned, no plaintext in the workspace,
      only rows that held some moved, and all of it in envelopes that open to it. */
  ghost predicate MovedWhole(snapshot: Store, s: Store, s': Store, w: Id, key: Key, returned: bool) {
    && (!returned ==> s' == s)
    && (returned ==>
          Migration.NoPlaintext(s', w) && Migration.OnlyMoved(s, s', w) && Migration.MeaningKept(snapshot, s, s', w, key))
  }

  lemma MigrateMovesWhole(snapshot: Store, s: Store, w: Id, key: Key, nonces: Migration.Nonces, s': Store, returned: bool)
    requires StoreOk(snapshot) && Migration.Tracks(snapshot, s)
    requires s' == Migration.Migrate(snapshot, s, w, key, nonces).0 && returned == Migration.Migrate(snapshot, s, w, key, nonces).1
    ensures MovedWhole(snapshot, s, s', w, key, returned)
  {
    Migration.AllOrNothing(snapshot, s, w, key, nonces);
    if returned { Migration.MigrateKeepsMeaning(snapshot, s, w, key, nonces, s'); }
  }

  /** Every planned snapshot is one of well-formed tables, with each conflict in the workspace of its change, that the
      present ones have come from. */
  lemma PlansAreWellFormed(t: Server.Tables, s0: Store, device: Device, steps: seq<Step>, y: System, snapshot: Store)
    requires Starts(t, s0, device) && y == Execute(Idling(t, s0), device, steps) && snapshot in y.planned
    ensures StoreOk(snapshot) && Migration.Tracks(snapshot, y.work.store)
  {
    ReachableInv(t, s0, device, steps, y);
  }

  lemma CommitMigrates(y: System, device: Device, snapshot: Store, nonces: Migration.Nonces)
    requires snapshot in y.planned
    ensures Advance(y, device, Commit(snapshot, nonces)).work.store ==
      Migration.Migrate(snapshot, y.work.store, device.workspaceId, device.key, nonces).0
  {
  }

  /** The migration is all-or-nothing and keeps meaning. In every run, from any tables, plaintext and all, and whatever
      happened since it was planned, other migrations included: committing throws and changes nothing, or leaves no
      plaintext in the workspace, moves only rows that held some, and everything that was plaintext opens to the same
      title and body: notes, changes and conflicts under their own ids and revisions, and resolutions under the
      revision their settling change had when the migration was planned. */
  lemma MigrationKeepsMeaning(t: Server.Tables, s0: Store, device: Device, steps: seq<Step>, y: System,
                              snapshot: Store, nonces: Migration.Nonces, s': Store, returned: bool)
    requires Starts(t, s0, device) && y == Execute(Idling(t, s0), device, steps)
    requires snapshot in y.planned && s' == Advance(y, device, Commit(snapshot, nonces)).work.store
    requires returned == Migration.Migrate(snapshot, y.work.store, device.workspaceId, device.key, nonces).1
    ensures MovedWhole(snapshot, y.work.store, s', device.workspaceId, device.key, returned)
  {
    PlansAreWellFormed(t, s0, device, steps, y, snapshot);
    CommitMigrates(y, device, snapshot, nonces);
    MigrateMovesWhole(snapshot, y.work.store, device.workspaceId, device.key, nonces, s', returned);
  }

  lemma CommitIntends(y: System, device: Device, snapshot: Store, nonces: Migration.Nonces, id: Id)
    requires snapshot in y.planned && Migration.ChangeToMove(y.work.store, device.workspaceId, id)
    requires Migration.Migrate(snapshot, y.work.store, device.workspaceId, device.key, nonces).1
    ensures var w := Advance(y, device, Commit(snapshot, nonces)).work;
      id in w.intents && Some(w.intents[id]) == y.work.store.changes[id].legacy
  {
  }

  /** A migration that returns, and the sending of a change whose plaintext it moved. */
  ghost predicate MovesAndSends(y: System, device: Device, snapshot: Store, nonces: Migration.Nonces, id: Id, committed: System, sent: System) {
    && snapshot in y.planned && Migration.Migrate(snapshot, y.work.store, device.workspaceId, device.key, nonces).1
    && Migration.ChangeToMove(y.work.store, device.workspaceId, id)
    && committed == Advance(y, device, Commit(snapshot, nonces))
    && CanStart(committed, device, id) && sent == Advance(committed, device, Start(id))
  }

  /** Sent, a migrated change carries the plaintext it had: whatever the network and everybody else do from then on, if
      the server ever accepts the request, the version it stores opens to that plaintext on every device with the key. */
  lemma MigratedChangeOpensElsewhere(t: Server.Tables, s0: Store, device: Device, before: seq<Step>, y: System,
                                     snapshot: Store, nonces: Migration.Nonces, id: Id, committed: System, sent: System, request: PushChange,
                                     after: seq<Step>, y': System, o: Id)
    requires Starts(t, s0, device) && y == Execute(Idling(t, s0), device, before)
    requires MovesAndSends(y, device, snapshot, nonces, id, committed, sent)
    requires sent.flight.Some? && request == Wire(sent.flight.value) && y' == Execute(sent, device, after)
    requires o in y'.server.operations && y'.server.operations[o].change == request
    requires ServerInvariants.WritesVersion(y'.server.operations[o])
    ensures id in y.work.store.changes && y'.server.operations[o].versionId in y'.server.versions
    ensures OpenCached(Cached(device.workspaceId, y'.server.versions[y'.server.operations[o].versionId]), device.key)
         == y.work.store.changes[id].legacy
  {
    ExecuteSnoc(Idling(t, s0), device, before, Commit(snapshot, nonces));
    CommitIntends(y, device, snapshot, nonces, id);
    SentDocumentOpens(t, s0, device, before + [Commit(snapshot, nonces)], committed, id, sent, request, after, y', o);
  }
}
