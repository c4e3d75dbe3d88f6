/** What becomes of a text the user writes: whichever operation it was written with, and whatever the network and everybody
    else do, the version the server stores of it opens to that text on every device with the key. */
module WrittenVersions {
  import opened Wrappers
  import opened Envelopes
  import opened SyncTypes
  import opened LocalStore
  import opened SealedWork
  import opened SyncSystem
  import opened SyncSafety
  import opened SyncRefinement
  import Server = ServerTables
  import ServerInvariants

  /** A change with a remembered document is promised with it when it is sent. */
  lemma StartPromises(y: System, device: Device, id: Id)
    requires CanStart(y, device, id) && id in y.work.intents
    ensures var y' := Advance(y, device, Start(id));
      y'.flight.Some? && y'.flight.value.id == id && (Wire(y'.flight.value), y.work.intents[id]) in y'.promised
  {
  }

  lemma {:induction false} PromisesStay(y: System, device: Device, steps: seq<Step>)
    ensures y.promised <= Execute(y, device, steps).promised
    decreases |steps|
  {
    if steps != [] { PromisesStay(Advance(y, device, steps[0]), device, steps[1..]); }
  }

  /** From any reachable state: a change that remembers a document is sent, and if the server ever accepts that request as a
      write, the version it stores opens to the document. */
  lemma SentDocumentOpens(t: Server.Tables, s0: Store, device: Device, before: seq<Step>, y: System, id: Id, sent: System,
                          request: PushChange, after: seq<Step>, y': System, o: Id)
    requires Starts(t, s0, device) && y == Execute(Idling(t, s0), device, before)
    requires CanStart(y, device, id) && id in y.work.intents && sent == Advance(y, device, Start(id))
    requires sent.flight.Some? && request == Wire(sent.flight.value) && y' == Execute(sent, device, after)
    requires o in y'.server.operations && y'.server.operations[o].change == request
    requires ServerInvariants.WritesVersion(y'.server.operations[o])
    ensures y'.server.operations[o].versionId in y'.server.versions
    ensures OpenCached(Cached(device.workspaceId, y'.server.versions[y'.server.operations[o].versionId]), device.key)
         == Some(y.work.intents[id])
  {
    StartPromises(y, device, id);
    PromisesStay(sent, device, after);
    ExecuteSnoc(Idling(t, s0), device, before, Start(id));
    ExecuteConcat(Idling(t, s0), device, before + [Start(id)], after);
    AcceptedVersionsOpen(t, s0, device, before + [Start(id)] + after, request, y.work.intents[id], o, y');
  }

  /** In the user's terms: a text is written with create, edit, a resolution that does not keep a stored local text, or the
      engine's encryption of a queued one; sent, and ever accepted, it is stored in a version that opens to that text. */
  lemma WrittenTextOpensElsewhere(t: Server.Tables, s0: Store, device: Device, before: seq<Step>, y: System,
                                  step: WorkStep, id: Id, d: Document, written: System, sent: System, request: PushChange,
                                  after: seq<Step>, y': System, o: Id)
    requires Starts(t, s0, device) && y == Execute(Idling(t, s0), device, before)
    requires GivenFor(y.work.store, step, id, d) && written == Advance(y, device, User(step)) && written.work.store != y.work.store
    requires CanStart(written, device, id) && sent == Advance(written, device, Start(id))
    requires sent.flight.Some? && request == Wire(sent.flight.value) && y' == Execute(sent, device, after)
    requires o in y'.server.operations && y'.server.operations[o].change == request
    requires ServerInvariants.WritesVersion(y'.server.operations[o])
    ensures y'.server.operations[o].versionId in y'.server.versions
    ensures OpenCached(Cached(device.workspaceId, y'.server.versions[y'.server.operations[o].versionId]), device.key) == Some(d)
  {
    EncryptingIntends(y.work, device.key, step, id, d, written.work);
    ExecuteSnoc(Idling(t, s0), device, before, User(step));
    SentDocumentOpens(t, s0, device, before + [User(step)], written, id, sent, request, after, y', o);
  }
}
