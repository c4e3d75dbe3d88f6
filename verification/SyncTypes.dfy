/** The rows and messages that the server, the client and the wire share.
    A UUID is a number; a new one is one that no table holds yet. */
module SyncTypes {
  import opened Wrappers
  import opened Text
  import opened Envelopes

  type Id = nat

  datatype Role = Owner | Editor | Viewer

  datatype OperationKind = CreateNote | UpdateNote | DeleteNote

  datatype StoredPayload = StoredPayload(
    algorithm: string, ciphertext: Ciphertext, envelopeVersion: nat, keyId: string, nonce: nat)

  datatype Version = Version(
    id: Id, noteId: Id, number: nat, parent: Option<Id>, author: Id, payload: StoredPayload,
    clientVersion: Option<string>)

  datatype Note = Note(id: Id, workspaceId: Id, creator: Id, current: Id, deleted: bool)

  /** One pushed operation. Its request hash is taken to be the change itself:
      SHA-256 is injective here and covers every field. */
  datatype PushChange = PushChange(
    operationId: Id, kind: OperationKind, noteId: Id, base: Option<Id>, revision: nat, createdAt: int,
    payload: Option<Envelope>)

  datatype Refusal = Forbidden | IdempotencyMismatch | NoteNotFound

  datatype PushResult =
    | Accepted(operationId: Id, note: Note, version: Version)
    | DuplicateAccepted(operationId: Id, note: Note, version: Version)
    | Conflict(operationId: Id, note: Note, remote: Version)
    | DuplicateConflict(operationId: Id, note: Note, remote: Version)
    | Rejected(operationId: Id, reason: Refusal)

  datatype Cursor = Cursor(workspaceId: Id, sequence: nat)

  datatype PullChange = PullChange(note: Note, deletion: bool, version: Version)

  datatype PullPage = PullPage(workspaceId: Id, changes: seq<PullChange>, hasMore: bool, next: Cursor)

  /** How the push service turns a wire payload into columns. */
  function Stored(e: Envelope): StoredPayload {
    StoredPayload(e.algorithm, e.ciphertext, e.envelopeVersion, "workspace-key-v" + Decimal(e.keyVersion), e.nonce)
  }

  /** `toLocalVersion` */
  function Cached(workspaceId: Id, v: Version): CachedVersion {
    CachedVersion(
      v.id, v.noteId, workspaceId, v.number, v.parent, v.payload.algorithm, v.payload.ciphertext,
      v.payload.envelopeVersion, v.payload.keyId, v.payload.nonce, v.clientVersion)
  }

  /** An envelope that opens under a change's own metadata still opens on any other client that holds the key, from
      nothing but the version the server makes of the change: the revision printed and read back, the key id, and
      the note. */
  lemma StoredEnvelopeOpens(e: Envelope, d: Document, key: Key, context: Context, v: Version)
    requires Open(e, key, Some(context)) == Some(d)
    requires v.payload == Stored(e) && v.clientVersion == Some(Decimal(context.revision)) && v.noteId == context.noteId
    ensures OpenCached(Cached(context.workspaceId, v), key) == Some(d)
  {
    DecimalRoundTrip(context.revision);
    assert Decimal(1) == "1";
    assert v.payload.keyId == "workspace-key-v1";
  }

  /** A freshly sealed envelope does. */
  lemma PushedVersionOpens(
    d: Document, key: Key, context: Context, nonce: nat, v: Version)
    requires Seal(d, key, context, nonce).Some?
    requires v.payload == Stored(Seal(d, key, context, nonce).value)
    requires v.clientVersion == Some(Decimal(context.revision)) && v.noteId == context.noteId
    ensures OpenCached(Cached(context.workspaceId, v), key) == Some(d)
  {
    SealedOpens(d, key, context, nonce, key, Some(context));
    StoredEnvelopeOpens(Seal(d, key, context, nonce).value, d, key, context, v);
  }

  /** The columns lose nothing of an envelope, and the key id names its key version. */
  lemma ColumnsDetermineEnvelope(e: Envelope, e': Envelope)
    ensures Stored(e) == Stored(e') <==> e == e'
    ensures Stored(e).keyId == "workspace-key-v" + Decimal(e.keyVersion)
  {
    DecimalRoundTrip(e.keyVersion);
    DecimalRoundTrip(e'.keyVersion);
    if Stored(e) == Stored(e') {
      assert Stored(e).keyId[15..] == Decimal(e.keyVersion) && Stored(e').keyId[15..] == Decimal(e'.keyVersion);
    }
  }
}
