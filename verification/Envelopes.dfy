/** Encrypted note documents. Encryption is ideal: a sealed text opens under the key,
    nonce and additional data it was sealed with, and under nothing else. */
module Envelopes {
  import opened Wrappers
  import opened Text
  import opened Json

  type Key = nat

  const MAX_SAFE_INTEGER: nat := 9007199254740991
  const MAX_CIPHERTEXT_BYTES: nat := 1048576
  const TAG_BYTES: nat := 16

  datatype Document = Document(title: string, body: string)

  /** The metadata a version 2 envelope authenticates; CanonicalBytes proves its byte form injective. */
  datatype Context = Context(workspaceId: nat, noteId: nat, revision: nat)

  datatype AdditionalData = LegacyData | NoteData(context: Context)

  datatype Ciphertext =
    | Sealed(key: Key, nonce: nat, data: AdditionalData, plaintext: string)
    | Foreign(bytes: seq<int>)

  datatype Envelope = Envelope(
    algorithm: string, ciphertext: Ciphertext, envelopeVersion: nat, keyVersion: nat, nonce: nat)

  /** A server version as a client caches it: the envelope fields the server returns. */
  datatype CachedVersion = CachedVersion(
    id: nat, noteId: nat, workspaceId: nat, number: nat, parent: Option<nat>,
    algorithm: string, ciphertext: Ciphertext, envelopeVersion: nat, keyId: string, nonce: nat,
    clientVersion: Option<string>)

  const BODY: string := "{\"body\":"
  const TITLE: string := ",\"title\":"

  /** `JSON.stringify({ body, title })` */
  function PrintDocument(d: Document): string {
    BODY + Quote(d.body) + TITLE + Quote(d.title) + "}"
  }

  function Drop(prefix: string, t: string): Option<string> {
    if prefix <= t then Some(t[|prefix|..]) else None
  }

  function ParseDocument(t: string): Option<Document> {
    match Drop(BODY, t)
    case None => None
    case Some(t1) =>
      match ReadString(t1)
      case None => None
      case Some((body, t2)) =>
        match Drop(TITLE, t2)
        case None => None
        case Some(t3) =>
          match ReadString(t3)
          case None => None
          case Some((title, t4)) => if t4 == "}" then Some(Document(title, body)) else None
  }

  lemma DropPrefix(prefix: string, rest: string)
    ensures Drop(prefix, prefix + rest) == Some(rest)
  {
  }

  lemma ParsePrinted(d: Document)
    ensures ParseDocument(PrintDocument(d)) == Some(d)
  {
    var tail := TITLE + (Quote(d.title) + "}");
    assert PrintDocument(d) == BODY + (Quote(d.body) + tail);
    DropPrefix(BODY, Quote(d.body) + tail);
    ReadQuoted(d.body, tail);
    DropPrefix(TITLE, Quote(d.title) + "}");
    ReadQuoted(d.title, "}");
  }

  function Utf8Length(s: string): nat {
    if s == [] then 0
    else
      (var c := s[0] as int; if c < 0x80 then 1 else if c < 0x800 then 2 else if c < 0x10000 then 3 else 4)
      + Utf8Length(s[1..])
  }

  predicate ValidContext(context: Context) {
    1 <= context.revision <= MAX_SAFE_INTEGER
  }

  /** `encryptLocalNotePayload`; None where it throws. */
  function Seal(d: Document, key: Key, context: Context, nonce: nat): Option<Envelope> {
    if !ValidContext(context) || Utf8Length(PrintDocument(d)) + TAG_BYTES > MAX_CIPHERTEXT_BYTES then None
    else Some(Envelope("AES-GCM", Sealed(key, nonce, NoteData(context), PrintDocument(d)), 2, 1, nonce))
  }

  /** `noteAdditionalData` */
  function DataFor(envelopeVersion: nat, context: Option<Context>): Option<AdditionalData> {
    if envelopeVersion == 1 then Some(LegacyData)
    else if envelopeVersion == 2 && context.Some? && ValidContext(context.value) then Some(NoteData(context.value))
    else None
  }

  predicate ValidCiphertext(c: Ciphertext) {
    c.Sealed? ==> Utf8Length(c.plaintext) + TAG_BYTES <= MAX_CIPHERTEXT_BYTES
  }

  /** `decryptLocalNotePayload`; None where it throws. */
  function Open(e: Envelope, key: Key, context: Option<Context>): Option<Document> {
    if e.algorithm != "AES-GCM" || e.keyVersion != 1 || !ValidCiphertext(e.ciphertext) then None
    else
      match DataFor(e.envelopeVersion, context)
      case None => None
      case Some(data) =>
        if e.ciphertext.Sealed? && e.ciphertext.key == key && e.ciphertext.nonce == e.nonce && e.ciphertext.data == data
        then ParseDocument(e.ciphertext.plaintext)
        else None
  }

  /** `^[1-9][0-9]*$` and a safe integer. */
  function ReadRevision(text: Option<string>): Option<nat> {
    if text.None? then None
    else
      match ParseNatural(text.value)
      case None => None
      case Some(n) => if 1 <= n <= MAX_SAFE_INTEGER then Some(n) else None
  }

  /** `decryptCachedNoteVersionPayload`; None where it throws. */
  function OpenCached(v: CachedVersion, key: Key): Option<Document> {
    if v.algorithm != "AES-GCM" || (v.envelopeVersion != 1 && v.envelopeVersion != 2) || v.keyId != "workspace-key-v1" then None
    else if v.envelopeVersion == 2 && ReadRevision(v.clientVersion).None? then None
    else
      Open(
        Envelope("AES-GCM", v.ciphertext, v.envelopeVersion, 1, v.nonce), key,
        if v.envelopeVersion == 2 then Some(Context(v.workspaceId, v.noteId, ReadRevision(v.clientVersion).value)) else None)
  }

  /** What is sealed opens to the same document, under its own key and metadata only. */
  lemma SealedOpens(d: Document, key: Key, context: Context, nonce: nat, key': Key, context': Option<Context>)
    requires Seal(d, key, context, nonce).Some?
    ensures Open(Seal(d, key, context, nonce).value, key', context') ==
      if key' == key && context' == Some(context) then Some(d) else None
  {
    ParsePrinted(d);
  }

  /** The payload is there and opens, under the key and the metadata, to the document. */
  predicate Holds(payload: Option<Envelope>, key: Key, context: Context, d: Document) {
    payload.Some? && Open(payload.value, key, Some(context)) == Some(d)
  }

  lemma SealHolds(d: Document, key: Key, context: Context, nonce: nat)
    ensures Seal(d, key, context, nonce).Some? ==> Holds(Seal(d, key, context, nonce), key, context, d)
  {
    if Seal(d, key, context, nonce).Some? { SealedOpens(d, key, context, nonce, key, Some(context)); }
  }

  /** What sealing gives, and when: a revision that is a positive safe integer, and a text of at most a mebibyte with its
      tag; then an AES-GCM envelope of version 2 under key version 1 that authenticates the note's metadata. */
  lemma SealsExactly(d: Document, key: Key, context: Context, nonce: nat)
    ensures Seal(d, key, context, nonce) ==
      if 1 <= context.revision <= 9007199254740991 && Utf8Length(PrintDocument(d)) + 16 <= 1048576
      then Some(Envelope("AES-GCM", Sealed(key, nonce, NoteData(context), PrintDocument(d)), 2, 1, nonce)) else None
  {
  }

  /** The additional data an envelope of this version is opened with. */
  predicate Authenticated(data: AdditionalData, envelopeVersion: nat, context: Option<Context>) {
    || (envelopeVersion == 1 && data == LegacyData)
    || (envelopeVersion == 2 && context.Some? && 1 <= context.value.revision <= 9007199254740991 && data == NoteData(context.value))
  }

  /** What opens, and to what: an AES-GCM envelope under key version 1, of at most a mebibyte, sealed with this key, its own
      nonce and the additional data of its version, opens to the document its text is of. */
  lemma OpensExactly(e: Envelope, key: Key, context: Option<Context>, d: Document)
    ensures Open(e, key, context) == Some(d) <==>
      && e.algorithm == "AES-GCM" && e.keyVersion == 1 && e.ciphertext.Sealed?
      && e.ciphertext.key == key && e.ciphertext.nonce == e.nonce && Authenticated(e.ciphertext.data, e.envelopeVersion, context)
      && Utf8Length(e.ciphertext.plaintext) + 16 <= 1048576 && ParseDocument(e.ciphertext.plaintext) == Some(d)
  {
  }

  /** A cached version opens as the envelope it was stored from does, at the revision its client version names: it must have
      the one key id there is, and at version 2 name a canonical, positive and safe revision. */
  lemma CachedOpensExactly(v: CachedVersion, key: Key, d: Document)
    ensures OpenCached(v, key) == Some(d) <==>
      && v.algorithm == "AES-GCM" && v.keyId == "workspace-key-v1"
      && var e := Envelope("AES-GCM", v.ciphertext, v.envelopeVersion, 1, v.nonce);
         || (v.envelopeVersion == 1 && Open(e, key, None) == Some(d))
         || (v.envelopeVersion == 2 && v.clientVersion.Some? && CanonicalNatural(v.clientVersion.value)
             && 1 <= DigitsValue(v.clientVersion.value) <= 9007199254740991
             && Open(e, key, Some(Context(v.workspaceId, v.noteId, DigitsValue(v.clientVersion.value)))) == Some(d))
  {
  }

  /** UTF-8 takes one byte below 128, two below 2048, three below 65536 and four above, and lengths add up. */
  lemma {:induction false} Utf8Adds(a: string, b: string)
    ensures Utf8Length(a + b) == Utf8Length(a) + Utf8Length(b)
    decreases |a|
  {
    if a == [] {
      assert a + b == b;
    } else {
      assert (a + b)[0] == a[0] && (a + b)[1..] == a[1..] + b;
      Utf8Adds(a[1..], b);
    }
  }

  lemma Utf8OfChar(c: char)
    ensures Utf8Length([c]) == if c as int < 128 then 1 else if c as int < 2048 then 2 else if c as int < 65536 then 3 else 4
  {
    assert [c][1..] == [];
  }
}
