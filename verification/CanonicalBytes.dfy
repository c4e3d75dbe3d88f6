/** The byte strings that envelopes authenticate and identities sign, as the texts whose UTF-8 they are. */
module CanonicalBytes {
  import opened Wrappers
  import opened Text
  import opened JsonArray

  const MAX_SAFE_INTEGER: nat := 9007199254740991

  predicate IsHex(c: char) {
    '0' <= c <= '9' || 'a' <= c <= 'f'
  }

  /** A canonical lower-case UUID of a version up to `top`. */
  predicate IsUuid(s: string, top: char) {
    && |s| == 36
    && (forall i :: 0 <= i < 36 ==> if i in {8, 13, 18, 23} then s[i] == '-' else IsHex(s[i]))
    && '1' <= s[14] <= top && s[19] in {'8', '9', 'a', 'b'}
  }

  predicate SafePositive(n: nat) {
    1 <= n <= MAX_SAFE_INTEGER
  }

  // ---- Note and comment additional data ----

  datatype NoteContext = NoteContext(workspaceId: string, noteId: string, localRevision: nat)

  datatype CommentContext = CommentContext(
    workspaceId: string, noteId: string, commentId: string, authorId: string, parentCommentId: Option<string>)

  predicate ValidNoteContext(c: NoteContext) {
    IsUuid(c.workspaceId, '8') && IsUuid(c.noteId, '8') && SafePositive(c.localRevision)
  }

  predicate ValidCommentContext(c: CommentContext) {
    && IsUuid(c.workspaceId, '8') && IsUuid(c.noteId, '8') && IsUuid(c.commentId, '8') && IsUuid(c.authorId, '8')
    && (c.parentCommentId.Some? ==> IsUuid(c.parentCommentId.value, '8'))
  }

  function Nullable(s: Option<string>): Field {
    if s.Some? then Str(s.value) else Null
  }

  function NoteFields(c: NoteContext): seq<Field> {
    [Str("cipherspace.note"), Num(2), Str("AES-GCM"), Num(1), Str(c.workspaceId), Str(c.noteId), Num(c.localRevision)]
  }

  function CommentFields(c: CommentContext): seq<Field> {
    [Str("cipherspace.comment"), Num(2), Str("AES-GCM"), Num(1), Str(c.workspaceId), Str(c.noteId), Str(c.commentId),
     Str(c.authorId), Nullable(c.parentCommentId)]
  }

  /** `noteAdditionalData`; None where it throws. */
  function NoteAdditionalData(version: nat, context: Option<NoteContext>): Option<string> {
    if version == 1 then Some("cipherspace.note|1|AES-GCM|1")
    else if version != 2 || context.None? || !ValidNoteContext(context.value) then None
    else Some(PrintArray(NoteFields(context.value)))
  }

  /** `commentAdditionalData`; None where it throws. */
  function CommentAdditionalData(version: nat, context: Option<CommentContext>): Option<string> {
    if version == 1 then Some("cipherspace.comment|1|AES-GCM|1")
    else if version != 2 || context.None? || !ValidCommentContext(context.value) then None
    else Some(PrintArray(CommentFields(context.value)))
  }

  lemma PrintedStartsWithBracket(fields: seq<Field>)
    requires fields != []
    ensures PrintArray(fields) != [] && PrintArray(fields)[0] == '['
  {
  }

  /** Equal note data mean the same envelope version and, at version 2, the same workspace, note and revision. */
  lemma NoteDataInjective(v: nat, c: Option<NoteContext>, v': nat, c': Option<NoteContext>)
    requires NoteAdditionalData(v, c).Some? && NoteAdditionalData(v, c) == NoteAdditionalData(v', c')
    ensures v == v' && (v == 2 ==> c == c')
  {
    if v == 2 { PrintedStartsWithBracket(NoteFields(c.value)); }
    if v' == 2 { PrintedStartsWithBracket(NoteFields(c'.value)); }
    if v == 2 && v' == 2 {
      PrintArrayInjective(NoteFields(c.value), NoteFields(c'.value));
      assert NoteFields(c.value)[4..] == NoteFields(c'.value)[4..];
      assert NoteFields(c.value)[4] == NoteFields(c'.value)[4];
      assert NoteFields(c.value)[5] == NoteFields(c'.value)[5];
      assert NoteFields(c.value)[6] == NoteFields(c'.value)[6];
    }
  }

  /** Equal comment data mean the same envelope version and, at version 2, the same workspace, note, comment,
      author and parent. */
  lemma CommentDataInjective(v: nat, c: Option<CommentContext>, v': nat, c': Option<CommentContext>)
    requires CommentAdditionalData(v, c).Some? && CommentAdditionalData(v, c) == CommentAdditionalData(v', c')
    ensures v == v' && (v == 2 ==> c == c')
  {
    if v == 2 { PrintedStartsWithBracket(CommentFields(c.value)); }
    if v' == 2 { PrintedStartsWithBracket(CommentFields(c'.value)); }
    if v == 2 && v' == 2 {
      CommentFieldsInjective(c.value, c'.value);
    }
  }

  lemma CommentFieldsInjective(c: CommentContext, c': CommentContext)
    requires PrintArray(CommentFields(c)) == PrintArray(CommentFields(c'))
    ensures c == c'
  {
    var f, f' := CommentFields(c), CommentFields(c');
    PrintArrayInjective(f, f');
    assert f[4] == f'[4] && f[5] == f'[5] && f[6] == f'[6] && f[7] == f'[7] && f[8] == f'[8];
  }

  /** No note data is comment data, at any two versions. */
  lemma NoteAndCommentDataDisjoint(v: nat, c: Option<NoteContext>, v': nat, c': Option<CommentContext>)
    requires NoteAdditionalData(v, c).Some? && CommentAdditionalData(v', c').Some?
    ensures NoteAdditionalData(v, c) != CommentAdditionalData(v', c')
  {
    if v == 2 { PrintedStartsWithBracket(NoteFields(c.value)); }
    if v' == 2 { PrintedStartsWithBracket(CommentFields(c'.value)); }
    if v == 2 && v' == 2 {
      ReadPrintedArray(NoteFields(c.value));
      ReadPrintedArray(CommentFields(c'.value));
    }
  }

  // ---- Identity bundles ----

  datatype PublicKey = PublicKey(algorithm: string, keyVersion: nat, publicKey: string, fingerprint: string)

  /** The signed part of an identity bundle. Its numbers are naturals because the shape check makes them so. */
  datatype Bundle = Bundle(
    bundleVersion: nat, userId: string, bundleSequence: nat, previousBundleHash: Option<string>, createdAt: string,
    signingKey: PublicKey, encryptionKey: PublicKey)

  function KeyFields(k: PublicKey): seq<Field> {
    [Str(k.algorithm), Num(k.keyVersion), Str(k.publicKey), Str(k.fingerprint)]
  }

  function BundleFields(b: Bundle): seq<Field> {
    [Str("cipherspace.identity-bundle"), Num(b.bundleVersion), Str(b.userId), Num(b.bundleSequence),
     Nullable(b.previousBundleHash), Str(b.createdAt)]
    + KeyFields(b.signingKey) + KeyFields(b.encryptionKey)
  }

  /** `identityBundleCanonicalBytes` */
  function BundleText(b: Bundle): string {
    PrintArray(BundleFields(b))
  }

  lemma KeyFieldsInjective(k: PublicKey, k': PublicKey)
    requires KeyFields(k) == KeyFields(k')
    ensures k == k'
  {
    var f, f' := KeyFields(k), KeyFields(k');
    assert f[0] == f'[0] && f[1] == f'[1] && f[2] == f'[2] && f[3] == f'[3];
  }

  lemma BundleAt(b: Bundle)
    ensures var f := BundleFields(b);
      && |f| == 14 && f[6..10] == KeyFields(b.signingKey) && f[10..] == KeyFields(b.encryptionKey)
      && f[0] == Str("cipherspace.identity-bundle") && f[1] == Num(b.bundleVersion) && f[2] == Str(b.userId)
      && f[3] == Num(b.bundleSequence) && f[4] == Nullable(b.previousBundleHash) && f[5] == Str(b.createdAt)
  {
  }

  /** Equal bundle bytes mean equal bundles, so a signature or a hash speaks for every field. */
  lemma BundleTextInjective(b: Bundle, b': Bundle)
    requires BundleText(b) == BundleText(b')
    ensures b == b'
  {
    PrintArrayInjective(BundleFields(b), BundleFields(b'));
    BundleAt(b);
    BundleAt(b');
    KeyFieldsInjective(b.signingKey, b'.signingKey);
    KeyFieldsInjective(b.encryptionKey, b'.encryptionKey);
  }

  // ---- Workspace key shares ----

  datatype Sender = Sender(userId: string, signingKeyFingerprint: string, signingKeyVersion: nat, bundleSequence: nat)

  datatype Recipient = Recipient(
    userId: string, signingKeyFingerprint: string, bundleSequence: nat, encryptionKeyFingerprint: string,
    encryptionKeyVersion: nat)

  datatype WorkspaceKey = WorkspaceKey(version: nat, commitment: string)

  datatype Wrapping = Wrapping(algorithm: string, labelVersion: nat, ciphertext: string)

  /** The signed part of a key share. */
  datatype Share = Share(
    protocolVersion: nat, operationId: string, workspaceId: string, sender: Sender, recipient: Recipient, role: string,
    workspaceKey: WorkspaceKey, wrapping: Wrapping)

  function ShareFields(s: Share): seq<Field> {
    [Str("cipherspace.workspace-key-share"), Num(s.protocolVersion), Str(s.operationId), Str(s.workspaceId)]
    + [Str(s.sender.userId), Str(s.sender.signingKeyFingerprint), Num(s.sender.signingKeyVersion), Num(s.sender.bundleSequence)]
    + [Str(s.recipient.userId), Str(s.recipient.signingKeyFingerprint), Num(s.recipient.bundleSequence),
       Str(s.recipient.encryptionKeyFingerprint), Num(s.recipient.encryptionKeyVersion)]
    + [Str(s.role), Num(s.workspaceKey.version), Str(s.workspaceKey.commitment)]
    + [Str(s.wrapping.algorithm), Num(s.wrapping.labelVersion), Str(s.wrapping.ciphertext)]
  }

  /** `workspaceKeyShareCanonicalBytes` */
  function ShareText(s: Share): string {
    PrintArray(ShareFields(s))
  }

  lemma ShareAt(s: Share)
    ensures var f := ShareFields(s);
      && |f| == 19
      && f[0] == Str("cipherspace.workspace-key-share") && f[1] == Num(s.protocolVersion)
      && f[2] == Str(s.operationId) && f[3] == Str(s.workspaceId)
      && f[4] == Str(s.sender.userId) && f[5] == Str(s.sender.signingKeyFingerprint)
      && f[6] == Num(s.sender.signingKeyVersion) && f[7] == Num(s.sender.bundleSequence)
      && f[8] == Str(s.recipient.userId) && f[9] == Str(s.recipient.signingKeyFingerprint)
      && f[10] == Num(s.recipient.bundleSequence) && f[11] == Str(s.recipient.encryptionKeyFingerprint)
      && f[12] == Num(s.recipient.encryptionKeyVersion)
      && f[13] == Str(s.role) && f[14] == Num(s.workspaceKey.version) && f[15] == Str(s.workspaceKey.commitment)
      && f[16] == Str(s.wrapping.algorithm) && f[17] == Num(s.wrapping.labelVersion) && f[18] == Str(s.wrapping.ciphertext)
  {
  }

  /** Equal share bytes mean equal shares: nothing of a signed share can be exchanged. */
  lemma ShareTextInjective(s: Share, s': Share)
    requires ShareText(s) == ShareText(s')
    ensures s == s'
  {
    PrintArrayInjective(ShareFields(s), ShareFields(s'));
    ShareAt(s);
    ShareAt(s');
  }

  function LabelFields(s: Share): seq<Field> {
    [Str("cipherspace.workspace-key-wrap"), Num(s.protocolVersion), Str(s.operationId), Str(s.workspaceId)]
    + [Str(s.sender.userId), Str(s.sender.signingKeyFingerprint), Str(s.recipient.userId), Str(s.recipient.signingKeyFingerprint)]
    + [Str(s.recipient.encryptionKeyFingerprint), Num(s.recipient.encryptionKeyVersion), Str(s.role)]
    + [Num(s.workspaceKey.version), Str(s.workspaceKey.commitment)]
  }

  /** `wrapLabel` */
  function LabelText(s: Share): string {
    PrintArray(LabelFields(s))
  }

  /** The share's fields that the wrapped key is bound to. */
  predicate SameLabelled(s: Share, s': Share) {
    && s.protocolVersion == s'.protocolVersion && s.operationId == s'.operationId && s.workspaceId == s'.workspaceId
    && s.sender.userId == s'.sender.userId && s.sender.signingKeyFingerprint == s'.sender.signingKeyFingerprint
    && s.recipient.(bundleSequence := 0) == s'.recipient.(bundleSequence := 0)
    && s.role == s'.role && s.workspaceKey == s'.workspaceKey
  }

  lemma LabelAt(s: Share)
    ensures var f := LabelFields(s);
      && |f| == 13
      && f[0] == Str("cipherspace.workspace-key-wrap") && f[1] == Num(s.protocolVersion)
      && f[2] == Str(s.operationId) && f[3] == Str(s.workspaceId)
      && f[4] == Str(s.sender.userId) && f[5] == Str(s.sender.signingKeyFingerprint)
      && f[6] == Str(s.recipient.userId) && f[7] == Str(s.recipient.signingKeyFingerprint)
      && f[8] == Str(s.recipient.encryptionKeyFingerprint) && f[9] == Num(s.recipient.encryptionKeyVersion)
      && f[10] == Str(s.role) && f[11] == Num(s.workspaceKey.version) && f[12] == Str(s.workspaceKey.commitment)
  {
  }

  lemma LabelledFields(s: Share, s': Share)
    requires SameLabelled(s, s')
    ensures LabelFields(s) == LabelFields(s')
  {
    var r := s.recipient.(bundleSequence := 0);
    assert r.userId == s.recipient.userId && r.signingKeyFingerprint == s.recipient.signingKeyFingerprint;
  }

  lemma EqualLabels(s: Share, s': Share)
    requires LabelText(s) == LabelText(s')
    ensures SameLabelled(s, s')
  {
    PrintArrayInjective(LabelFields(s), LabelFields(s'));
    LabelAt(s);
    LabelAt(s');
  }

  /** Wrap labels agree exactly when the labelled fields do: role, workspace key and both parties are bound, the
      sender's key version and both bundle sequences are not. */
  lemma LabelTextBinds(s: Share, s': Share)
    ensures LabelText(s) == LabelText(s') <==> SameLabelled(s, s')
  {
    if SameLabelled(s, s') { LabelledFields(s, s'); }
    if LabelText(s) == LabelText(s') { EqualLabels(s, s'); }
  }

  /** What is signed for one purpose is never what is signed or authenticated for another. */
  lemma PurposesAreDisjoint(n: NoteContext, c: CommentContext, b: Bundle, s: Share, l: Share)
    ensures PrintArray(NoteFields(n)) != BundleText(b) && PrintArray(NoteFields(n)) != ShareText(s)
    ensures PrintArray(CommentFields(c)) != BundleText(b) && PrintArray(CommentFields(c)) != ShareText(s)
    ensures BundleText(b) != ShareText(s) && BundleText(b) != LabelText(l) && ShareText(s) != LabelText(l)
  {
    ReadPrintedArray(NoteFields(n));
    ReadPrintedArray(CommentFields(c));
    ReadPrintedArray(BundleFields(b));
    ReadPrintedArray(ShareFields(s));
    ReadPrintedArray(LabelFields(l));
  }
}
