/** Workspace members, their roles and their key shares. */
module Membership {
  import opened Wrappers
  import opened SyncTypes
  import opened CanonicalBytes
  import opened IdentityChain

  type Place = (string, string)

  datatype StoredShare = StoredShare(share: Share, revoked: bool)

  /** `members` and `shares` by workspace and user; `verified` are the users with a verified address. */
  datatype Directory = Directory(
    workspaces: set<string>, members: map<Place, Role>, shares: map<Place, StoredShare>,
    identities: Identities, verified: set<string>)

  function RoleText(r: Role): string {
    match r
    case Owner => "owner"
    case Editor => "editor"
    case Viewer => "viewer"
  }

  datatype Outcome =
    | Done | WorkspaceNotFound | NotOwner | AlreadyMember | MemberNotFound | LastOwner | UserNotFound
    | SenderIdentityMissing | RecipientIdentityMissing | KeyVersionMismatch | InvalidKeyShare | KeyShareNotFound | Failed

  predicate IsOwner(d: Directory, w: string, u: string) {
    (w, u) in d.members && d.members[(w, u)] == Owner
  }

  function Owners(d: Directory, w: string): set<string> {
    set k | k in d.members && k.0 == w && d.members[k] == Owner :: k.1
  }

  // ---- Transactions of the repository ----

  function CreateWorkspace(d: Directory, w: string, creator: string): (Directory, Outcome) {
    if w in d.workspaces || (w, creator) in d.members then (d, Failed)
    else (d.(workspaces := d.workspaces + {w}, members := d.members[(w, creator) := Owner]), Done)
  }

  /** Another row already uses the share's operation id. */
  predicate OperationTaken(d: Directory, at: Place, operationId: string) {
    exists k :: k in d.shares && k != at && d.shares[k].share.operationId == operationId
  }

  /** Insert the share or replace the member's, unrevoked; None where it throws. */
  function StoreShare(d: Directory, at: Place, share: Share): Option<Directory> {
    if OperationTaken(d, at, share.operationId) then None
    else Some(d.(shares := d.shares[at := StoredShare(share, false)]))
  }

  function AddMember(d: Directory, w: string, actor: string, target: string, role: Role, share: Share): (Directory, Outcome) {
    if w !in d.workspaces then (d, WorkspaceNotFound)
    else if !IsOwner(d, w, actor) then (d, NotOwner)
    else if (w, target) in d.members then (d, AlreadyMember)
    else
      match StoreShare(d.(members := d.members[(w, target) := role]), (w, target), share)
      case None => (d, Failed)
      case Some(d') => (d', Done)
  }

  function PutKeyShare(d: Directory, w: string, actor: string, target: string, share: Share): (Directory, Outcome) {
    if w !in d.workspaces then (d, WorkspaceNotFound)
    else if !IsOwner(d, w, actor) then (d, NotOwner)
    else if (w, target) !in d.members then (d, MemberNotFound)
    else
      match StoreShare(d, (w, target), share)
      case None => (d, Failed)
      case Some(d') => (d', Done)
  }

  function Revoke(d: Directory, at: Place): map<Place, StoredShare> {
    if at in d.shares then d.shares[at := d.shares[at].(revoked := true)] else d.shares
  }

  function UpdateMemberRole(d: Directory, w: string, actor: string, target: string, role: Role): (Directory, Outcome) {
    if w !in d.workspaces then (d, WorkspaceNotFound)
    else if !IsOwner(d, w, actor) then (d, NotOwner)
    else if (w, target) !in d.members then (d, MemberNotFound)
    else if IsOwner(d, w, target) && role != Owner && |Owners(d, w)| <= 1 then (d, LastOwner)
    else
      (d.(members := d.members[(w, target) := role],
          shares := if d.members[(w, target)] != role then Revoke(d, (w, target)) else d.shares), Done)
  }

  function RemoveMember(d: Directory, w: string, actor: string, target: string): (Directory, Outcome) {
    if w !in d.workspaces then (d, WorkspaceNotFound)
    else if !IsOwner(d, w, actor) then (d, NotOwner)
    else if (w, target) !in d.members then (d, MemberNotFound)
    else if IsOwner(d, w, target) && |Owners(d, w)| <= 1 then (d, LastOwner)
    else (d.(members := d.members - {(w, target)}, shares := Revoke(d, (w, target))), Done)
  }

  // ---- What the repository keeps under any calls ----

  ghost predicate HasOwner(d: Directory, w: string) {
    exists u :: IsOwner(d, w, u)
  }

  /** The user's role in the workspace; None for an outsider. */
  function RoleOf(d: Directory, w: string, u: string): Option<Role> {
    if (w, u) in d.members then Some(d.members[(w, u)]) else None
  }

  ghost predicate Inv(d: Directory) {
    && (forall w :: w in d.workspaces ==> HasOwner(d, w))
    && (forall k :: k in d.members ==> k.0 in d.workspaces)
    && (forall k :: k in d.shares && !d.shares[k].revoked ==> k in d.members)
  }

  lemma OtherOwner(d: Directory, w: string, u: string) returns (v: string)
    requires |Owners(d, w)| > 1
    ensures v != u && IsOwner(d, w, v)
  {
    var rest := Owners(d, w) - {u};
    if rest == {} {
      assert Owners(d, w) <= {u};
      assert |Owners(d, w)| <= |{u}| by { SubsetSize(Owners(d, w), {u}); }
    }
    v :| v in rest;
  }

  lemma SubsetSize(a: set<string>, b: set<string>)
    requires a <= b
    ensures |a| <= |b|
  {
    assert b == a + (b - a);
  }

  lemma OwnerIsListed(d: Directory, w: string, u: string)
    requires IsOwner(d, w, u)
    ensures u in Owners(d, w)
  {
    var k := (w, u);
    assert k in d.members && k.0 == w && d.members[k] == Owner;
  }

  lemma OwnersStay(d: Directory, d': Directory, w: string, target: string)
    requires Inv(d) && d'.workspaces == d.workspaces
    requires forall k :: k in d.members && k != (w, target) ==> k in d'.members && d'.members[k] == d.members[k]
    requires IsOwner(d, w, target) && !IsOwner(d', w, target) ==> |Owners(d, w)| > 1
    ensures forall v :: v in d'.workspaces ==> HasOwner(d', v)
  {
    forall v | v in d'.workspaces ensures HasOwner(d', v) {
      var u :| IsOwner(d, v, u);
      if IsOwner(d', v, u) {
      } else {
        var other := OtherOwner(d, w, target);
        assert IsOwner(d', w, other);
      }
    }
  }

  datatype Call =
    | Create(w: string, creator: string)
    | Add(w: string, actor: string, target: string, role: Role, share: Share)
    | Put(w: string, actor: string, target: string, share: Share)
    | Update(w: string, actor: string, target: string, role: Role)
    | Remove(w: string, actor: string, target: string)

  /** Any transaction of the repository, with any arguments. */
  function Transact(d: Directory, call: Call): (Directory, Outcome) {
    match call
    case Create(w, creator) => CreateWorkspace(d, w, creator)
    case Add(w, actor, target, role, share) => AddMember(d, w, actor, target, role, share)
    case Put(w, actor, target, share) => PutKeyShare(d, w, actor, target, share)
    case Update(w, actor, target, role) => UpdateMemberRole(d, w, actor, target, role)
    case Remove(w, actor, target) => RemoveMember(d, w, actor, target)
  }

  lemma CreateKeepsInv(d: Directory, w: string, creator: string)
    requires Inv(d)
    ensures Inv(CreateWorkspace(d, w, creator).0)
  {
    var d' := CreateWorkspace(d, w, creator).0;
    forall v | v in d'.workspaces ensures HasOwner(d', v) {
      if v in d.workspaces {
        var u :| IsOwner(d, v, u);
        assert IsOwner(d', v, u);
      } else {
        assert IsOwner(d', v, creator);
      }
    }
  }

  lemma AddKeepsInv(d: Directory, w: string, actor: string, target: string, role: Role, share: Share)
    requires Inv(d)
    ensures Inv(AddMember(d, w, actor, target, role, share).0)
  {
    OwnersStay(d, AddMember(d, w, actor, target, role, share).0, w, target);
  }

  lemma PutKeepsInv(d: Directory, w: string, actor: string, target: string, share: Share)
    requires Inv(d)
    ensures Inv(PutKeyShare(d, w, actor, target, share).0)
  {
    OwnersStay(d, PutKeyShare(d, w, actor, target, share).0, w, target);
  }

  lemma UpdateKeepsInv(d: Directory, w: string, actor: string, target: string, role: Role)
    requires Inv(d)
    ensures Inv(UpdateMemberRole(d, w, actor, target, role).0)
  {
    OwnersStay(d, UpdateMemberRole(d, w, actor, target, role).0, w, target);
  }

  lemma RemoveKeepsInv(d: Directory, w: string, actor: string, target: string)
    requires Inv(d)
    ensures Inv(RemoveMember(d, w, actor, target).0)
  {
    OwnersStay(d, RemoveMember(d, w, actor, target).0, w, target);
  }

  lemma TransactKeepsInv(d: Directory, call: Call)
    requires Inv(d)
    ensures Inv(Transact(d, call).0)
  {
    match call
    case Create(w, creator) => CreateKeepsInv(d, w, creator);
    case Add(w, actor, target, role, share) => AddKeepsInv(d, w, actor, target, role, share);
    case Put(w, actor, target, share) => PutKeepsInv(d, w, actor, target, share);
    case Update(w, actor, target, role) => UpdateKeepsInv(d, w, actor, target, role);
    case Remove(w, actor, target) => RemoveKeepsInv(d, w, actor, target);
  }

  function RunCalls(d: Directory, calls: seq<Call>): Directory
    decreases |calls|
  {
    if calls == [] then d else RunCalls(Transact(d, calls[0]).0, calls[1..])
  }

  /** In every reachable state each workspace has an owner and each unrevoked share belongs to a member, however the
      transactions interleave. */
  lemma {:induction false} RunKeepsInv(d: Directory, calls: seq<Call>)
    requires Inv(d)
    ensures Inv(RunCalls(d, calls))
    decreases |calls|
  {
    if calls != [] {
      TransactKeepsInv(d, calls[0]);
      RunKeepsInv(Transact(d, calls[0]).0, calls[1..]);
    }
  }

  /** The last owner cannot be demoted or removed, and that is the only protection an owner's target has: an owner's
      call on a member goes through exactly when it does not take the last owner away. */
  lemma LastOwnerExactly(d: Directory, w: string, actor: string, target: string, role: Role)
    requires w in d.workspaces && RoleOf(d, w, actor) == Some(Owner) && RoleOf(d, w, target) != None
    ensures UpdateMemberRole(d, w, actor, target, role).1 == Done <==>
      role == Owner || exists u :: u != target && RoleOf(d, w, u) == Some(Owner)
    ensures RemoveMember(d, w, actor, target).1 == Done <==> exists u :: u != target && RoleOf(d, w, u) == Some(Owner)
  {
    assert forall u :: RoleOf(d, w, u) == Some(Owner) <==> IsOwner(d, w, u);
    OwnerIsListed(d, w, actor);
    if |Owners(d, w)| > 1 {
      var other := OtherOwner(d, w, target);
    } else if IsOwner(d, w, target) {
      OwnerIsListed(d, w, target);
      forall u | u != target ensures !IsOwner(d, w, u) {
        if IsOwner(d, w, u) {
          OwnerIsListed(d, w, u);
          SubsetSize({target, u}, Owners(d, w));
        }
      }
    } else {
      assert actor != target;
    }
  }

  // ---- Calls of the service ----

  /** `requireOwner`: None when the user may go on. */
  function RequireOwner(d: Directory, w: string, actor: string): Option<Outcome> {
    if (w, actor) !in d.members then Some(WorkspaceNotFound)
    else if d.members[(w, actor)] != Owner then Some(NotOwner)
    else None
  }

  /** What `validateSignedShare` compares, before it verifies the signature. */
  predicate Describes(share: Share, w: string, role: Role, sender: Row, senderId: string, recipient: Row, recipientId: string) {
    && share.protocolVersion == 2 && share.workspaceId == w && share.sender.userId == senderId
    && share.sender.signingKeyFingerprint == sender.signed.signingKey.fingerprint
    && share.sender.signingKeyVersion == sender.signed.signingKey.keyVersion
    && share.sender.bundleSequence == sender.signed.bundleSequence
    && share.recipient.userId == recipientId
    && share.recipient.signingKeyFingerprint == recipient.signed.signingKey.fingerprint
    && share.recipient.bundleSequence == recipient.signed.bundleSequence
    && share.recipient.encryptionKeyFingerprint == recipient.signed.encryptionKey.fingerprint
    && share.recipient.encryptionKeyVersion == recipient.signed.encryptionKey.keyVersion
    && share.role == RoleText(role)
  }

  /** The checks of both calls that store a share; `signatureValid` says whether the sender's key verifies it. */
  function Validate(d: Directory, w: string, actor: string, target: string, role: Role, share: Share, signatureValid: bool): Option<Outcome> {
    var sender, recipient := Current(Rows(d.identities, actor)), Current(Rows(d.identities, target));
    if sender.None? then Some(SenderIdentityMissing)
    else if recipient.None? then Some(RecipientIdentityMissing)
    else if !Describes(share, w, role, sender.value, actor, recipient.value, target) then Some(KeyVersionMismatch)
    else if !signatureValid then Some(InvalidKeyShare)
    else None
  }

  /** `addMember` of the service. */
  function ServeAdd(d: Directory, w: string, actor: string, target: string, role: Role, share: Share, signatureValid: bool): (Directory, Outcome) {
    if RequireOwner(d, w, actor).Some? then (d, RequireOwner(d, w, actor).value)
    else if target !in d.verified then (d, UserNotFound)
    else if Validate(d, w, actor, target, role, share, signatureValid).Some? then
      (d, Validate(d, w, actor, target, role, share, signatureValid).value)
    else AddMember(d, w, actor, target, role, share)
  }

  /** What `putKeyShare` of the service checks before its transaction: None when it goes on. */
  function CheckPut(d: Directory, w: string, actor: string, target: string, share: Share, signatureValid: bool): Option<Outcome> {
    if RequireOwner(d, w, actor).Some? then RequireOwner(d, w, actor)
    else if target != actor && target !in d.verified then Some(UserNotFound)
    else if Current(Rows(d.identities, actor)).None? then Some(SenderIdentityMissing)
    else if Current(Rows(d.identities, target)).None? then Some(RecipientIdentityMissing)
    else if (w, target) !in d.members then Some(MemberNotFound)
    else Validate(d, w, actor, target, d.members[(w, target)], share, signatureValid)
  }

  /** `putKeyShare` of the service. */
  function ServePut(d: Directory, w: string, actor: string, target: string, share: Share, signatureValid: bool): (Directory, Outcome) {
    var refused := CheckPut(d, w, actor, target, share, signatureValid);
    if refused.Some? then (d, refused.value) else PutKeyShare(d, w, actor, target, share)
  }

  function ServeUpdate(d: Directory, w: string, actor: string, target: string, role: Role): (Directory, Outcome) {
    if RequireOwner(d, w, actor).Some? then (d, RequireOwner(d, w, actor).value) else UpdateMemberRole(d, w, actor, target, role)
  }

  function ServeRemove(d: Directory, w: string, actor: string, target: string): (Directory, Outcome) {
    if RequireOwner(d, w, actor).Some? then (d, RequireOwner(d, w, actor).value) else RemoveMember(d, w, actor, target)
  }

  datatype Request =
    | CreateRequest(w: string, creator: string)
    | AddRequest(w: string, actor: string, target: string, role: Role, share: Share, signatureValid: bool)
    | PutRequest(w: string, actor: string, target: string, share: Share, signatureValid: bool)
    | UpdateRequest(w: string, actor: string, target: string, role: Role)
    | RemoveRequest(w: string, actor: string, target: string)
    | RegisterRequest(row: Row)
    | VerifyUser(user: string)

  /** Any service call, taken as one step, or a change of the users' identities. */
  function Serve(d: Directory, request: Request): Directory {
    match request
    case CreateRequest(w, creator) => CreateWorkspace(d, w, creator).0
    case AddRequest(w, actor, target, role, share, valid) => ServeAdd(d, w, actor, target, role, share, valid).0
    case PutRequest(w, actor, target, share, valid) => ServePut(d, w, actor, target, share, valid).0
    case UpdateRequest(w, actor, target, role) => ServeUpdate(d, w, actor, target, role).0
    case RemoveRequest(w, actor, target) => ServeRemove(d, w, actor, target).0
    case RegisterRequest(row) => d.(identities := IdentityChain.Register(d.identities, row).0)
    case VerifyUser(user) => d.(verified := d.verified + {user})
  }

  /** The bundle a party names is on its chain, with the key it names. */
  ghost predicate Names(identities: Identities, user: string, sequence: nat, signingFingerprint: string) {
    && 1 <= sequence <= |Rows(identities, user)|
    && Rows(identities, user)[sequence - 1].signed.signingKey.fingerprint == signingFingerprint
  }

  /** An unrevoked share is its place's: for this workspace and member, at the member's role, from and to identities
      on record. */
  ghost predicate Proper(d: Directory, k: Place)
    requires k in d.shares && k in d.members
  {
    var s := d.shares[k].share;
    && s.workspaceId == k.0 && s.recipient.userId == k.1 && s.role == RoleText(d.members[k])
    && Names(d.identities, s.sender.userId, s.sender.bundleSequence, s.sender.signingKeyFingerprint)
    && Names(d.identities, s.recipient.userId, s.recipient.bundleSequence, s.recipient.signingKeyFingerprint)
  }

  ghost predicate AllProper(d: Directory) {
    forall k :: k in d.shares && !d.shares[k].revoked ==> k in d.members && Proper(d, k)
  }

  ghost predicate ServiceInv(d: Directory) {
    Inv(d) && IdentityChain.Inv(d.identities) && AllProper(d)
  }

  lemma CurrentIsNamed(identities: Identities, user: string)
    requires IdentityChain.Inv(identities) && Current(Rows(identities, user)).Some?
    ensures var b := Current(Rows(identities, user)).value.signed;
      Names(identities, user, b.bundleSequence, b.signingKey.fingerprint)
  {
    var rows := Rows(identities, user);
    assert Chain(rows, user);
    CurrentIsLast(rows, user);
    assert Link(rows, user, |rows| - 1);
  }

  lemma RegisterKeepsNames(identities: Identities, row: Row, user: string, sequence: nat, fingerprint: string)
    requires IdentityChain.Inv(identities) && Names(identities, user, sequence, fingerprint)
    ensures Names(IdentityChain.Register(identities, row).0, user, sequence, fingerprint)
  {
    RegisterKeepsInv(identities, row);
  }

  lemma RegisterKeepsProper(d: Directory, row: Row)
    requires ServiceInv(d)
    ensures AllProper(d.(identities := IdentityChain.Register(d.identities, row).0))
  {
    forall k | k in d.shares && !d.shares[k].revoked
      ensures Proper(d.(identities := IdentityChain.Register(d.identities, row).0), k)
    {
      var s := d.shares[k].share;
      assert Proper(d, k);
      RegisterKeepsNames(d.identities, row, s.sender.userId, s.sender.bundleSequence, s.sender.signingKeyFingerprint);
      RegisterKeepsNames(d.identities, row, s.recipient.userId, s.recipient.bundleSequence, s.recipient.signingKeyFingerprint);
    }
  }

  lemma StoreKeepsProper(d: Directory, d': Directory, w: string, actor: string, target: string, role: Role, share: Share)
    requires IdentityChain.Inv(d.identities) && AllProper(d) && d'.identities == d.identities
    requires Validate(d, w, actor, target, role, share, true).None?
    requires d'.members == d.members[(w, target) := role] && d'.shares == d.shares[(w, target) := StoredShare(share, false)]
    ensures AllProper(d')
  {
    CurrentIsNamed(d.identities, actor);
    CurrentIsNamed(d.identities, target);
    forall k | k in d'.shares && !d'.shares[k].revoked ensures k in d'.members && Proper(d', k) {
      if k != (w, target) { assert Proper(d, k); }
    }
  }

  lemma ServeAddKeepsProper(d: Directory, w: string, actor: string, target: string, role: Role, share: Share, valid: bool)
    requires ServiceInv(d)
    ensures AllProper(ServeAdd(d, w, actor, target, role, share, valid).0)
  {
    var d' := ServeAdd(d, w, actor, target, role, share, valid).0;
    if d' != d { StoreKeepsProper(d, d', w, actor, target, role, share); }
  }

  lemma ServePutKeepsProper(d: Directory, w: string, actor: string, target: string, share: Share, valid: bool)
    requires ServiceInv(d)
    ensures AllProper(ServePut(d, w, actor, target, share, valid).0)
  {
    var d' := ServePut(d, w, actor, target, share, valid).0;
    if d' != d { StoreKeepsProper(d, d', w, actor, target, d.members[(w, target)], share); }
  }

  /** No new share, and no member of an unrevoked share changed. */
  lemma OldSharesStayProper(d: Directory, d': Directory)
    requires AllProper(d) && d'.identities == d.identities
    requires forall k :: k in d'.shares && !d'.shares[k].revoked ==>
      k in d.shares && d'.shares[k] == d.shares[k] && (k in d.members ==> k in d'.members && d'.members[k] == d.members[k])
    ensures AllProper(d')
  {
    forall k | k in d'.shares && !d'.shares[k].revoked ensures k in d'.members && Proper(d', k) { assert Proper(d, k); }
  }

  lemma UpdateKeepsProper(d: Directory, w: string, actor: string, target: string, role: Role)
    requires AllProper(d)
    ensures AllProper(ServeUpdate(d, w, actor, target, role).0)
  {
    OldSharesStayProper(d, ServeUpdate(d, w, actor, target, role).0);
  }

  lemma RemoveKeepsProper(d: Directory, w: string, actor: string, target: string)
    requires AllProper(d)
    ensures AllProper(ServeRemove(d, w, actor, target).0)
  {
    OldSharesStayProper(d, ServeRemove(d, w, actor, target).0);
  }

  lemma ServeKeepsProper(d: Directory, request: Request)
    requires ServiceInv(d)
    ensures AllProper(Serve(d, request))
  {
    match request
    case AddRequest(w, actor, target, role, share, valid) => ServeAddKeepsProper(d, w, actor, target, role, share, valid);
    case PutRequest(w, actor, target, share, valid) => ServePutKeepsProper(d, w, actor, target, share, valid);
    case RegisterRequest(row) => RegisterKeepsProper(d, row);
    case CreateRequest(w, creator) => OldSharesStayProper(d, CreateWorkspace(d, w, creator).0);
    case UpdateRequest(w, actor, target, role) => UpdateKeepsProper(d, w, actor, target, role);
    case RemoveRequest(w, actor, target) => RemoveKeepsProper(d, w, actor, target);
    case VerifyUser(user) => OldSharesStayProper(d, d.(verified := d.verified + {user}));
  }

  /** The transaction a service call comes to, if it gets that far. */
  lemma ServeTransacts(d: Directory, request: Request)
    requires Inv(d)
    ensures Inv(Serve(d, request))
  {
    match request
    case CreateRequest(w, creator) => TransactKeepsInv(d, Create(w, creator));
    case AddRequest(w, actor, target, role, share, valid) => TransactKeepsInv(d, Add(w, actor, target, role, share));
    case PutRequest(w, actor, target, share, valid) => TransactKeepsInv(d, Put(w, actor, target, share));
    case UpdateRequest(w, actor, target, role) => TransactKeepsInv(d, Update(w, actor, target, role));
    case RemoveRequest(w, actor, target) => TransactKeepsInv(d, Remove(w, actor, target));
    case RegisterRequest(row) =>
      forall w | w in d.workspaces ensures HasOwner(Serve(d, request), w) {
        var u :| IsOwner(d, w, u);
        assert IsOwner(Serve(d, request), w, u);
      }
    case VerifyUser(user) =>
      forall w | w in d.workspaces ensures HasOwner(Serve(d, request), w) {
        var u :| IsOwner(d, w, u);
        assert IsOwner(Serve(d, request), w, u);
      }
  }

  function Run(d: Directory, requests: seq<Request>): Directory
    decreases |requests|
  {
    if requests == [] then d else Run(Serve(d, requests[0]), requests[1..])
  }

  lemma ServeKeepsServiceInv(d: Directory, request: Request)
    requires ServiceInv(d)
    ensures ServiceInv(Serve(d, request))
  {
    ServeTransacts(d, request);
    ServeKeepsProper(d, request);
    if request.RegisterRequest? { RegisterKeepsInv(d.identities, request.row); }
  }

  /** With service calls as steps, every unrevoked share is its member's, at the member's current role, from and to
      bundles that are still on record, in every reachable state. */
  lemma {:induction false} RunKeepsServiceInv(d: Directory, requests: seq<Request>)
    requires ServiceInv(d)
    ensures ServiceInv(Run(d, requests))
    decreases |requests|
  {
    if requests != [] {
      ServeKeepsServiceInv(d, requests[0]);
      RunKeepsServiceInv(Serve(d, requests[0]), requests[1..]);
    }
  }

  // ---- What calls do ----

  /** A member is added if and only if the actor owns the workspace, the new member's address is verified, they are no
      member yet, and the share is signed for exactly this role, these parties' current bundles and an unused
      operation; then they have the role and the share, and nobody else changes. */
  lemma AddsExactly(d: Directory, w: string, actor: string, target: string, role: Role, share: Share, valid: bool)
    requires ServiceInv(d)
    ensures var (d', outcome) := ServeAdd(d, w, actor, target, role, share, valid);
      && (outcome == Done <==>
            && RoleOf(d, w, actor) == Some(Owner) && target in d.verified && RoleOf(d, w, target) == None && valid
            && SharesFor(d, w, actor, target, role, share)
            && forall k :: k in d.shares && k != (w, target) ==> d.shares[k].share.operationId != share.operationId)
      && d' == (if outcome == Done
                then d.(members := d.members[(w, target) := role], shares := d.shares[(w, target) := StoredShare(share, false)])
                else d)
  {
    assert IsOwner(d, w, actor) ==> w in d.workspaces;
    NewestIsCurrent(d, w, actor, target, role, share);
  }

  /** The share describes this role, this workspace and both parties' newest bundles. */
  predicate SharesFor(d: Directory, w: string, actor: string, target: string, role: Role, share: Share) {
    var sent, received := Rows(d.identities, actor), Rows(d.identities, target);
    && sent != [] && received != []
    && share.protocolVersion == 2 && share.workspaceId == w
    && share.role == (match role case Owner => "owner" case Editor => "editor" case Viewer => "viewer")
    && var s := sent[|sent| - 1].signed;
    && share.sender == Sender(actor, s.signingKey.fingerprint, s.signingKey.keyVersion, s.bundleSequence)
    && var r := received[|received| - 1].signed;
    share.recipient == Recipient(target, r.signingKey.fingerprint, r.bundleSequence, r.encryptionKey.fingerprint, r.encryptionKey.keyVersion)
  }

  lemma NewestIsCurrent(d: Directory, w: string, actor: string, target: string, role: Role, share: Share)
    requires IdentityChain.Inv(d.identities)
    ensures Validate(d, w, actor, target, role, share, true).None? <==> SharesFor(d, w, actor, target, role, share)
  {
    assert Chain(Rows(d.identities, actor), actor) && Chain(Rows(d.identities, target), target);
    CurrentIsLast(Rows(d.identities, actor), actor);
    CurrentIsLast(Rows(d.identities, target), target);
  }

  /** A share is replaced if and only if the actor owns the workspace, the target is a member, verified unless it is
      the actor, and the share fits the member's current role; then only that share changes. */
  lemma PutsExactly(d: Directory, w: string, actor: string, target: string, share: Share, valid: bool)
    requires ServiceInv(d)
    ensures var (d', outcome) := ServePut(d, w, actor, target, share, valid);
      && (outcome == Done <==>
            && RoleOf(d, w, actor) == Some(Owner) && (w, target) in d.members && (target == actor || target in d.verified) && valid
            && SharesFor(d, w, actor, target, d.members[(w, target)], share)
            && forall k :: k in d.shares && k != (w, target) ==> d.shares[k].share.operationId != share.operationId)
      && d' == (if outcome == Done then d.(shares := d.shares[(w, target) := StoredShare(share, false)]) else d)
  {
    assert IsOwner(d, w, actor) ==> w in d.workspaces;
    if (w, target) in d.members { NewestIsCurrent(d, w, actor, target, d.members[(w, target)], share); }
  }

  /** A role change revokes the member's share exactly when it changes the role, and a removal always does; a member
      without a share has to be given one again. */
  lemma ChangesRevoke(d: Directory, w: string, actor: string, target: string, role: Role)
    requires Inv(d)
    ensures var (d', outcome) := ServeUpdate(d, w, actor, target, role);
      outcome == Done ==>
        && RoleOf(d, w, actor) == Some(Owner) && RoleOf(d, w, target) != None
        && d' == d.(members := d'.members, shares := d'.shares)
        && d'.members == d.members[(w, target) := role]
        && ((w, target) in d'.shares && !d'.shares[(w, target)].revoked <==>
              (w, target) in d.shares && !d.shares[(w, target)].revoked && d.members[(w, target)] == role)
        && (forall k :: k in d.shares && k != (w, target) ==> k in d'.shares && d'.shares[k] == d.shares[k])
    ensures var (d', outcome) := ServeRemove(d, w, actor, target);
      outcome == Done ==>
        && RoleOf(d, w, actor) == Some(Owner) && RoleOf(d, w, target) != None
        && d' == d.(members := d'.members, shares := d'.shares)
        && d'.members == d.members - {(w, target)}
        && ((w, target) in d'.shares ==> d'.shares[(w, target)].revoked)
        && (forall k :: k in d.shares && k != (w, target) ==> k in d'.shares && d'.shares[k] == d.shares[k])
  {
  }

  /** Another share already uses the operation. */
  predicate OperationUsed(d: Directory, at: Place, operationId: string) {
    !(forall k :: k in d.shares && k != at ==> d.shares[k].share.operationId != operationId)
  }

  /** What an owner is told when adding, in the order of the checks. */
  lemma AddAnswersExactly(d: Directory, w: string, actor: string, target: string, role: Role, share: Share, valid: bool)
    requires ServiceInv(d) && RoleOf(d, w, actor) == Some(Owner)
    ensures ServeAdd(d, w, actor, target, role, share, valid).1 ==
      if target !in d.verified then UserNotFound
      else if Rows(d.identities, actor) == [] then SenderIdentityMissing
      else if Rows(d.identities, target) == [] then RecipientIdentityMissing
      else if !SharesFor(d, w, actor, target, role, share) then KeyVersionMismatch
      else if !valid then InvalidKeyShare
      else if RoleOf(d, w, target) != None then AlreadyMember
      else if OperationUsed(d, (w, target), share.operationId) then Failed
      else Done
  {
    NewestIsCurrent(d, w, actor, target, role, share);
    assert IsOwner(d, w, actor) && w in d.workspaces;
    assert OperationTaken(d, (w, target), share.operationId) <==> OperationUsed(d, (w, target), share.operationId);
  }

  /** And when replacing a share; the actor's own share needs no verified address. */
  lemma PutAnswersExactly(d: Directory, w: string, actor: string, target: string, share: Share, valid: bool)
    requires ServiceInv(d) && RoleOf(d, w, actor) == Some(Owner)
    ensures ServePut(d, w, actor, target, share, valid).1 ==
      if target != actor && target !in d.verified then UserNotFound
      else if Rows(d.identities, actor) == [] then SenderIdentityMissing
      else if Rows(d.identities, target) == [] then RecipientIdentityMissing
      else if RoleOf(d, w, target) == None then MemberNotFound
      else if !SharesFor(d, w, actor, target, RoleOf(d, w, target).value, share) then KeyVersionMismatch
      else if !valid then InvalidKeyShare
      else if OperationUsed(d, (w, target), share.operationId) then Failed
      else Done
  {
    if (w, target) in d.members { NewestIsCurrent(d, w, actor, target, d.members[(w, target)], share); }
    assert IsOwner(d, w, actor) && w in d.workspaces;
    assert OperationTaken(d, (w, target), share.operationId) <==> OperationUsed(d, (w, target), share.operationId);
  }

  /** Creating gives the workspace to its creator, who owns it. */
  lemma CreateGives(d: Directory, w: string, creator: string)
    ensures CreateWorkspace(d, w, creator) ==
      if w !in d.workspaces && RoleOf(d, w, creator) == None
      then (d.(workspaces := d.workspaces + {w}, members := d.members[(w, creator) := Owner]), Done) else (d, Failed)
  {
  }

  /** Every service call on members is refused to all but the owner, with the workspace hidden from outsiders, and a
      refusal changes nothing. */
  lemma OnlyOwnersServe(d: Directory, w: string, actor: string, target: string, role: Role, share: Share, valid: bool)
    ensures forall r :: r in [ServeAdd(d, w, actor, target, role, share, valid), ServePut(d, w, actor, target, share, valid),
                              ServeUpdate(d, w, actor, target, role), ServeRemove(d, w, actor, target)] ==>
      && (RoleOf(d, w, actor) == None ==> r == (d, WorkspaceNotFound))
      && (RoleOf(d, w, actor) in {Some(Editor), Some(Viewer)} ==> r == (d, NotOwner))
      && (r.1 != Done ==> r.0 == d)
  {
  }

  // ---- Reading a share back ----

  /** `findBySequence` */
  function FindBySequence(identities: Identities, user: string, sequence: nat): Option<Row> {
    FindRow(Rows(identities, user), sequence)
  }

  function FindRow(rows: seq<Row>, sequence: nat): Option<Row> {
    if rows == [] then None
    else if rows[0].signed.bundleSequence == sequence then Some(rows[0])
    else FindRow(rows[1..], sequence)
  }

  /** `getOwnKeyShare`, of a version 2 share: the share and its sender's bundle. */
  function GetOwnKeyShare(d: Directory, w: string, u: string): Result<(Share, Row), Outcome> {
    if (w, u) !in d.members then Err(WorkspaceNotFound)
    else if (w, u) !in d.shares || d.shares[(w, u)].revoked then Err(KeyShareNotFound)
    else
      var share := d.shares[(w, u)].share;
      match FindBySequence(d.identities, share.sender.userId, share.sender.bundleSequence)
      case None => Err(SenderIdentityMissing)
      case Some(row) =>
        if row.signed.signingKey.fingerprint != share.sender.signingKeyFingerprint then Err(SenderIdentityMissing)
        else Ok((share, row))
  }

  lemma {:induction false} FindsLinked(rows: seq<Row>, user: string, from: nat, sequence: nat)
    requires Chain(rows, user) && from < sequence <= |rows|
    ensures FindRow(rows[from..], sequence) == Some(rows[sequence - 1])
    decreases sequence - from
  {
    assert Link(rows, user, from);
    if from + 1 < sequence {
      assert rows[from..][1..] == rows[from + 1..];
      FindsLinked(rows, user, from + 1, sequence);
    }
  }

  lemma NamedIsFound(identities: Identities, user: string, sequence: nat, fingerprint: string)
    requires IdentityChain.Inv(identities) && Names(identities, user, sequence, fingerprint)
    ensures var row := FindBySequence(identities, user, sequence);
      row.Some? && row.value.signed.signingKey.fingerprint == fingerprint
  {
    var rows := Rows(identities, user);
    assert Chain(rows, user) && rows[0..] == rows;
    FindsLinked(rows, user, 0, sequence);
  }

  lemma ProperIsReadable(d: Directory, w: string, u: string)
    requires IdentityChain.Inv(d.identities) && AllProper(d) && (w, u) in d.shares && !d.shares[(w, u)].revoked
    ensures var r := GetOwnKeyShare(d, w, u);
      && r.Ok? && r.value.0 == d.shares[(w, u)].share && r.value.0.role == RoleText(d.members[(w, u)])
      && r.value.1.signed.signingKey.fingerprint == r.value.0.sender.signingKeyFingerprint
  {
    assert Proper(d, (w, u));
    var sender := d.shares[(w, u)].share.sender;
    NamedIsFound(d.identities, sender.userId, sender.bundleSequence, sender.signingKeyFingerprint);
  }

  /** A stored share can always be read back with its sender's bundle, however far the sender's chain has grown. */
  lemma OwnShareIsReadable(d: Directory, requests: seq<Request>, w: string, u: string)
    requires ServiceInv(d)
    requires (w, u) in Run(d, requests).shares && !Run(d, requests).shares[(w, u)].revoked
    ensures var r := GetOwnKeyShare(Run(d, requests), w, u);
      && r.Ok? && r.value.0 == Run(d, requests).shares[(w, u)].share
      && r.value.0.role == RoleText(Run(d, requests).members[(w, u)])
      && r.value.1.signed.signingKey.fingerprint == r.value.0.sender.signingKeyFingerprint
  {
    RunKeepsServiceInv(d, requests);
    ProperIsReadable(Run(d, requests), w, u);
  }

  /** Who gets what: an outsider is told that there is no such workspace, a member without a share or with a revoked one
      that there is none, and any other member gets the share, with the bundle it was signed with: the sender's at the
      share's sequence, if it is on record and carries the share's fingerprint. */
  lemma OwnShareExactly(d: Directory, w: string, u: string)
    requires IdentityChain.Inv(d.identities)
    ensures var r := GetOwnKeyShare(d, w, u);
      && (r == Err(WorkspaceNotFound) <==> (w, u) !in d.members)
      && (r == Err(KeyShareNotFound) <==> (w, u) in d.members && ((w, u) !in d.shares || d.shares[(w, u)].revoked))
      && (r.Ok? ==>
            && (w, u) in d.members && (w, u) in d.shares && !d.shares[(w, u)].revoked && r.value.0 == d.shares[(w, u)].share
            && r.value.1 in Rows(d.identities, r.value.0.sender.userId)
            && r.value.1.signed.bundleSequence == r.value.0.sender.bundleSequence
            && r.value.1.signed.signingKey.fingerprint == r.value.0.sender.signingKeyFingerprint)
      && (r.Err? && r.error !in {WorkspaceNotFound, KeyShareNotFound} ==>
            && r.error == SenderIdentityMissing && (w, u) in d.shares
            && var sender := d.shares[(w, u)].share.sender;
            && forall row :: row in Rows(d.identities, sender.userId) && row.signed.bundleSequence == sender.bundleSequence ==>
                 row.signed.signingKey.fingerprint != sender.signingKeyFingerprint)
  {
    if (w, u) in d.shares {
      var sender := d.shares[(w, u)].share.sender;
      FindRowExactly(Rows(d.identities, sender.userId), sender.bundleSequence);
      SequenceIsUnique(d.identities, sender.userId);
    }
  }

  lemma {:induction false} FindRowExactly(rows: seq<Row>, sequence: nat)
    ensures FindRow(rows, sequence).Some? ==>
      FindRow(rows, sequence).value in rows && FindRow(rows, sequence).value.signed.bundleSequence == sequence
    ensures FindRow(rows, sequence).None? ==> forall row :: row in rows ==> row.signed.bundleSequence != sequence
    decreases |rows|
  {
    if rows != [] { FindRowExactly(rows[1..], sequence); }
  }

  lemma SequenceIsUnique(identities: Identities, user: string)
    requires IdentityChain.Inv(identities)
    ensures forall a, b :: a in Rows(identities, user) && b in Rows(identities, user) ==>
      a.signed.bundleSequence == b.signed.bundleSequence ==> a == b
  {
    var rows := Rows(identities, user);
    assert Chain(rows, user);
    forall a, b | a in rows && b in rows && a.signed.bundleSequence == b.signed.bundleSequence ensures a == b {
      var i :| 0 <= i < |rows| && rows[i] == a;
      var j :| 0 <= j < |rows| && rows[j] == b;
      assert Link(rows, user, i) && Link(rows, user, j);
    }
  }

  // ---- The window in putKeyShare ----

  /** `putKeyShare` checks the role before its transaction. When another call runs in between, the stored share
      agrees with the member's role exactly if the role is still the one that was checked. */
  lemma PutKeyShareWindow(checked: Directory, d: Directory, w: string, actor: string, target: string, share: Share)
    requires CheckPut(checked, w, actor, target, share, true).None?
    requires PutKeyShare(d, w, actor, target, share).1 == Done
    ensures var d' := PutKeyShare(d, w, actor, target, share).0;
      && (w, target) in d'.members && (w, target) in d'.shares && !d'.shares[(w, target)].revoked
      && (d'.shares[(w, target)].share.role == RoleText(d'.members[(w, target)])
          <==> d.members[(w, target)] == checked.members[(w, target)])
  {
  }

  /** Such a window does leave a share at a role the member no longer has: here an owner demotes the member in it. */
  lemma PutKeyShareRace(d: Directory, w: string, actor: string, target: string, share: Share)
    requires CheckPut(d, w, actor, target, share, true).None? && w in d.workspaces && target != actor
    requires d.members[(w, target)] == Editor && !OperationTaken(d, (w, target), share.operationId)
    ensures var between := UpdateMemberRole(d, w, actor, target, Viewer).0;
      var (d', outcome) := PutKeyShare(between, w, actor, target, share);
      outcome == Done && d'.members[(w, target)] == Viewer && !d'.shares[(w, target)].revoked
      && d'.shares[(w, target)].share.role == "editor"
  {
    var between := UpdateMemberRole(d, w, actor, target, Viewer).0;
    assert forall k :: k in between.shares ==> k in d.shares && between.shares[k].share == d.shares[k].share;
  }
}
