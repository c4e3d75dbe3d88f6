/** The workspace tables as the workspace repository writes them, under the workspace's lock. */
module WorkspaceRepository {
  import opened Wrappers
  import opened SyncTypes
  import opened CanonicalBytes
  import opened IdentityChain
  import opened Membership

  class PostgresWorkspaceRepository {
    var workspaces: set<string>
    var members: map<Place, Role>
    var shares: map<Place, StoredShare>
    const identities: Identities
    const verified: set<string>

    constructor (identities: Identities, verified: set<string>)
      ensures State() == Directory({}, map[], map[], identities, verified)
      ensures IdentityChain.Inv(identities) ==> ServiceInv(State())
    {
      workspaces, members, shares := {}, map[], map[];
      this.identities, this.verified := identities, verified;
    }

    function State(): Directory
      reads this
    {
      Directory(workspaces, members, shares, identities, verified)
    }

    /** `membershipRole` */
    function MembershipRole(w: string, u: string): Option<Role>
      reads this
    {
      if (w, u) in members then Some(members[(w, u)]) else None
    }

    /** `createWorkspace` */
    method CreateWorkspace(w: string, creator: string) returns (outcome: Outcome)
      modifies this
      ensures State() == Membership.CreateWorkspace(old(State()), w, creator).0
      ensures outcome == Membership.CreateWorkspace(old(State()), w, creator).1
    {
      if w in workspaces || (w, creator) in members { return Failed; }
      workspaces := workspaces + {w};
      members := members[(w, creator) := Owner];
      outcome := Done;
    }

    /** Insert a share or replace the member's; false where its operation id is in use elsewhere. */
    method UpsertShare(at: Place, share: Share) returns (ok: bool)
      modifies this`shares
      ensures ok <==> !OperationTaken(old(State()), at, share.operationId)
      ensures shares == if ok then old(shares)[at := StoredShare(share, false)] else old(shares)
    {
      ok := !OperationTaken(State(), at, share.operationId);
      if ok { shares := shares[at := StoredShare(share, false)]; }
    }

    /** `addMember` */
    method AddMember(w: string, actor: string, target: string, role: Role, share: Share) returns (outcome: Outcome)
      modifies this
      ensures State() == Membership.AddMember(old(State()), w, actor, target, role, share).0
      ensures outcome == Membership.AddMember(old(State()), w, actor, target, role, share).1
    {
      if w !in workspaces { return WorkspaceNotFound; }
      if MembershipRole(w, actor) != Some(Owner) { return NotOwner; }
      if (w, target) in members { return AlreadyMember; }
      var saved := members;
      members := members[(w, target) := role];
      var stored := UpsertShare((w, target), share);
      if !stored {
        members := saved;
        return Failed;
      }
      outcome := Done;
    }

    /** `putKeyShare` */
    method PutKeyShare(w: string, actor: string, target: string, share: Share) returns (outcome: Outcome)
      modifies this
      ensures State() == Membership.PutKeyShare(old(State()), w, actor, target, share).0
      ensures outcome == Membership.PutKeyShare(old(State()), w, actor, target, share).1
    {
      if w !in workspaces { return WorkspaceNotFound; }
      if MembershipRole(w, actor) != Some(Owner) { return NotOwner; }
      if MembershipRole(w, target).None? { return MemberNotFound; }
      var stored := UpsertShare((w, target), share);
      outcome := if stored then Done else Failed;
    }

    /** `SELECT count(*) ... role = 'owner'` */
    method CountOwners(w: string) returns (count: nat)
      ensures count == |Owners(State(), w)|
    {
      var found, rest := {}, members.Keys;
      while rest != {}
        invariant rest <= members.Keys
        invariant forall u :: u in found <==> (w, u) in members && (w, u) !in rest && members[(w, u)] == Owner
        decreases rest
      {
        var k :| k in rest;
        if k.0 == w && members[k] == Owner { found := found + {k.1}; }
        rest := rest - {k};
      }
      forall u ensures u in found <==> u in Owners(State(), w) {
        if IsOwner(State(), w, u) { OwnerIsListed(State(), w, u); }
      }
      assert found == Owners(State(), w);
      count := |found|;
    }

    method RevokeShare(at: Place)
      modifies this`shares
      ensures shares == Revoke(old(State()), at)
    {
      if at in shares { shares := shares[at := shares[at].(revoked := true)]; }
    }

    /** `updateMemberRole` */
    method UpdateMemberRole(w: string, actor: string, target: string, role: Role) returns (outcome: Outcome)
      modifies this
      ensures State() == Membership.UpdateMemberRole(old(State()), w, actor, target, role).0
      ensures outcome == Membership.UpdateMemberRole(old(State()), w, actor, target, role).1
    {
      if w !in workspaces { return WorkspaceNotFound; }
      if MembershipRole(w, actor) != Some(Owner) { return NotOwner; }
      var targetRole := MembershipRole(w, target);
      if targetRole.None? { return MemberNotFound; }
      if targetRole == Some(Owner) && role != Owner {
        var owners := CountOwners(w);
        if owners <= 1 { return LastOwner; }
      }
      members := members[(w, target) := role];
      if targetRole != Some(role) { RevokeShare((w, target)); }
      outcome := Done;
    }

    /** `removeMember`: the share is revoked before the membership goes. */
    method RemoveMember(w: string, actor: string, target: string) returns (outcome: Outcome)
      modifies this
      ensures State() == Membership.RemoveMember(old(State()), w, actor, target).0
      ensures outcome == Membership.RemoveMember(old(State()), w, actor, target).1
    {
      if w !in workspaces { return WorkspaceNotFound; }
      if MembershipRole(w, actor) != Some(Owner) { return NotOwner; }
      var targetRole := MembershipRole(w, target);
      if targetRole.None? { return MemberNotFound; }
      if targetRole == Some(Owner) {
        var owners := CountOwners(w);
        if owners <= 1 { return LastOwner; }
      }
      RevokeShare((w, target));
      members := members - {(w, target)};
      outcome := Done;
    }
  }
}
