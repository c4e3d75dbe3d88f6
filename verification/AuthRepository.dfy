/** The accounts and challenges as the auth repository writes them, one statement at a time. */
module AuthRepository {
  import opened Wrappers
  import opened EmailClaims

  class PostgresAuthRepository {
    var users: map<Id, User>
    var challenges: map<string, Challenge>
    const locale: Locale

    constructor (locale: Locale)
      requires Stays(locale)
      ensures State() == Empty(locale) && Inv(State())
    {
      users, challenges := map[], map[];
      this.locale := locale;
    }

    function State(): Accounts
      reads this
    {
      Accounts(users, challenges, locale)
    }

    /** `SELECT ... WHERE normalized_email = ...` */
    method FindHolder(address: string) returns (id: Option<Id>)
      requires Unique(State())
      ensures id.Some? <==> Taken(State(), address)
      ensures id.Some? ==> id.value == Holder(State(), address)
    {
      var rest := users.Keys;
      while rest != {}
        invariant rest <= users.Keys
        invariant forall x :: x in users && x !in rest ==> !Holds(State(), x, address)
        decreases rest
      {
        var x :| x in rest;
        if Lower(locale, users[x].email) == address {
          HolderIsUnique(State(), x, address);
          return Some(x);
        }
        rest := rest - {x};
      }
      id := None;
    }

    /** `createUser` */
    method CreateUser(id: Id, email: string, password: string) returns (answer: Answer)
      requires Inv(State())
      modifies this
      ensures State() == EmailClaims.CreateUser(old(State()), id, email, password).0
      ensures answer == EmailClaims.CreateUser(old(State()), id, email, password).1
      ensures Inv(State())
    {
      RegisterKeepsInv(State(), id, email, password);
      var holder := FindHolder(Lower(locale, email));
      if id in users || holder.Some? { return Returned(None); }
      var user := User(email, password, None);
      users := users[id := user];
      answer := Returned(Some((id, user)));
    }

    /** `replaceAccountEmailVerification`: drop the account's challenges, then insert the new one. */
    method ReplaceAccountEmailVerification(token: string, userId: Id, email: string, expires: int) returns (answer: IssueAnswer)
      requires Inv(State())
      modifies this`challenges
      ensures State() == IssueAccount(old(State()), token, userId, email, expires).0
      ensures answer == IssueAccount(old(State()), token, userId, email, expires).1
      ensures Inv(State())
    {
      IssueAccountKeepsInv(State(), token, userId, email, expires);
      if userId !in users || Lower(locale, users[userId].email) != Lower(locale, email) || users[userId].verified.Some? { return Declined; }
      var saved := challenges;
      challenges := map h | h in challenges && !(challenges[h].kind.Account? && challenges[h].accountId == userId) :: challenges[h];
      if token in challenges {
        challenges := saved;
        return IssueThrew;
      }
      challenges := challenges[token := Challenge(Account, userId, Lower(locale, email), expires)];
      answer := Issued;
    }

    /** `replacePendingEmailReclaim` */
    method ReplacePendingEmailReclaim(token: string, email: string, replacementId: Id, password: string, expires: int) returns (answer: IssueAnswer)
      requires Inv(State())
      modifies this`challenges
      ensures State() == IssueReclaim(old(State()), token, email, replacementId, password, expires).0
      ensures answer == IssueReclaim(old(State()), token, email, replacementId, password, expires).1
      ensures Inv(State())
    {
      IssueReclaimKeepsInv(State(), token, email, replacementId, password, expires);
      var claimed := FindHolder(Lower(locale, email));
      if claimed.None? || users[claimed.value].verified.Some? { return Declined; }
      var saved := challenges;
      challenges := Without(challenges, Lower(locale, email), (k: Kind) => k.Reclaim?);
      if token in challenges {
        challenges := saved;
        return IssueThrew;
      }
      challenges := challenges[token := Challenge(Reclaim(password), replacementId, Lower(locale, email), expires)];
      answer := Issued;
    }

    /** Rename the unverified holder of an address; false where its new address is taken. */
    method DisplaceHolder(address: string) returns (ok: bool)
      requires Inv(State()) && (Taken(State(), address) ==> users[Holder(State(), address)].verified.None?)
      modifies this`users
      ensures ok <==> Displace(old(State()), address).Some?
      ensures State() == if ok then Displace(old(State()), address).value else old(State())
    {
      var current := FindHolder(address);
      if current.None? { return true; }
      var taken := FindHolder(ReclaimedAddress(current.value));
      if taken.Some? && taken != current { return false; }
      users := users[current.value := users[current.value].(email := ReclaimedAddress(current.value))];
      ok := true;
    }

    /** `consumeEmailVerification` */
    method ConsumeEmailVerification(token: string, now: int) returns (answer: Answer)
      requires Inv(State())
      modifies this
      ensures State() == Consume(old(State()), token, now).0 && answer == Consume(old(State()), token, now).1
      ensures Inv(State())
    {
      ConsumeKeepsInv(State(), token, now);
      if token !in challenges { return Returned(None); }
      var row := challenges[token];
      if row.expires <= now {
        challenges := challenges - {token};
        return Returned(None);
      }
      if row.kind.Account? {
        answer := VerifyAccount(row, now);
      } else {
        answer := ReclaimAddress(token, row, now);
      }
    }

    method VerifyAccount(row: Challenge, now: int) returns (answer: Answer)
      modifies this
      ensures !CanVerify(old(State()), row) ==> State() == old(State()) && answer == Returned(None)
      ensures CanVerify(old(State()), row) ==>
        var user := old(users)[row.accountId].(verified := Some(now));
        State() == DropAddress(old(State()).(users := old(users)[row.accountId := user]), row.email)
        && answer == Returned(Some((row.accountId, user)))
    {
      if !CanVerify(State(), row) { return Returned(None); }
      var user := users[row.accountId].(verified := Some(now));
      users := users[row.accountId := user];
      challenges := Without(challenges, row.email, (k: Kind) => true);
      answer := Returned(Some((row.accountId, user)));
    }

    method ReclaimAddress(token: string, row: Challenge, now: int) returns (answer: Answer)
      requires Inv(State()) && token in challenges && challenges[token] == row && row.kind.Reclaim? && now < row.expires
      modifies this
      ensures State() == Consume(old(State()), token, now).0 && answer == Consume(old(State()), token, now).1
    {
      var current := FindHolder(row.email);
      if current.Some? && users[current.value].verified.Some? {
        challenges := challenges - {token};
        return Returned(None);
      }
      var saved := users;
      DisplaceKeepsUnique(State(), row.email);
      var displaced := DisplaceHolder(row.email);
      if !displaced { return Threw; }
      var holder := FindHolder(row.email);
      if row.accountId in users || holder.Some? {
        users := saved;
        return Threw;
      }
      var user := User(row.email, row.kind.password, Some(now));
      users := users[row.accountId := user];
      challenges := Without(challenges, row.email, (k: Kind) => true);
      answer := Returned(Some((row.accountId, user)));
    }
  }

  lemma DisplaceKeepsUnique(a: Accounts, address: string)
    requires Inv(a) && (Taken(a, address) ==> a.users[Holder(a, address)].verified.None?)
    ensures Displace(a, address).Some? ==> Unique(Displace(a, address).value)
  {
    if Displace(a, address).Some? { DisplaceKeepsInv(a, address); }
  }
}
