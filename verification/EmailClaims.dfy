/** Who holds an e-mail address: registration, verification and reclaim of unverified accounts. */
module EmailClaims {
  import opened Wrappers
  import opened Text

  type Id = nat

  datatype User = User(email: string, password: string, verified: Option<int>)

  /** What a challenge is for: verifying an account, or replacing an unverified one. */
  datatype Kind = Account | Reclaim(password: string)

  /** `email` is the normalized address. */
  datatype Challenge = Challenge(kind: Kind, accountId: Id, email: string, expires: int)


  /** What the database folds besides the ASCII letters, character by character. */
  datatype Locale = Locale(folds: map<char, char>)

  /** Challenges by token hash, and how the database folds case. */
  datatype Accounts = Accounts(users: map<Id, User>, challenges: map<string, Challenge>, locale: Locale)

  predicate Ascii(c: char) {
    c as int < 128
  }

  function LowerChar(locale: Locale, c: char): char {
    if 'A' <= c <= 'Z' then (c as int + 32) as char else if c in locale.folds then locale.folds[c] else c
  }

  /** Only characters beyond ASCII are folded otherwise, each to one that stays. */
  ghost predicate Stays(locale: Locale) {
    && (forall c :: c in locale.folds ==> !Ascii(c))
    && (forall c :: LowerChar(locale, LowerChar(locale, c)) == LowerChar(locale, c))
  }

  /** `lower(email)` */
  function Lower(locale: Locale, s: string): (r: string)
    ensures |r| == |s| && forall i :: 0 <= i < |s| ==> r[i] == LowerChar(locale, s[i])
  {
    seq(|s|, i requires 0 <= i < |s| => LowerChar(locale, s[i]))
  }

  /** The capital letters of ASCII are folded to the small ones, and its other characters stay. */
  lemma FoldsAscii(locale: Locale, k: nat, c: char)
    requires Stays(locale) && k < 26 && Ascii(c)
    ensures Lower(locale, "ABCDEFGHIJKLMNOPQRSTUVWXYZ")[k] == "abcdefghijklmnopqrstuvwxyz"[k]
    ensures c !in "ABCDEFGHIJKLMNOPQRSTUVWXYZ" ==> Lower(locale, [c]) == [c]
  {
    var capitals := "ABCDEFGHIJKLMNOPQRSTUVWXYZ";
    assert capitals[k] as int == 65 + k;
    if 'A' <= c <= 'Z' { assert capitals[c as int - 65] == c; }
  }

  lemma LowerTwice(locale: Locale, s: string)
    requires Stays(locale)
    ensures Lower(locale, Lower(locale, s)) == Lower(locale, s)
  {
  }

  /** The address a displaced account gets. */
  function ReclaimedAddress(id: Id): string {
    "reclaimed-" + Decimal(id) + "@invalid.example"
  }

  predicate Holds(a: Accounts, id: Id, address: string) {
    id in a.users && Lower(a.locale, a.users[id].email) == address
  }

  predicate Taken(a: Accounts, address: string) {
    exists id :: id in a.users && Holds(a, id, address)
  }

  /** The account with this normalized address. */
  ghost function Holder(a: Accounts, address: string): (id: Id)
    requires Taken(a, address)
    ensures Holds(a, id, address)
  {
    var id :| id in a.users && Holds(a, id, address);
    id
  }

  datatype Answer = Returned(user: Option<(Id, User)>) | Threw

  /** A token hash that is still in use makes the insertion throw. */
  datatype IssueAnswer = Issued | Declined | IssueThrew

  // ---- Transactions ----

  /** `createUser`: None for any unique violation. */
  function CreateUser(a: Accounts, id: Id, email: string, password: string): (Accounts, Answer) {
    if id in a.users || Taken(a, Lower(a.locale, email)) then (a, Returned(None))
    else
      var user := User(email, password, None);
      (a.(users := a.users[id := user]), Returned(Some((id, user))))
  }

  function Without(challenges: map<string, Challenge>, address: string, kind: Kind -> bool): map<string, Challenge> {
    map h | h in challenges && !(challenges[h].email == address && kind(challenges[h].kind)) :: challenges[h]
  }

  /** `replaceAccountEmailVerification` */
  function IssueAccount(a: Accounts, token: string, userId: Id, email: string, expires: int): (Accounts, IssueAnswer) {
    if !Holds(a, userId, Lower(a.locale, email)) || a.users[userId].verified.Some? then (a, Declined)
    else
      var rest := map h | h in a.challenges && !(a.challenges[h].kind.Account? && a.challenges[h].accountId == userId) :: a.challenges[h];
      if token in rest then (a, IssueThrew)
      else (a.(challenges := rest[token := Challenge(Account, userId, Lower(a.locale, email), expires)]), Issued)
  }

  /** `replacePendingEmailReclaim` */
  ghost function IssueReclaim(a: Accounts, token: string, email: string, replacementId: Id, password: string, expires: int): (Accounts, IssueAnswer) {
    if !Taken(a, Lower(a.locale, email)) || a.users[Holder(a, Lower(a.locale, email))].verified.Some? then (a, Declined)
    else
      var rest := Without(a.challenges, Lower(a.locale, email), (k: Kind) => k.Reclaim?);
      if token in rest then (a, IssueThrew)
      else (a.(challenges := rest[token := Challenge(Reclaim(password), replacementId, Lower(a.locale, email), expires)]), Issued)
  }

  function DropToken(a: Accounts, token: string): Accounts {
    a.(challenges := a.challenges - {token})
  }

  function DropAddress(a: Accounts, address: string): Accounts {
    a.(challenges := Without(a.challenges, address, (k: Kind) => true))
  }

  predicate CanVerify(a: Accounts, c: Challenge) {
    Holds(a, c.accountId, c.email) && a.users[c.accountId].verified.None?
  }

  /** Rename the unverified holder, if there is one; None where the new address is taken. */
  ghost function Displace(a: Accounts, address: string): Option<Accounts> {
    if !Taken(a, address) then Some(a)
    else
      var id := Holder(a, address);
      if Taken(a, ReclaimedAddress(id)) && Holder(a, ReclaimedAddress(id)) != id then None
      else Some(a.(users := a.users[id := a.users[id].(email := ReclaimedAddress(id))]))
  }

  /** `consumeEmailVerification` */
  ghost function Consume(a: Accounts, token: string, now: int): (Accounts, Answer) {
    if token !in a.challenges then (a, Returned(None))
    else
      var c := a.challenges[token];
      if c.expires <= now then (DropToken(a, token), Returned(None))
      else
        match c.kind
        case Account =>
          if !CanVerify(a, c) then (a, Returned(None))
          else
            var user := a.users[c.accountId].(verified := Some(now));
            (DropAddress(a.(users := a.users[c.accountId := user]), c.email), Returned(Some((c.accountId, user))))
        case Reclaim(password) =>
          if Taken(a, c.email) && a.users[Holder(a, c.email)].verified.Some? then (DropToken(a, token), Returned(None))
          else
            match Displace(a, c.email)
            case None => (a, Threw)
            case Some(b) =>
              if c.accountId in b.users || Taken(b, c.email) then (a, Threw)
              else
                var user := User(c.email, password, Some(now));
                (DropAddress(b.(users := b.users[c.accountId := user]), c.email), Returned(Some((c.accountId, user))))
  }

  datatype Step =
    | Register(id: Id, email: string, password: string)
    | RequestVerification(token: string, userId: Id, email: string, expires: int)
    | RequestReclaim(token: string, email: string, replacementId: Id, password: string, expires: int)
    | Confirm(token: string, now: int)

  ghost function Next(a: Accounts, step: Step): Accounts {
    match step
    case Register(id, email, password) => CreateUser(a, id, email, password).0
    case RequestVerification(token, userId, email, expires) => IssueAccount(a, token, userId, email, expires).0
    case RequestReclaim(token, email, id, password, expires) => IssueReclaim(a, token, email, id, password, expires).0
    case Confirm(token, now) => Consume(a, token, now).0
  }

  ghost function Run(a: Accounts, steps: seq<Step>): Accounts
    decreases |steps|
  {
    if steps == [] then a else Run(Next(a, steps[0]), steps[1..])
  }

  function Empty(locale: Locale): Accounts {
    Accounts(map[], map[], locale)
  }

  // ---- Invariants ----

  predicate Apart(a: Accounts, x: Id, y: Id) {
    x in a.users && y in a.users && x != y ==> Lower(a.locale, a.users[x].email) != Lower(a.locale, a.users[y].email)
  }

  /** At most one account holds an address. */
  ghost predicate Unique(a: Accounts) {
    forall x, y :: Apart(a, x, y)
  }

  predicate VerifiedHolder(a: Accounts, id: Id, address: string) {
    Holds(a, id, address) && a.users[id].verified.Some?
  }

  /** Challenges are for normalized addresses that nobody has verified. */
  ghost predicate OpenOnly(a: Accounts) {
    forall h :: h in a.challenges ==>
      Lower(a.locale, a.challenges[h].email) == a.challenges[h].email && forall id :: !VerifiedHolder(a, id, a.challenges[h].email)
  }

  ghost predicate Inv(a: Accounts) {
    Unique(a) && OpenOnly(a) && Stays(a.locale)
  }

  /** A verified account never changes again; an unverified one stays, at its address or displaced from it. */
  ghost predicate Stable(a: Accounts, b: Accounts) {
    b.locale == a.locale && forall id :: id in a.users ==>
      && id in b.users
      && (a.users[id].verified.Some? ==> b.users[id] == a.users[id])
      && b.users[id].password == a.users[id].password
      && (b.users[id].email == a.users[id].email || b.users[id].email == ReclaimedAddress(id))
  }

  lemma {:induction false} DecimalIsLower(locale: Locale, n: nat)
    requires Stays(locale)
    ensures Lower(locale, Decimal(n)) == Decimal(n)
  {
    DecimalRoundTrip(n);
  }

  lemma ReclaimedIsLower(locale: Locale, id: Id)
    requires Stays(locale)
    ensures Lower(locale, ReclaimedAddress(id)) == ReclaimedAddress(id)
  {
    DecimalIsLower(locale, id);
    var r := ReclaimedAddress(id);
    assert forall i :: 0 <= i < |Decimal(id)| ==> LowerChar(locale, Decimal(id)[i]) == Decimal(id)[i];
    assert forall i :: 0 <= i < 10 ==> LowerChar(locale, "reclaimed-"[i]) == "reclaimed-"[i];
    assert forall i :: 0 <= i < 16 ==> LowerChar(locale, "@invalid.example"[i]) == "@invalid.example"[i];
    forall i | 0 <= i < |r| ensures LowerChar(locale, r[i]) == r[i] {
    }
  }

  lemma HolderIsUnique(a: Accounts, id: Id, address: string)
    requires Unique(a) && Holds(a, id, address)
    ensures Taken(a, address) && Holder(a, address) == id
  {
    assert Apart(a, id, Holder(a, address));
  }

  lemma RegisterKeepsInv(a: Accounts, id: Id, email: string, password: string)
    requires Inv(a)
    ensures Inv(CreateUser(a, id, email, password).0) && Stable(a, CreateUser(a, id, email, password).0)
  {
    var b := CreateUser(a, id, email, password).0;
    if b != a {
      forall x, y ensures Apart(b, x, y) {
        assert Apart(a, x, y);
        assert x in a.users ==> !Holds(a, x, Lower(a.locale, email));
        assert y in a.users ==> !Holds(a, y, Lower(a.locale, email));
      }
      forall h, i | h in b.challenges ensures !VerifiedHolder(b, i, b.challenges[h].email) {
        assert !VerifiedHolder(a, i, a.challenges[h].email);
      }
    }
  }

  lemma IssueKeepsInv(a: Accounts, b: Accounts, token: string, c: Challenge)
    requires Inv(a) && b.users == a.users && b.locale == a.locale && token in b.challenges && b.challenges[token] == c
    requires forall h :: h in b.challenges && h != token ==> h in a.challenges && b.challenges[h] == a.challenges[h]
    requires Lower(a.locale, c.email) == c.email && forall id :: !VerifiedHolder(a, id, c.email)
    ensures Inv(b) && Stable(a, b)
  {
    forall x, y ensures Apart(b, x, y) { assert Apart(a, x, y); }
    forall h, i | h in b.challenges ensures !VerifiedHolder(b, i, b.challenges[h].email) {
      assert h != token ==> !VerifiedHolder(a, i, a.challenges[h].email);
      assert !VerifiedHolder(a, i, c.email);
    }
  }

  lemma IssueAccountKeepsInv(a: Accounts, token: string, userId: Id, email: string, expires: int)
    requires Inv(a)
    ensures Inv(IssueAccount(a, token, userId, email, expires).0) && Stable(a, IssueAccount(a, token, userId, email, expires).0)
  {
    var b := IssueAccount(a, token, userId, email, expires).0;
    if b != a {
      LowerTwice(a.locale, email);
      forall id ensures !VerifiedHolder(a, id, Lower(a.locale, email)) { assert Apart(a, id, userId); }
      IssueKeepsInv(a, b, token, Challenge(Account, userId, Lower(a.locale, email), expires));
    }
  }

  lemma IssueReclaimKeepsInv(a: Accounts, token: string, email: string, id: Id, password: string, expires: int)
    requires Inv(a)
    ensures var b := IssueReclaim(a, token, email, id, password, expires).0; Inv(b) && Stable(a, b)
  {
    var b := IssueReclaim(a, token, email, id, password, expires).0;
    if b != a {
      LowerTwice(a.locale, email);
      forall x ensures !VerifiedHolder(a, x, Lower(a.locale, email)) { assert Apart(a, x, Holder(a, Lower(a.locale, email))); }
      IssueKeepsInv(a, b, token, Challenge(Reclaim(password), id, Lower(a.locale, email), expires));
    }
  }

  lemma DropsKeepInv(a: Accounts, b: Accounts)
    requires Inv(a) && b.users == a.users && b.locale == a.locale
    requires forall h :: h in b.challenges ==> h in a.challenges && b.challenges[h] == a.challenges[h]
    ensures Inv(b) && Stable(a, b)
  {
    forall x, y ensures Apart(b, x, y) { assert Apart(a, x, y); }
    forall h, i | h in b.challenges ensures !VerifiedHolder(b, i, b.challenges[h].email) {
      assert !VerifiedHolder(a, i, a.challenges[h].email);
    }
  }

  lemma VerifyKeepsInv(a: Accounts, token: string, now: int)
    requires Inv(a) && token in a.challenges && a.challenges[token].kind.Account?
    requires CanVerify(a, a.challenges[token])
    ensures var c := a.challenges[token];
      var b := DropAddress(a.(users := a.users[c.accountId := a.users[c.accountId].(verified := Some(now))]), c.email);
      Inv(b) && Stable(a, b)
  {
    var c := a.challenges[token];
    var b := DropAddress(a.(users := a.users[c.accountId := a.users[c.accountId].(verified := Some(now))]), c.email);
    forall x, y ensures Apart(b, x, y) { assert Apart(a, x, y); }
    forall h, i | h in b.challenges ensures !VerifiedHolder(b, i, b.challenges[h].email) {
      assert !VerifiedHolder(a, i, a.challenges[h].email);
    }
  }

  lemma DisplaceKeepsInv(a: Accounts, address: string)
    requires Inv(a) && Displace(a, address).Some? && (Taken(a, address) ==> a.users[Holder(a, address)].verified.None?)
    ensures Inv(Displace(a, address).value) && Stable(a, Displace(a, address).value)
    ensures Displace(a, address).value.challenges == a.challenges
  {
    var b := Displace(a, address).value;
    if Taken(a, address) {
      var id := Holder(a, address);
      ReclaimedIsLower(a.locale, id);
      forall x, y ensures Apart(b, x, y) {
        assert Apart(a, x, y);
        if Taken(a, ReclaimedAddress(id)) {
          assert Apart(a, x, id) && Apart(a, y, id);
        } else {
          assert x in a.users ==> !Holds(a, x, ReclaimedAddress(id));
          assert y in a.users ==> !Holds(a, y, ReclaimedAddress(id));
        }
      }
      forall h, i | h in b.challenges ensures !VerifiedHolder(b, i, b.challenges[h].email) {
        assert !VerifiedHolder(a, i, a.challenges[h].email);
      }
    }
  }

  lemma InsertKeepsInv(a: Accounts, id: Id, user: User)
    requires Inv(a) && id !in a.users && !Taken(a, Lower(a.locale, user.email)) && Lower(a.locale, user.email) == user.email
    ensures var b := DropAddress(a.(users := a.users[id := user]), user.email); Inv(b) && Stable(a, b)
  {
    var b := DropAddress(a.(users := a.users[id := user]), user.email);
    forall x, y ensures Apart(b, x, y) {
      assert Apart(a, x, y);
      assert x in a.users ==> !Holds(a, x, user.email);
      assert y in a.users ==> !Holds(a, y, user.email);
    }
    forall h, i | h in b.challenges ensures !VerifiedHolder(b, i, b.challenges[h].email) {
      assert !VerifiedHolder(a, i, a.challenges[h].email);
    }
  }

  ghost predicate Succeeds(a: Accounts, token: string, now: int) {
    Consume(a, token, now).1.Returned? && Consume(a, token, now).1.user.Some?
  }

  lemma StableTransitive(a: Accounts, b: Accounts, c: Accounts)
    requires Stable(a, b) && Stable(b, c)
    ensures Stable(a, c)
  {
  }

  lemma ReclaimKeepsInv(a: Accounts, token: string, now: int)
    requires Inv(a) && token in a.challenges && a.challenges[token].kind.Reclaim? && Succeeds(a, token, now)
    ensures Inv(Consume(a, token, now).0) && Stable(a, Consume(a, token, now).0)
  {
    var c := a.challenges[token];
    var b := Displace(a, c.email).value;
    DisplaceKeepsInv(a, c.email);
    InsertKeepsInv(b, c.accountId, User(c.email, c.kind.password, Some(now)));
    StableTransitive(a, b, Consume(a, token, now).0);
  }

  lemma ConsumeKeepsInv(a: Accounts, token: string, now: int)
    requires Inv(a)
    ensures Inv(Consume(a, token, now).0) && Stable(a, Consume(a, token, now).0)
  {
    if Succeeds(a, token, now) {
      if a.challenges[token].kind.Account? { VerifyKeepsInv(a, token, now); } else { ReclaimKeepsInv(a, token, now); }
    } else {
      DropsKeepInv(a, Consume(a, token, now).0);
    }
  }

  lemma NextKeepsInv(a: Accounts, step: Step)
    requires Inv(a)
    ensures Inv(Next(a, step)) && Stable(a, Next(a, step))
  {
    match step
    case Register(id, email, password) => RegisterKeepsInv(a, id, email, password);
    case RequestVerification(token, userId, email, expires) => IssueAccountKeepsInv(a, token, userId, email, expires);
    case RequestReclaim(token, email, id, password, expires) => IssueReclaimKeepsInv(a, token, email, id, password, expires);
    case Confirm(token, now) => ConsumeKeepsInv(a, token, now);
  }

  lemma {:induction false} RunKeepsInv(a: Accounts, steps: seq<Step>)
    requires Inv(a)
    ensures Inv(Run(a, steps)) && Stable(a, Run(a, steps))
    decreases |steps|
  {
    if steps != [] {
      NextKeepsInv(a, steps[0]);
      RunKeepsInv(Next(a, steps[0]), steps[1..]);
      StableTransitive(a, Next(a, steps[0]), Run(a, steps));
    }
  }

  // ---- Theorems ----

  /** After any run at most one account holds an address. */
  lemma AddressesAreUnique(locale: Locale, steps: seq<Step>, x: Id, y: Id)
    requires Stays(locale) && x in Run(Empty(locale), steps).users && y in Run(Empty(locale), steps).users
    requires Lower(locale, Run(Empty(locale), steps).users[x].email) == Lower(locale, Run(Empty(locale), steps).users[y].email)
    ensures x == y
  {
    RunKeepsInv(Empty(locale), steps);
    assert Apart(Run(Empty(locale), steps), x, y);
  }

  /** A verified account keeps its id, address, password and verification time through any further run. */
  lemma VerifiedAccountsStay(a: Accounts, steps: seq<Step>, id: Id)
    requires Inv(a) && id in a.users && a.users[id].verified.Some?
    ensures id in Run(a, steps).users && Run(a, steps).users[id] == a.users[id]
  {
    RunKeepsInv(a, steps);
  }

  /** What a successful confirmation did: to verify, the account's verification time is set and nothing else of it; to
      reclaim, there is a new account with the challenge's address and the password the challenge carries. No challenge
      for the address is left, all others are. Any earlier holder was unverified and is either this account or still
      there under its reclaimed address, and nobody else changed. */
  lemma ConfirmationVerifies(a: Accounts, token: string, now: int)
    requires Inv(a) && Succeeds(a, token, now)
    ensures token in a.challenges && now < a.challenges[token].expires
    ensures var c := a.challenges[token];
      var (b, answer) := Consume(a, token, now);
      && c.accountId in b.users && answer.user.value == (c.accountId, b.users[c.accountId])
      && Holds(b, c.accountId, c.email) && b.users[c.accountId].verified == Some(now)
      && (match c.kind
          case Account => c.accountId in a.users && b.users[c.accountId] == a.users[c.accountId].(verified := Some(now))
          case Reclaim(password) => c.accountId !in a.users && b.users[c.accountId] == User(c.email, password, Some(now)))
      && b.locale == a.locale
      && (forall h :: h in b.challenges ==> b.challenges[h].email != c.email)
      && (forall h :: h in a.challenges && a.challenges[h].email != c.email ==> h in b.challenges && b.challenges[h] == a.challenges[h])
      && (forall id :: id in a.users && Holds(a, id, c.email) ==>
            && a.users[id].verified.None?
            && (id == c.accountId
                || (id in b.users && b.users[id] == a.users[id].(email := "reclaimed-" + Decimal(id) + "@invalid.example"))))
      && (forall id :: id in a.users && !Holds(a, id, c.email) ==> id in b.users && b.users[id] == a.users[id])
      && (forall id :: id in b.users ==> id in a.users || id == c.accountId)
  {
    var c := a.challenges[token];
    forall id | id in a.users && Holds(a, id, c.email)
      ensures a.users[id].verified.None? && id == Holder(a, c.email)
    {
      assert !VerifiedHolder(a, id, c.email);
      HolderIsUnique(a, id, c.email);
    }
    if c.kind.Account? { HolderIsUnique(a, c.accountId, c.email); }
  }

  /** A confirmation that fails drops the token where it is expired or somebody else has verified the address; otherwise
      it changes nothing. */
  lemma FailureLeaves(a: Accounts, token: string, now: int)
    requires Inv(a) && !Succeeds(a, token, now)
    ensures Consume(a, token, now).0 == a.(challenges :=
      if token in a.challenges
         && (a.challenges[token].expires <= now
             || (a.challenges[token].kind.Reclaim? && exists id :: VerifiedHolder(a, id, a.challenges[token].email)))
      then a.challenges - {token} else a.challenges)
  {
    if token in a.challenges && a.challenges[token].kind.Reclaim? && Taken(a, a.challenges[token].email) {
      assert VerifiedHolder(a, Holder(a, a.challenges[token].email), a.challenges[token].email)
        <==> a.users[Holder(a, a.challenges[token].email)].verified.Some?;
    }
  }

  // ---- What the other calls store ----

  /** Nobody has the address, however it is spelt. */
  ghost predicate Free(a: Accounts, email: string) {
    forall id :: id in a.users ==> Lower(a.locale, a.users[id].email) != Lower(a.locale, email)
  }

  /** Registering stores the account as given, unverified, exactly if its id and its address are free. */
  lemma RegisterStores(a: Accounts, id: Id, email: string, password: string)
    ensures CreateUser(a, id, email, password) ==
      if id !in a.users && Free(a, email)
      then (a.(users := a.users[id := User(email, password, None)]), Returned(Some((id, User(email, password, None)))))
      else (a, Returned(None))
  {
  }

  /** Requesting verification leaves one challenge of the account, under the token, for its own normalized address. */
  lemma VerificationRequestStores(a: Accounts, token: string, userId: Id, email: string, expires: int)
    ensures var (b, answer) := IssueAccount(a, token, userId, email, expires);
      && (answer == Declined <==>
            userId !in a.users || Lower(a.locale, a.users[userId].email) != Lower(a.locale, email) || a.users[userId].verified.Some?)
      && (answer == IssueThrew <==>
            answer != Declined && token in a.challenges && !(a.challenges[token].kind.Account? && a.challenges[token].accountId == userId))
      && (answer != Issued ==> b == a)
      && (answer == Issued ==>
            && b.users == a.users && b.locale == a.locale
            && token in b.challenges && b.challenges[token] == Challenge(Account, userId, Lower(a.locale, email), expires)
            && (forall h :: h != token ==>
                  (h in b.challenges <==> h in a.challenges && !(a.challenges[h].kind.Account? && a.challenges[h].accountId == userId)))
            && (forall h :: h != token && h in b.challenges ==> h in a.challenges && b.challenges[h] == a.challenges[h]))
  {
  }

  /** Requesting a reclaim leaves one reclaim of the address, under the token, with the password asked for. */
  lemma ReclaimRequestStores(a: Accounts, token: string, email: string, id: Id, password: string, expires: int)
    requires Inv(a)
    ensures var (b, answer) := IssueReclaim(a, token, email, id, password, expires);
      && (answer == Declined <==>
            !exists x :: x in a.users && Lower(a.locale, a.users[x].email) == Lower(a.locale, email) && a.users[x].verified.None?)
      && (answer == IssueThrew <==>
            answer != Declined && token in a.challenges
            && !(a.challenges[token].kind.Reclaim? && a.challenges[token].email == Lower(a.locale, email)))
      && (answer != Issued ==> b == a)
      && (answer == Issued ==>
            && b.users == a.users && b.locale == a.locale
            && token in b.challenges && b.challenges[token] == Challenge(Reclaim(password), id, Lower(a.locale, email), expires)
            && (forall h :: h != token ==>
                  (h in b.challenges <==> h in a.challenges && !(a.challenges[h].kind.Reclaim? && a.challenges[h].email == Lower(a.locale, email))))
            && (forall h :: h != token && h in b.challenges ==> h in a.challenges && b.challenges[h] == a.challenges[h]))
  {
    forall x | x in a.users && Holds(a, x, Lower(a.locale, email)) ensures Holder(a, Lower(a.locale, email)) == x {
      HolderIsUnique(a, x, Lower(a.locale, email));
    }
  }

  /** While it is there, a challenge is the one that was issued. */
  lemma {:induction false} ChallengeStays(a: Accounts, steps: seq<Step>, token: string)
    requires token in a.challenges && forall k :: 0 <= k < |steps| ==> !Issues(steps[k], token)
    ensures token in Run(a, steps).challenges ==> Run(a, steps).challenges[token] == a.challenges[token]
    decreases |steps|
  {
    if steps != [] {
      assert !Issues(steps[0], token);
      var b := Next(a, steps[0]);
      StepKeepsChallenge(a, steps[0], token);
      if token in b.challenges {
        ChallengeStays(b, steps[1..], token);
      } else {
        TokenStaysSpent(b, steps[1..], token);
      }
    }
  }

  lemma StepKeepsChallenge(a: Accounts, step: Step, token: string)
    requires token in a.challenges && !Issues(step, token)
    ensures token in Next(a, step).challenges ==> Next(a, step).challenges[token] == a.challenges[token]
  {
    if step.Confirm? { ConsumeOnlyDrops(a, step.token, step.now); }
  }

  /** From request to confirmation: whatever happens in between, and whoever holds the address by then, confirming a
      reclaim gives a new account with the requested address and the requested password, and nobody else's. */
  lemma ReclaimGivesRequestedPassword(a: Accounts, token: string, email: string, id: Id, password: string, expires: int,
                                      steps: seq<Step>, now: int)
    requires Inv(a) && IssueReclaim(a, token, email, id, password, expires).1 == Issued
    requires forall k :: 0 <= k < |steps| ==> !Issues(steps[k], token)
    requires Succeeds(Run(IssueReclaim(a, token, email, id, password, expires).0, steps), token, now)
    ensures var b := Run(IssueReclaim(a, token, email, id, password, expires).0, steps);
      && now < expires && id !in b.users
      && id in Consume(b, token, now).0.users
      && Consume(b, token, now).0.users[id] == User(Lower(a.locale, email), password, Some(now))
      && Consume(b, token, now).1 == Returned(Some((id, User(Lower(a.locale, email), password, Some(now)))))
  {
    var a1 := IssueReclaim(a, token, email, id, password, expires).0;
    IssueReclaimKeepsInv(a, token, email, id, password, expires);
    ReclaimRequestStores(a, token, email, id, password, expires);
    RunKeepsInv(a1, steps);
    ChallengeStays(a1, steps, token);
    ConfirmationVerifies(Run(a1, steps), token, now);
  }

  /** And confirming an account keeps everything it was registered with, at the address it was asked for. */
  lemma VerificationKeepsPassword(a: Accounts, token: string, id: Id, email: string, expires: int, steps: seq<Step>, now: int)
    requires Inv(a) && IssueAccount(a, token, id, email, expires).1 == Issued
    requires forall k :: 0 <= k < |steps| ==> !Issues(steps[k], token)
    requires Succeeds(Run(IssueAccount(a, token, id, email, expires).0, steps), token, now)
    ensures var b := Run(IssueAccount(a, token, id, email, expires).0, steps);
      && now < expires && id in a.users && id in Consume(b, token, now).0.users
      && Consume(b, token, now).0.users[id].password == a.users[id].password
      && Consume(b, token, now).0.users[id].verified == Some(now)
      && Lower(a.locale, Consume(b, token, now).0.users[id].email) == Lower(a.locale, email)
      && Consume(b, token, now).1 == Returned(Some((id, Consume(b, token, now).0.users[id])))
  {
    var a1 := IssueAccount(a, token, id, email, expires).0;
    IssueAccountKeepsInv(a, token, id, email, expires);
    VerificationRequestStores(a, token, id, email, expires);
    RunKeepsInv(a1, steps);
    ChallengeStays(a1, steps, token);
    ConfirmationVerifies(Run(a1, steps), token, now);
  }

  /** An address is settled once: after it is verified, no token ever succeeds for it again. */
  lemma AddressSettlesOnce(a: Accounts, steps: seq<Step>, id: Id, address: string, token: string, now: int)
    requires Inv(a) && VerifiedHolder(a, id, address)
    requires Succeeds(Run(a, steps), token, now)
    ensures Lower(a.locale, Consume(Run(a, steps), token, now).1.user.value.1.email) != address
  {
    RunKeepsInv(a, steps);
    var b := Run(a, steps);
    ConfirmationVerifies(b, token, now);
    assert !VerifiedHolder(b, id, b.challenges[token].email);
  }

  predicate Issues(step: Step, token: string) {
    (step.RequestVerification? || step.RequestReclaim?) && step.token == token
  }

  lemma {:induction false} TokenStaysSpent(a: Accounts, steps: seq<Step>, token: string)
    requires token !in a.challenges && forall k :: 0 <= k < |steps| ==> !Issues(steps[k], token)
    ensures token !in Run(a, steps).challenges
    decreases |steps|
  {
    if steps != [] {
      assert !Issues(steps[0], token);
      assert token !in Next(a, steps[0]).challenges;
      TokenStaysSpent(Next(a, steps[0]), steps[1..], token);
    }
  }

  lemma SuccessSpendsToken(a: Accounts, token: string, now: int)
    requires Inv(a) && Succeeds(a, token, now)
    ensures token !in Consume(a, token, now).0.challenges
  {
    ConfirmationVerifies(a, token, now);
  }

  lemma AbsentTokenFails(a: Accounts, token: string, now: int)
    requires token !in a.challenges
    ensures !Succeeds(a, token, now)
  {
  }

  /** A token succeeds at most once, whatever happens afterwards, unless it is issued again. */
  lemma TokenSucceedsOnce(a: Accounts, token: string, now: int, steps: seq<Step>, later: int)
    requires Inv(a) && Succeeds(a, token, now) && forall k :: 0 <= k < |steps| ==> !Issues(steps[k], token)
    ensures !Succeeds(Run(Consume(a, token, now).0, steps), token, later)
  {
    SuccessSpendsToken(a, token, now);
    TokenStaysSpent(Consume(a, token, now).0, steps, token);
    AbsentTokenFails(Run(Consume(a, token, now).0, steps), token, later);
  }

  // ---- At most one challenge of a kind ----

  predicate Rivals(c: Challenge, c': Challenge) {
    || (c.kind.Account? && c'.kind.Account? && c.accountId == c'.accountId)
    || (c.kind.Reclaim? && c'.kind.Reclaim? && c.email == c'.email)
  }

  ghost predicate Single(a: Accounts) {
    forall h, h' :: h in a.challenges && h' in a.challenges && h != h' ==> !Rivals(a.challenges[h], a.challenges[h'])
  }

  /** After any run an account has at most one challenge to verify it and an address at most one to reclaim it: a new
      one replaces the old. */
  lemma {:induction false} ChallengesAreSingle(a: Accounts, steps: seq<Step>)
    requires Single(a)
    ensures Single(Run(a, steps))
    decreases |steps|
  {
    if steps != [] {
      NextKeepsSingle(a, steps[0]);
      ChallengesAreSingle(Next(a, steps[0]), steps[1..]);
    }
  }

  lemma DropsKeepSingle(a: Accounts, b: Accounts)
    requires Single(a) && forall h :: h in b.challenges ==> h in a.challenges && b.challenges[h] == a.challenges[h]
    ensures Single(b)
  {
  }

  lemma NextKeepsSingle(a: Accounts, step: Step)
    requires Single(a)
    ensures Single(Next(a, step))
  {
    match step
    case Register(id, email, password) => DropsKeepSingle(a, Next(a, step));
    case RequestVerification(token, userId, email, expires) =>
    case RequestReclaim(token, email, id, password, expires) =>
    case Confirm(token, now) =>
      ConsumeOnlyDrops(a, token, now);
      DropsKeepSingle(a, Next(a, step));
  }

  lemma ConsumeOnlyDrops(a: Accounts, token: string, now: int)
    ensures var b := Consume(a, token, now).0;
      forall h :: h in b.challenges ==> h in a.challenges && b.challenges[h] == a.challenges[h]
  {
  }

  // ---- When confirmation succeeds ----

  /** A confirmation succeeds if and only if its token is known and unexpired, and: to verify, its account still holds
      the address unverified; to reclaim, the address is not verified, the new account's id is free and the displaced
      holder's new address is free. */
  lemma SucceedsExactly(a: Accounts, token: string, now: int)
    requires Inv(a)
    ensures Succeeds(a, token, now) <==>
      && token in a.challenges && now < a.challenges[token].expires
      && var c := a.challenges[token];
      if c.kind.Account? then CanVerify(a, c)
      else
        && c.accountId !in a.users && Displace(a, c.email).Some?
        && (forall id :: id in a.users && Holds(a, id, c.email) ==> ReclaimedAddress(id) != c.email)
  {
    if token in a.challenges && a.challenges[token].kind.Reclaim? {
      var c := a.challenges[token];
      if Taken(a, c.email) {
        var id := Holder(a, c.email);
        assert !VerifiedHolder(a, id, c.email);
        ReclaimedIsLower(a.locale, id);
        forall x | x in a.users && Holds(a, x, c.email) ensures x == id { assert Apart(a, x, id); }
        if Displace(a, c.email).Some? {
          var b := Displace(a, c.email).value;
          forall x | x in b.users && Holds(b, x, c.email) ensures x == id && ReclaimedAddress(id) == c.email {
            assert x != id ==> Holds(a, x, c.email);
          }
          if ReclaimedAddress(id) == c.email { assert Holds(b, id, c.email); }
        }
      }
    }
  }
}
