/** The server's identity bundles: each user's are a hash-linked chain. SHA-256 is ideal: a digest stands for the
    bundle it was made of, whose bytes determine it (`CanonicalBytes.BundleTextInjective`). */
module IdentityChain {
  import opened Wrappers
  import opened CanonicalBytes

  datatype Signed = Signed(
    userId: string, bundleSequence: nat, previousBundleHash: Option<Digest>, createdAt: string, signingKey: PublicKey,
    encryptionKey: PublicKey)

  datatype Digest = Digest(of: Signed)

  datatype Row = Row(signed: Signed, hash: Digest)

  /** The rows of each user in insertion order, and the key of each user and key version. */
  datatype Identities = Identities(bundles: map<string, seq<Row>>, keys: map<(string, nat), (string, string)>)

  datatype Answer = Created(row: Row) | Kept(row: Row) | VersionConflict | OutOfSequence | InvalidBundle | Threw

  function Rows(t: Identities, user: string): seq<Row> {
    if user in t.bundles then t.bundles[user] else []
  }

  /** The row with the highest sequence. */
  function Current(rows: seq<Row>): Option<Row> {
    if rows == [] then None
    else
      var last, best := rows[|rows| - 1], Current(rows[..|rows| - 1]);
      if best.Some? && best.value.signed.bundleSequence > last.signed.bundleSequence then best else Some(last)
  }

  predicate Continues(current: Option<Row>, b: Signed) {
    && b.bundleSequence == (if current.Some? then current.value.signed.bundleSequence else 0) + 1
    && b.previousBundleHash == (if current.Some? then Some(current.value.hash) else None)
    && (current.Some? ==>
          var k, c := b.encryptionKey, current.value.signed.encryptionKey;
          && (k.keyVersion == c.keyVersion ==> k.fingerprint == c.fingerprint)
          && (k.keyVersion == c.keyVersion || k.keyVersion == c.keyVersion + 1))
  }

  function KeyOf(b: Signed): (string, string) {
    (b.encryptionKey.publicKey, b.encryptionKey.algorithm)
  }

  predicate HasHash(rows: seq<Row>, hash: Digest) {
    exists k :: 0 <= k < |rows| && rows[k].hash == hash
  }

  /** `register` of the repository; the insertion throws for a key version of zero or a repeated hash. */
  function Insert(t: Identities, row: Row): (Identities, Answer) {
    var b, user := row.signed, row.signed.userId;
    var current := Current(Rows(t, user));
    if current.Some? && b.bundleSequence == current.value.signed.bundleSequence then
      (t, if row.hash == current.value.hash then Kept(current.value) else VersionConflict)
    else if !Continues(current, b) then (t, OutOfSequence)
    else if b.encryptionKey.keyVersion == 0 then (t, Threw)
    else
      var at := (user, b.encryptionKey.keyVersion);
      var keys := if at in t.keys then t.keys else t.keys[at := KeyOf(b)];
      if keys[at] != KeyOf(b) then (t.(keys := keys), VersionConflict)
      else if HasHash(Rows(t, user), row.hash) then (t, Threw)
      else (Identities(t.bundles[user := Rows(t, user) + [row]], keys), Created(row))
  }

  /** `register` of the service, which checks the bundle's hash first. */
  function Register(t: Identities, row: Row): (Identities, Answer) {
    if row.hash != Digest(row.signed) then (t, InvalidBundle) else Insert(t, row)
  }

  function Run(t: Identities, rows: seq<Row>): Identities
    decreases |rows|
  {
    if rows == [] then t else Run(Register(t, rows[0]).0, rows[1..])
  }

  // ---- The chain ----

  /** Bundle k of a chain has sequence k + 1 and names its predecessor's hash; its key version is its predecessor's,
      with the same key, or the next. */
  ghost predicate Link(rows: seq<Row>, user: string, k: nat)
    requires k < |rows|
  {
    var b := rows[k].signed;
    && b.userId == user && rows[k].hash == Digest(b) && b.bundleSequence == k + 1
    && (k == 0 ==> b.previousBundleHash.None?)
    && (k > 0 ==>
          var p := rows[k - 1];
          && b.previousBundleHash == Some(p.hash)
          && p.signed.encryptionKey.keyVersion <= b.encryptionKey.keyVersion <= p.signed.encryptionKey.keyVersion + 1
          && (b.encryptionKey.keyVersion == p.signed.encryptionKey.keyVersion ==>
                b.encryptionKey.fingerprint == p.signed.encryptionKey.fingerprint))
  }

  ghost predicate Chain(rows: seq<Row>, user: string) {
    forall k :: 0 <= k < |rows| ==> Link(rows, user, k)
  }

  /** Every bundle's key is the one on record for its version. */
  ghost predicate KeysAgree(t: Identities) {
    forall u, k :: u in t.bundles && 0 <= k < |t.bundles[u]| ==>
      var b := t.bundles[u][k].signed;
      (u, b.encryptionKey.keyVersion) in t.keys && t.keys[(u, b.encryptionKey.keyVersion)] == KeyOf(b)
  }

  ghost predicate Inv(t: Identities) {
    (forall u :: u in t.bundles ==> Chain(t.bundles[u], u)) && KeysAgree(t)
  }

  /** Chains only grow at the end, and recorded keys never change. */
  ghost predicate Extends(t: Identities, t': Identities) {
    && (forall u :: u in t.bundles ==> u in t'.bundles && t.bundles[u] <= t'.bundles[u])
    && (forall k :: k in t.keys ==> k in t'.keys && t'.keys[k] == t.keys[k])
  }

  lemma {:induction false} CurrentIsLast(rows: seq<Row>, user: string)
    requires Chain(rows, user)
    ensures Current(rows) == if rows == [] then None else Some(rows[|rows| - 1])
  {
    if rows != [] {
      var earlier := rows[..|rows| - 1];
      forall k | 0 <= k < |earlier| ensures Link(earlier, user, k) { assert Link(rows, user, k); }
      CurrentIsLast(earlier, user);
      assert Link(rows, user, |rows| - 1);
      if |rows| > 1 { assert Link(rows, user, |rows| - 2); }
    }
  }

  lemma AppendKeepsChain(rows: seq<Row>, row: Row, user: string)
    requires Chain(rows, user) && Continues(Current(rows), row.signed)
    requires row.signed.userId == user && row.hash == Digest(row.signed)
    ensures Chain(rows + [row], user)
  {
    CurrentIsLast(rows, user);
    var longer := rows + [row];
    if rows != [] { assert Link(rows, user, |rows| - 1); }
    forall k | 0 <= k < |longer| ensures Link(longer, user, k) {
      if k < |rows| { assert Link(rows, user, k); }
    }
  }

  lemma RegisterKeepsInv(t: Identities, row: Row)
    requires Inv(t)
    ensures Inv(Register(t, row).0) && Extends(t, Register(t, row).0)
  {
    var (t', answer) := Register(t, row);
    var user := row.signed.userId;
    if answer.Created? {
      assert Chain(Rows(t, user), user);
      AppendKeepsChain(Rows(t, user), row, user);
    }
  }

  lemma {:induction false} RunKeepsInv(t: Identities, rows: seq<Row>)
    requires Inv(t)
    ensures Inv(Run(t, rows)) && Extends(t, Run(t, rows))
    decreases |rows|
  {
    if rows != [] {
      RegisterKeepsInv(t, rows[0]);
      RunKeepsInv(Register(t, rows[0]).0, rows[1..]);
    }
  }

  // ---- Theorems ----

  /** A bundle is accepted exactly when it continues the user's chain with a key that agrees with the key on record;
      an accepted bundle is the new end of the chain, and any other changes nothing. */
  lemma AcceptedExactly(t: Identities, row: Row)
    requires Inv(t)
    ensures var rows, b := Rows(t, row.signed.userId), row.signed;
      var at := (b.userId, b.encryptionKey.keyVersion);
      Register(t, row).1.Created? <==>
        && row.hash == Digest(b) && b.bundleSequence == |rows| + 1
        && b.previousBundleHash == (if rows == [] then None else Some(rows[|rows| - 1].hash))
        && b.encryptionKey.keyVersion > 0
        && (rows != [] ==>
              var last := rows[|rows| - 1].signed.encryptionKey;
              || b.encryptionKey.keyVersion == last.keyVersion + 1
              || (b.encryptionKey.keyVersion == last.keyVersion && b.encryptionKey.fingerprint == last.fingerprint))
        && (at in t.keys ==> t.keys[at] == (b.encryptionKey.publicKey, b.encryptionKey.algorithm))
    ensures var rows, b := Rows(t, row.signed.userId), row.signed;
      Register(t, row).1.Created? ==>
        && Register(t, row).1 == Created(row)
        && Register(t, row).0 == Identities(
             t.bundles[b.userId := rows + [row]],
             t.keys[(b.userId, b.encryptionKey.keyVersion) := (b.encryptionKey.publicKey, b.encryptionKey.algorithm)])
    ensures !Register(t, row).1.Created? ==> Register(t, row).0 == t
  {
    var rows, b := Rows(t, row.signed.userId), row.signed;
    assert Chain(rows, b.userId);
    CurrentIsLast(rows, b.userId);
    if rows != [] { assert Link(rows, b.userId, |rows| - 1); }
    if row.hash == Digest(b) && b.bundleSequence == |rows| + 1 { HashIsNew(rows, row); }
  }

  /** What a bundle that is not accepted is told: that its hash is wrong; that it is the newest one already, or that
      another is; that it is out of sequence; or that its key version has another key. */
  lemma RefusalsExactly(t: Identities, row: Row)
    requires Inv(t) && !Register(t, row).1.Created?
    ensures var rows, b, answer := Rows(t, row.signed.userId), row.signed, Register(t, row).1;
      && (answer == InvalidBundle <==> row.hash != Digest(b))
      && (answer.Kept? <==> row.hash == Digest(b) && rows != [] && rows[|rows| - 1].hash == row.hash)
      && (answer.Kept? ==> answer.row == rows[|rows| - 1])
      && (row.hash == Digest(b) && b.bundleSequence !in {|rows|, |rows| + 1} ==> answer == OutOfSequence)
      && (row.hash == Digest(b) && rows != [] && b.bundleSequence == |rows| && rows[|rows| - 1].hash != row.hash ==> answer == VersionConflict)
      && (answer == Threw ==> b.encryptionKey.keyVersion == 0)
  {
    var rows, b := Rows(t, row.signed.userId), row.signed;
    assert Chain(rows, b.userId);
    CurrentIsLast(rows, b.userId);
    if rows != [] { assert Link(rows, b.userId, |rows| - 1); }
    if row.hash == Digest(b) && b.bundleSequence == |rows| + 1 { HashIsNew(rows, row); }
  }

  lemma HashIsNew(rows: seq<Row>, row: Row)
    requires Chain(rows, row.signed.userId) && row.hash == Digest(row.signed) && row.signed.bundleSequence == |rows| + 1
    ensures !HasHash(rows, row.hash)
  {
    forall k | 0 <= k < |rows| ensures rows[k].hash != row.hash {
      assert Link(rows, row.signed.userId, k);
    }
  }

  /** Registering a user's newest bundle again changes nothing and answers with it. */
  lemma RegisterAgainKeeps(t: Identities, row: Row)
    requires Inv(t) && Register(t, row).1.Created?
    ensures Register(Register(t, row).0, row) == (Register(t, row).0, Kept(row))
  {
    RegisterKeepsInv(t, row);
    var t' := Register(t, row).0;
    var user := row.signed.userId;
    assert Chain(Rows(t', user), user);
    CurrentIsLast(Rows(t', user), user);
  }

  /** After any run, key versions never go back along a chain, and bundles of one version have one key and one
      fingerprint, the key on record. */
  lemma {:induction false} VersionsRise(t: Identities, user: string, i: nat, j: nat)
    requires Inv(t) && user in t.bundles && i <= j < |t.bundles[user]|
    ensures var a, b := t.bundles[user][i].signed.encryptionKey, t.bundles[user][j].signed.encryptionKey;
      && a.keyVersion <= b.keyVersion <= a.keyVersion + (j - i)
      && (a.keyVersion == b.keyVersion ==> a.fingerprint == b.fingerprint && a.publicKey == b.publicKey && a.algorithm == b.algorithm)
    decreases j - i
  {
    if i < j {
      VersionsRise(t, user, i, j - 1);
      assert Link(t.bundles[user], user, j);
      var a, b := t.bundles[user][i].signed, t.bundles[user][j].signed;
      if a.encryptionKey.keyVersion == b.encryptionKey.keyVersion { assert KeyOf(a) == KeyOf(b); }
    }
  }

  const EMPTY: Identities := Identities(map[], map[])

  lemma ReachableChains(rows: seq<Row>, user: string)
    ensures user in Run(EMPTY, rows).bundles ==> Chain(Run(EMPTY, rows).bundles[user], user)
  {
    RunKeepsInv(EMPTY, rows);
  }

  /** A hash vouches for the whole history behind it: two chains, on any two servers, that hold the same bundle are
      the same up to it. */
  lemma {:induction false} HashPinsHistory(a: seq<Row>, b: seq<Row>, u: string, v: string, i: nat, j: nat)
    requires Chain(a, u) && Chain(b, v) && i < |a| && j < |b| && a[i].hash == b[j].hash
    ensures i == j && a[..i + 1] == b[..j + 1]
    decreases i
  {
    assert Link(a, u, i) && Link(b, v, j);
    if i > 0 {
      HashPinsHistory(a, b, u, v, i - 1, j - 1);
      assert a[..i + 1] == a[..i] + [a[i]] && b[..j + 1] == b[..j] + [b[j]];
    }
  }

  /** Whatever two servers were sent since they were empty: where they show the same bundle, for whatever users, they
      show the same history up to it. */
  lemma ServersAgree(here: seq<Row>, there: seq<Row>, u: string, v: string, i: nat, j: nat)
    requires i < |Rows(Run(EMPTY, here), u)| && j < |Rows(Run(EMPTY, there), v)|
    requires Rows(Run(EMPTY, here), u)[i].hash == Rows(Run(EMPTY, there), v)[j].hash
    ensures u == v && Rows(Run(EMPTY, here), u)[..i + 1] == Rows(Run(EMPTY, there), v)[..j + 1]
  {
    ReachableChains(here, u);
    ReachableChains(there, v);
    var a, b := Rows(Run(EMPTY, here), u), Rows(Run(EMPTY, there), v);
    HashPinsHistory(a, b, u, v, i, j);
    assert Link(a, u, i) && Link(b, v, j);
    assert a[..i + 1][i] == b[..j + 1][j];
  }
}
