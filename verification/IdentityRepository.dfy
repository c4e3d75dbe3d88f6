/** The identity tables as `register` writes them. */
module IdentityRepository {
  import opened Wrappers
  import opened IdentityChain

  class PostgresIdentityRepository {
    var bundles: map<string, seq<Row>>
    var keys: map<(string, nat), (string, string)>

    constructor ()
      ensures State() == EMPTY && Inv(State())
    {
      bundles, keys := map[], map[];
    }

    function State(): Identities
      reads this
    {
      Identities(bundles, keys)
    }

    /** `findCurrent`: the row with the highest sequence. */
    method FindCurrent(user: string) returns (current: Option<Row>)
      ensures current == Current(Rows(State(), user))
    {
      var rows := Rows(State(), user);
      current := None;
      for k := 0 to |rows|
        invariant current == Current(rows[..k])
      {
        assert rows[..k + 1][..k] == rows[..k];
        if current.None? || current.value.signed.bundleSequence <= rows[k].signed.bundleSequence { current := Some(rows[k]); }
      }
      assert rows[..|rows|] == rows;
    }

    /** `register`: compare with the current bundle, insert the key row unless it exists, read it back, insert the
        bundle. */
    method Register(row: Row) returns (answer: Answer)
      modifies this
      ensures State() == Insert(old(State()), row).0 && answer == Insert(old(State()), row).1
    {
      var b, user := row.signed, row.signed.userId;
      var current := FindCurrent(user);
      if current.Some? && b.bundleSequence == current.value.signed.bundleSequence {
        return if row.hash == current.value.hash then Kept(current.value) else VersionConflict;
      }
      if !Continues(current, b) { return OutOfSequence; }
      if b.encryptionKey.keyVersion == 0 { return Threw; }
      var saved, at := keys, (user, b.encryptionKey.keyVersion);
      if at !in keys { keys := keys[at := KeyOf(b)]; }
      if keys[at] != KeyOf(b) { return VersionConflict; }
      if HasHash(Rows(State(), user), row.hash) {
        keys := saved;
        return Threw;
      }
      bundles := bundles[user := Rows(State(), user) + [row]];
      answer := Created(row);
    }
  }
}
