/** Pulling never overwrites unsynced work. */
module PullSafety {
  import opened Wrappers
  import opened Envelopes
  import opened SyncTypes
  import opened LocalStore

  /** A pull may at most mark an outstanding change as conflicting. */
  predicate ChangeKept(c: PendingChange, c': PendingChange) {
    c' == c || (Outstanding(c) && c' == c.(status := Conflicted))
  }

  /** A pull keeps what the user wrote, and keeps all of a note that has outstanding changes. */
  predicate NoteKept(waiting: bool, n: LocalNote, n': LocalNote) {
    n'.payload == n.payload && n'.legacy == n.legacy && n'.revision == n.revision && (waiting ==> n' == n)
  }

  ghost predicate Kept(s: Store, s': Store) {
    && s'.changes.Keys == s.changes.Keys
    && (forall id :: id in s.changes ==> ChangeKept(s.changes[id], s'.changes[id]))
    && (forall n :: n in s.notes ==> n in s'.notes && NoteKept(Waiting(s, n) != {}, s.notes[n], s'.notes[n]))
  }

  /** The change stopped for the user, or builds on the pulled version. */
  predicate Stands(c: PendingChange, p: PullChange) {
    c.status == Conflicted || c.base == Some(p.version.id)
  }

  lemma KeptWaiting(s: Store, s': Store, n: Id)
    requires Kept(s, s')
    ensures Waiting(s', n) == Waiting(s, n)
  {
    forall id ensures id in Waiting(s', n) <==> id in Waiting(s, n) {
      if id in s.changes { assert ChangeKept(s.changes[id], s'.changes[id]); }
    }
  }

  lemma KeptTransitive(a: Store, b: Store, c: Store)
    requires Kept(a, b) && Kept(b, c)
    ensures Kept(a, c)
  {
    forall n | n in a.notes ensures n in c.notes && NoteKept(Waiting(a, n) != {}, a.notes[n], c.notes[n]) {
      KeptWaiting(a, b, n);
      assert NoteKept(Waiting(b, n) != {}, b.notes[n], c.notes[n]);
    }
    forall id | id in a.changes ensures ChangeKept(a.changes[id], c.changes[id]) {
      assert ChangeKept(a.changes[id], b.changes[id]) && ChangeKept(b.changes[id], c.changes[id]);
    }
  }

  lemma RecordConflictsKeeps(s: Store, ids: set<Id>, w: Id, remote: Version, now: int)
    requires ids <= s.changes.Keys
    ensures Kept(s, RecordConflicts(s, ids, w, remote, now))
  {
  }

  lemma PulledKeeps(s: Store, w: Id, p: PullChange, now: int)
    ensures Kept(s, ApplyPulled(s, w, p, now))
    ensures forall id :: id in Waiting(s, p.note.id) ==>
      id in ApplyPulled(s, w, p, now).changes && Stands(ApplyPulled(s, w, p, now).changes[id], p)
  {
    if Waiting(s, p.note.id) != {} {
      RecordConflictsKeeps(s, Diverging(s, p), w, p.version, now);
    }
  }

  /** Over a whole page: whatever the page and the local tables are, every outstanding change on a touched note
      ends in conflict or based on each version pulled for the note; notes with outstanding changes keep their
      base and deletion flag; no local payload, revision or queued payload changes. */
  lemma {:induction false} PageKeeps(s: Store, w: Id, ps: seq<PullChange>, now: int)
    ensures Kept(s, ApplyPulledAll(s, w, ps, now))
    ensures forall id, k :: 0 <= k < |ps| && id in Waiting(s, ps[k].note.id) ==>
      id in ApplyPulledAll(s, w, ps, now).changes && Stands(ApplyPulledAll(s, w, ps, now).changes[id], ps[k])
    decreases |ps|
  {
    if ps != [] {
      var s1 := ApplyPulled(s, w, ps[0], now);
      var s2 := ApplyPulledAll(s, w, ps, now);
      PulledKeeps(s, w, ps[0], now);
      PageKeeps(s1, w, ps[1..], now);
      KeptTransitive(s, s1, s2);
      forall id, k | 0 <= k < |ps| && id in Waiting(s, ps[k].note.id)
        ensures id in s2.changes && Stands(s2.changes[id], ps[k])
      {
        KeptWaiting(s, s1, ps[k].note.id);
        if k == 0 {
          assert ChangeKept(s1.changes[id], s2.changes[id]);
        } else {
          assert ps[k] == ps[1..][k - 1];
        }
      }
    }
  }

  lemma PullNeverOverwritesWork(s: Store, page: PullPage, now: int)
    ensures Kept(s, ApplyPage(s, page, now))
    ensures forall id, k :: 0 <= k < |page.changes| && id in Waiting(s, page.changes[k].note.id) ==>
      id in ApplyPage(s, page, now).changes && Stands(ApplyPage(s, page, now).changes[id], page.changes[k])
    ensures ApplyPage(s, page, now).cursors == s.cursors[page.workspaceId := page.next]
  {
    PageKeeps(s, page.workspaceId, page.changes, now);
    PulledKeepsCursors(s, page.workspaceId, page.changes, now);
  }

  lemma {:induction false} PulledKeepsCursors(s: Store, w: Id, ps: seq<PullChange>, now: int)
    ensures ApplyPulledAll(s, w, ps, now).cursors == s.cursors
    decreases |ps|
  {
    if ps != [] { PulledKeepsCursors(ApplyPulled(s, w, ps[0], now), w, ps[1..], now); }
  }
}
