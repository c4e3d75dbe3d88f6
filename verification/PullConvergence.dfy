/** What a pull loop brings: every note without outstanding changes at the server's version. */
module PullConvergence {
  import opened Wrappers
  import opened SyncTypes
  import opened ServerTables
  import opened ServerInvariants
  import opened Paging
  import opened LocalStore
  import opened PullSafety

  /** The pull loop of a sync run on a quiescent server: apply a page, continue from its cursor. */
  function PullLoop(s: Store, t: Tables, workspaceId: Id, after: nat, size: nat, now: int): Store
    requires size >= 1
    decreases |Remaining(t, workspaceId, after)|
  {
    var page := PageAt(t, workspaceId, after, size);
    NextPageResumes(t, workspaceId, after, size);
    var s1 := ApplyPage(s, page, now);
    if page.hasMore then PullLoop(s1, t, workspaceId, page.next.sequence, size, now) else s1
  }

  /** The version of the note's last entry numbered above `after` and at most `upto`. */
  function LastPulled(t: Tables, workspaceId: Id, after: nat, upto: nat, n: Id): Option<Id>
    requires upto <= |t.log|
  {
    if upto <= after then None
    else if t.log[upto - 1].noteId == n && Visible(t, workspaceId, t.log[upto - 1]) then Some(t.log[upto - 1].versionId)
    else LastPulled(t, workspaceId, after, upto - 1, n)
  }

  lemma {:induction false} ApplyConcat(s: Store, w: Id, a: seq<PullChange>, b: seq<PullChange>, now: int)
    ensures ApplyPulledAll(s, w, a + b, now) == ApplyPulledAll(ApplyPulledAll(s, w, a, now), w, b, now)
    decreases |a|
  {
    if a == [] {
      assert a + b == b;
    } else {
      assert (a + b)[0] == a[0] && (a + b)[1..] == a[1..] + b;
      ApplyConcat(ApplyPulled(s, w, a[0], now), w, a[1..], b, now);
    }
  }

  lemma {:induction false} CursorsDoNotMatter(s: Store, w: Id, ps: seq<PullChange>, now: int, cursors: map<Id, Cursor>)
    ensures ApplyPulledAll(s.(cursors := cursors), w, ps, now) == ApplyPulledAll(s, w, ps, now).(cursors := cursors)
    decreases |ps|
  {
    if ps != [] {
      var s1 := s.(cursors := cursors);
      assert Waiting(s1, ps[0].note.id) == Waiting(s, ps[0].note.id);
      assert Diverging(s1, ps[0]) == Diverging(s, ps[0]);
      assert ApplyPulled(s1, w, ps[0], now) == ApplyPulled(s, w, ps[0], now).(cursors := cursors);
      CursorsDoNotMatter(ApplyPulled(s, w, ps[0], now), w, ps[1..], now, cursors);
    }
  }

  function FeedRows(t: Tables, w: Id, after: nat, upto: nat): seq<PullChange>
    requires upto <= |t.log|
  {
    FeedIsExact(t, w, after, upto);
    Rows(t, Feed(t, w, after, upto))
  }

  lemma RowsResume(t: Tables, w: Id, after: nat, size: nat)
    requires size >= 1
    ensures FeedRows(t, w, after, |t.log|) ==
      PageAt(t, w, after, size).changes + FeedRows(t, w, Last(Page(t, w, after, size), after), |t.log|)
    ensures !PageAt(t, w, after, size).hasMore ==> FeedRows(t, w, after, |t.log|) == PageAt(t, w, after, size).changes
    ensures |Remaining(t, w, after)| > size ==>
      Last(Remaining(t, w, after), after) ==
      Last(Remaining(t, w, Last(Page(t, w, after, size), after)), Last(Page(t, w, after, size), after))
  {
    FeedIsExact(t, w, after, |t.log|);
    NextPageResumes(t, w, after, size);
    FeedIsExact(t, w, Last(Page(t, w, after, size), after), |t.log|);
  }

  lemma GluePages(s: Store, w: Id, first: seq<PullChange>, rows: seq<PullChange>, next: Cursor, last: Cursor, now: int)
    ensures var s1 := ApplyPulledAll(s, w, first, now).(cursors := s.cursors[w := next]);
      ApplyPulledAll(s1, w, rows, now).(cursors := s1.cursors[w := last]) ==
      ApplyPulledAll(s, w, first + rows, now).(cursors := s.cursors[w := last])
  {
    var a := ApplyPulledAll(s, w, first, now);
    ApplyConcat(s, w, first, rows, now);
    CursorsDoNotMatter(a, w, rows, now, s.cursors[w := next]);
    assert s.cursors[w := next][w := last] == s.cursors[w := last];
  }

  /** The loop applies the rest of the feed in order, page boundaries leaving no trace. */
  lemma {:induction false} LoopAppliesFeed(s: Store, t: Tables, w: Id, after: nat, size: nat, now: int)
    requires size >= 1
    ensures PullLoop(s, t, w, after, size, now) ==
      ApplyPulledAll(s, w, FeedRows(t, w, after, |t.log|), now)
        .(cursors := s.cursors[w := Cursor(w, Last(Remaining(t, w, after), after))])
    decreases |Remaining(t, w, after)|
  {
    var page := PageAt(t, w, after, size);
    var rest := Last(Page(t, w, after, size), after);
    RowsResume(t, w, after, size);
    PulledKeepsCursors(s, w, page.changes, now);
    if page.hasMore {
      NextPageResumes(t, w, after, size);
      LoopAppliesFeed(ApplyPage(s, page, now), t, w, rest, size, now);
      GluePages(s, w, page.changes, FeedRows(t, w, rest, |t.log|), page.next,
                Cursor(w, Last(Remaining(t, w, after), after)), now);
    }
  }

  /** The local row of a note without outstanding changes, after pulling up to some entry. */
  ghost predicate Follows(s: Store, s': Store, t: Tables, w: Id, last: Option<Id>, n: Id) {
    match last
    case None => (n in s'.notes <==> n in s.notes) && (n in s.notes ==> s'.notes[n] == s.notes[n])
    case Some(v) =>
      && n in t.notes && n in s'.notes
      && s'.notes[n].base == Some(v) && s'.notes[n].deleted == t.notes[n].deleted
      && s'.notes[n].workspaceId == t.notes[n].workspaceId
  }

  /** What pulling needs of the tables: no entry dangles, and rows carry their own keys. */
  ghost predicate Joinable(t: Tables) {
    && (forall k :: 0 <= k < |t.log| ==>
          && t.log[k].noteId in t.notes && t.log[k].versionId in t.versions
          && t.notes[t.log[k].noteId].workspaceId == t.log[k].workspaceId)
    && (forall n :: n in t.notes ==> t.notes[n].id == n)
    && (forall v :: v in t.versions ==> t.versions[v].id == v)
  }

  lemma InvIsJoinable(t: Tables)
    requires Inv(t)
    ensures Joinable(t)
  {
    forall k | 0 <= k < |t.log|
      ensures t.log[k].noteId in t.notes && t.log[k].versionId in t.versions
      ensures t.notes[t.log[k].noteId].workspaceId == t.log[k].workspaceId
    {
      EntriesAreVisible(t, k + 1);
    }
  }

  lemma FollowsOne(s: Store, s1: Store, t: Tables, w: Id, p: PullChange, last: Option<Id>, now: int, n: Id)
    requires Follows(s, s1, t, w, last, n) && Waiting(s1, n) == {}
    requires p.note.id in t.notes && p.note == t.notes[p.note.id]
    ensures Follows(s, ApplyPulled(s1, w, p, now), t, w, if p.note.id == n then Some(p.version.id) else last, n)
  {
  }

  function RowOf(t: Tables, e: Entry): PullChange
    requires e.noteId in t.notes && e.versionId in t.versions
  {
    PullChange(t.notes[e.noteId], e.deletion, t.versions[e.versionId])
  }

  lemma RowsGrow(t: Tables, w: Id, after: nat, upto: nat)
    requires after < upto <= |t.log|
    ensures FeedRows(t, w, after, upto) ==
      if Visible(t, w, t.log[upto - 1]) then FeedRows(t, w, after, upto - 1) + [RowOf(t, t.log[upto - 1])]
      else FeedRows(t, w, after, upto - 1)
  {
    FeedIsExact(t, w, after, upto - 1);
    FeedIsExact(t, w, after, upto);
  }

  lemma RowIsFollowed(s: Store, t: Tables, w: Id, rows: seq<PullChange>, e: Entry, last: Option<Id>, now: int, n: Id)
    requires Joinable(t) && Visible(t, w, e) && Waiting(s, n) == {}
    requires Follows(s, ApplyPulledAll(s, w, rows, now), t, w, last, n)
    ensures Follows(s, ApplyPulledAll(s, w, rows + [RowOf(t, e)], now), t, w, if e.noteId == n then Some(e.versionId) else last, n)
  {
    var row, s1 := RowOf(t, e), ApplyPulledAll(s, w, rows, now);
    ApplyConcat(s, w, rows, [row], now);
    assert ApplyPulledAll(s1, w, [row], now) == ApplyPulledAll(ApplyPulled(s1, w, row, now), w, [], now);
    PageKeeps(s, w, rows, now);
    KeptWaiting(s, s1, n);
    FollowsOne(s, s1, t, w, row, last, now, n);
  }

  lemma {:induction false} FeedIsFollowed(s: Store, t: Tables, w: Id, after: nat, upto: nat, now: int, n: Id)
    requires upto <= |t.log| && Joinable(t) && Waiting(s, n) == {}
    ensures Follows(s, ApplyPulledAll(s, w, FeedRows(t, w, after, upto), now), t, w, LastPulled(t, w, after, upto, n), n)
    decreases upto
  {
    if after < upto {
      FeedIsFollowed(s, t, w, after, upto - 1, now, n);
      RowsGrow(t, w, after, upto);
      var e := t.log[upto - 1];
      if Visible(t, w, e) {
        RowIsFollowed(s, t, w, FeedRows(t, w, after, upto - 1), e, LastPulled(t, w, after, upto - 1, n), now, n);
      }
    } else {
      FeedPastEnd(t, w, after, upto);
    }
  }

  /** The last entry pulled for a note is the last entry of its history. */
  lemma {:induction false} LastPulledIsLast(t: Tables, w: Id, after: nat, upto: nat, n: Id)
    requires upto <= |t.log| && Joinable(t)
    ensures LastPulled(t, w, after, upto, n).Some? ==>
      && n in t.notes && t.notes[n].workspaceId == w && History(t.log[..upto], n) != []
      && LastPulled(t, w, after, upto, n).value == History(t.log[..upto], n)[|History(t.log[..upto], n)| - 1].versionId
    ensures after == 0 && n in t.notes && t.notes[n].workspaceId == w && History(t.log[..upto], n) != [] ==>
      LastPulled(t, w, after, upto, n).Some?
    decreases upto
  {
    if upto > 0 {
      LastPulledIsLast(t, w, after, upto - 1, n);
      assert t.log[..upto] == t.log[..upto - 1] + [t.log[upto - 1]];
      HistoryAppend(t.log[..upto - 1], t.log[upto - 1], n);
    }
  }

  lemma PulledIsCurrent(t: Tables, w: Id, after: nat, n: Id)
    requires Core(t.notes, t.versions, t.log) && Joinable(t)
    ensures LastPulled(t, w, after, |t.log|, n).Some? ==>
      n in t.notes && LastPulled(t, w, after, |t.log|, n).value == t.notes[n].current
    ensures after == 0 && n in t.notes && t.notes[n].workspaceId == w ==> LastPulled(t, w, after, |t.log|, n).Some?
  {
    assert t.log[..|t.log|] == t.log;
    LastPulledIsLast(t, w, after, |t.log|, n);
    LastEntryIsCurrent(t, n);
  }

  /** A full pull converges: from the start of the log, whatever the local tables were, every note of the
      workspace without outstanding changes ends at the server's current version and deletion flag. */
  lemma FullPullConverges(s: Store, t: Tables, w: Id, size: nat, now: int, n: Id)
    requires Inv(t) && size >= 1
    requires n in t.notes && t.notes[n].workspaceId == w && Waiting(s, n) == {}
    ensures var s' := PullLoop(s, t, w, 0, size, now);
      n in s'.notes && s'.notes[n].base == Some(t.notes[n].current) && s'.notes[n].deleted == t.notes[n].deleted
  {
    LoopAppliesFeed(s, t, w, 0, size, now);
    InvIsJoinable(t);
    FeedIsFollowed(s, t, w, 0, |t.log|, now, n);
    PulledIsCurrent(t, w, 0, n);
  }

  /** From any cursor, a pull moves a note without outstanding changes to the server's state or leaves it. */
  lemma PullMovesToCurrent(s: Store, t: Tables, w: Id, after: nat, size: nat, now: int, n: Id)
    requires Inv(t) && size >= 1 && Waiting(s, n) == {}
    ensures var s' := PullLoop(s, t, w, after, size, now);
      || (n in t.notes && n in s'.notes && s'.notes[n].base == Some(t.notes[n].current)
          && s'.notes[n].deleted == t.notes[n].deleted && s'.notes[n].workspaceId == t.notes[n].workspaceId)
      || ((n in s'.notes <==> n in s.notes) && (n in s.notes ==> s'.notes[n] == s.notes[n]))
  {
    LoopAppliesFeed(s, t, w, after, size, now);
    InvIsJoinable(t);
    FeedIsFollowed(s, t, w, after, |t.log|, now, n);
    PulledIsCurrent(t, w, after, n);
  }
}
