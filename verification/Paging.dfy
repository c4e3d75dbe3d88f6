/** The pull endpoint: a workspace's change log, read in pages from a cursor. */
module Paging {
  import opened Wrappers
  import opened SyncTypes
  import opened ServerTables
  import opened ServerInvariants

  datatype PullError = WorkspaceNotFound | InvalidCursor

  const PAGE_SIZE: nat := 500

  /** A log entry that the query's workspace filter and its two joins let through. */
  predicate Visible(t: Tables, workspaceId: Id, e: Entry) {
    e.workspaceId == workspaceId && e.noteId in t.notes && e.versionId in t.versions
  }

  /** The sequence numbers above `after` and at most `upto` that the query lists, in order. */
  function Feed(t: Tables, workspaceId: Id, after: nat, upto: nat): seq<nat>
    requires upto <= |t.log|
  {
    if upto == 0 then []
    else
      var earlier := Feed(t, workspaceId, after, upto - 1);
      if after < upto && Visible(t, workspaceId, t.log[upto - 1]) then earlier + [upto] else earlier
  }

  function Remaining(t: Tables, workspaceId: Id, after: nat): seq<nat> {
    Feed(t, workspaceId, after, |t.log|)
  }

  /** The rows of the query: each entry with its note as it is now and the version it logged. */
  function Rows(t: Tables, numbers: seq<nat>): (rows: seq<PullChange>)
    requires forall k :: 0 <= k < |numbers| ==>
      1 <= numbers[k] <= |t.log| && t.log[numbers[k] - 1].noteId in t.notes && t.log[numbers[k] - 1].versionId in t.versions
    ensures |rows| == |numbers|
  {
    seq(|numbers|, k requires 0 <= k < |numbers| =>
      var e := t.log[numbers[k] - 1];
      PullChange(t.notes[e.noteId], e.deletion, t.versions[e.versionId]))
  }

  /** Exactly the visible entries in the range, in strictly increasing order. */
  ghost predicate Lists(f: seq<nat>, t: Tables, workspaceId: Id, after: nat, upto: nat)
    requires upto <= |t.log|
  {
    && (forall k :: 0 <= k < |f| ==> after < f[k] <= upto && Visible(t, workspaceId, t.log[f[k] - 1]))
    && (forall j, k :: 0 <= j < k < |f| ==> f[j] < f[k])
    && (forall n :: after < n <= upto && Visible(t, workspaceId, t.log[n - 1]) ==> n in f)
  }

  lemma ListsOneMore(f: seq<nat>, t: Tables, workspaceId: Id, after: nat, upto: nat)
    requires 0 < upto <= |t.log| && Lists(f, t, workspaceId, after, upto - 1)
    ensures if after < upto && Visible(t, workspaceId, t.log[upto - 1]) then Lists(f + [upto], t, workspaceId, after, upto)
      else Lists(f, t, workspaceId, after, upto)
  {
    var longer := f + [upto];
    assert longer[|f|] == upto;
    forall n | after < n < upto && Visible(t, workspaceId, t.log[n - 1]) ensures n in f && n in longer {
    }
  }

  lemma {:induction false} FeedIsExact(t: Tables, workspaceId: Id, after: nat, upto: nat)
    requires upto <= |t.log|
    ensures Lists(Feed(t, workspaceId, after, upto), t, workspaceId, after, upto)
  {
    if upto > 0 {
      FeedIsExact(t, workspaceId, after, upto - 1);
      ListsOneMore(Feed(t, workspaceId, after, upto - 1), t, workspaceId, after, upto);
    }
  }

  function Page(t: Tables, workspaceId: Id, after: nat, size: nat): seq<nat> {
    var f := Remaining(t, workspaceId, after);
    if |f| <= size then f else f[..size]
  }

  function Last(page: seq<nat>, after: nat): nat {
    if page == [] then after else page[|page| - 1]
  }

  /** `pull`: reads one row more than the page to learn whether there is another page. */
  function Pull(t: Tables, workspaceId: Id, userId: Id, cursor: Option<Cursor>, size: nat): Result<PullPage, PullError> {
    if (workspaceId, userId) !in t.members then Err(WorkspaceNotFound)
    else if cursor.Some? && cursor.value.workspaceId != workspaceId then Err(InvalidCursor)
    else
      var after := if cursor.None? then 0 else cursor.value.sequence;
      Ok(PageAt(t, workspaceId, after, size))
  }

  function PageAt(t: Tables, workspaceId: Id, after: nat, size: nat): PullPage {
    FeedIsExact(t, workspaceId, after, |t.log|);
    var f := Remaining(t, workspaceId, after);
    var page := Page(t, workspaceId, after, size);
    PullPage(workspaceId, Rows(t, page), |f| > size, Cursor(workspaceId, Last(page, after)))
  }

  lemma {:induction false} FeedPastEnd(t: Tables, workspaceId: Id, after: nat, upto: nat)
    requires upto <= |t.log| && upto <= after
    ensures Feed(t, workspaceId, after, upto) == []
  {
    if upto > 0 { FeedPastEnd(t, workspaceId, after, upto - 1); }
  }

  /** Continuing from the last number of a page lists exactly what the page left. */
  lemma {:induction false} FeedResumes(t: Tables, workspaceId: Id, after: nat, upto: nat, j: nat)
    requires upto <= |t.log| && 1 <= j <= |Feed(t, workspaceId, after, upto)|
    ensures Feed(t, workspaceId, Feed(t, workspaceId, after, upto)[j - 1], upto) == Feed(t, workspaceId, after, upto)[j..]
  {
    var f, earlier := Feed(t, workspaceId, after, upto), Feed(t, workspaceId, after, upto - 1);
    FeedIsExact(t, workspaceId, after, upto - 1);
    if j <= |earlier| {
      FeedResumes(t, workspaceId, after, upto - 1, j);
      assert f[j - 1] == earlier[j - 1];
      if f != earlier { assert (earlier + [upto])[j..] == earlier[j..] + [upto]; }
    } else {
      FeedPastEnd(t, workspaceId, upto, upto);
      assert f[j..] == [];
    }
  }

  lemma NextPageResumes(t: Tables, workspaceId: Id, after: nat, size: nat)
    requires size >= 1
    ensures var page := Page(t, workspaceId, after, size);
      page + Remaining(t, workspaceId, Last(page, after)) == Remaining(t, workspaceId, after)
    ensures |Remaining(t, workspaceId, after)| > size ==>
      |Remaining(t, workspaceId, Last(Page(t, workspaceId, after, size), after))| == |Remaining(t, workspaceId, after)| - size
  {
    var f, page := Remaining(t, workspaceId, after), Page(t, workspaceId, after, size);
    if page != [] {
      FeedResumes(t, workspaceId, after, |t.log|, |page|);
      assert page + f[|page|..] == f;
    }
  }

  /** The numbers that the pages of one pull loop carry, on a server nobody writes to meanwhile.
      The loop ends because every page but the last leaves fewer entries. */
  function Loop(t: Tables, workspaceId: Id, after: nat, size: nat): seq<seq<nat>>
    requires size >= 1
    decreases |Remaining(t, workspaceId, after)|
  {
    var page := Page(t, workspaceId, after, size);
    NextPageResumes(t, workspaceId, after, size);
    if |Remaining(t, workspaceId, after)| > size then [page] + Loop(t, workspaceId, Last(page, after), size) else [page]
  }

  function Concat(pages: seq<seq<nat>>): seq<nat> {
    if pages == [] then [] else pages[0] + Concat(pages[1..])
  }

  /** Paging is exact: for any log, start and page size, the concatenated pages are the entries after
      the start, each once and in order; every page but the last is full. */
  lemma {:induction false} PagesAreExact(t: Tables, workspaceId: Id, after: nat, size: nat)
    requires size >= 1
    ensures Concat(Loop(t, workspaceId, after, size)) == Remaining(t, workspaceId, after)
    ensures forall k :: 0 <= k < |Loop(t, workspaceId, after, size)| - 1 ==> |Loop(t, workspaceId, after, size)[k]| == size
    decreases |Remaining(t, workspaceId, after)|
  {
    var page := Page(t, workspaceId, after, size);
    NextPageResumes(t, workspaceId, after, size);
    var pages := Loop(t, workspaceId, after, size);
    if |Remaining(t, workspaceId, after)| > size {
      PagesAreExact(t, workspaceId, Last(page, after), size);
      assert pages[1..] == Loop(t, workspaceId, Last(page, after), size);
    } else {
      assert pages[1..] == [];
    }
  }

  lemma {:induction false} FeedOverGrowth(t: Tables, t': Tables, workspaceId: Id, after: nat, upto: nat)
    requires Inv(t) && Inv(t') && Grows(t, t') && upto <= |t.log|
    ensures Feed(t', workspaceId, after, upto) == Feed(t, workspaceId, after, upto)
  {
    if upto > 0 {
      FeedOverGrowth(t, t', workspaceId, after, upto - 1);
      VisibleOverGrowth(t, t', workspaceId, upto);
    }
  }

  lemma VisibleOverGrowth(t: Tables, t': Tables, workspaceId: Id, n: nat)
    requires Inv(t) && Grows(t, t') && 1 <= n <= |t.log|
    ensures t'.log[n - 1] == t.log[n - 1]
    ensures Visible(t', workspaceId, t'.log[n - 1]) == Visible(t, workspaceId, t.log[n - 1])
  {
    EntriesAreVisible(t, n);
  }

  /** The joins never drop a row: every log entry's note and version exist. */
  lemma EntriesAreVisible(t: Tables, n: nat)
    requires Inv(t) && 1 <= n <= |t.log|
    ensures Visible(t, t.log[n - 1].workspaceId, t.log[n - 1])
    ensures t.notes[t.log[n - 1].noteId].workspaceId == t.log[n - 1].workspaceId
  {
    var e := t.log[n - 1];
    EntryInHistory(t.log, n);
    var h := History(t.log, e.noteId);
    var k :| 0 <= k < |h| && h[k] == e;
    var note := t.notes[e.noteId];
    assert Linear(note, h, t.versions);
    if k < Length(note, h) {
      assert Link(t.versions, h, e.noteId, k);
    } else {
      assert Link(t.versions, h, e.noteId, k - 1);
    }
  }

  lemma {:induction false} EntryInHistory(log: seq<Entry>, n: nat)
    requires 1 <= n <= |log|
    ensures log[n - 1] in History(log, log[n - 1].noteId)
    decreases |log|
  {
    if n < |log| { EntryInHistory(log[..|log| - 1], n); }
  }

  /** Pages taken one after another while anybody writes between them: page k is read from tables `ts[k]`. */
  function PagesDuring(ts: seq<Tables>, workspaceId: Id, after: nat, size: nat): seq<nat>
    decreases |ts|
  {
    if ts == [] then []
    else
      var page := Page(ts[0], workspaceId, after, size);
      page + PagesDuring(ts[1..], workspaceId, Last(page, after), size)
  }

  lemma {:induction false} FeedSplits(t: Tables, workspaceId: Id, after: nat, mid: nat, upto: nat)
    requires mid <= upto <= |t.log|
    ensures Feed(t, workspaceId, after, mid) <= Feed(t, workspaceId, after, upto)
  {
    if mid < upto { FeedSplits(t, workspaceId, after, mid, upto - 1); }
  }

  lemma PageIsPrefix(t: Tables, last: Tables, workspaceId: Id, after: nat, size: nat)
    requires Inv(t) && Inv(last) && Grows(t, last)
    ensures Page(t, workspaceId, after, size) <= Remaining(last, workspaceId, after)
  {
    FeedOverGrowth(t, last, workspaceId, after, |t.log|);
    FeedSplits(last, workspaceId, after, |t.log|, |last.log|);
    assert Page(t, workspaceId, after, size) <= Remaining(t, workspaceId, after);
  }

  /** Writes between the pages lose and repeat nothing: what the pages carry is a prefix of the final feed. */
  lemma {:induction false} PagesDuringWritesAreExact(ts: seq<Tables>, last: Tables, workspaceId: Id, after: nat, size: nat)
    requires size >= 1 && Inv(last)
    requires forall k :: 0 <= k < |ts| ==> Inv(ts[k]) && Grows(ts[k], last)
    ensures PagesDuring(ts, workspaceId, after, size) <= Remaining(last, workspaceId, after)
    decreases |ts|
  {
    if ts != [] {
      var page := Page(ts[0], workspaceId, after, size);
      var f := Remaining(last, workspaceId, after);
      PageIsPrefix(ts[0], last, workspaceId, after, size);
      PagesDuringWritesAreExact(ts[1..], last, workspaceId, Last(page, after), size);
      if page != [] {
        FeedResumes(last, workspaceId, after, |last.log|, |page|);
        assert page + f[|page|..] == f;
      }
    }
  }

  // ---- What a pull answers ----

  /** Every entry of the workspace above `after`, once and in order. */
  ghost predicate ListsEntries(t: Tables, workspaceId: Id, after: nat, numbers: seq<nat>) {
    && (forall n :: n in numbers <==> after < n <= |t.log| && t.log[n - 1].workspaceId == workspaceId)
    && (forall j, k :: 0 <= j < k < |numbers| ==> numbers[j] < numbers[k])
  }

  /** The page holds the first `size` of those entries, each with its note as it is now and the version it logged, says
      whether there are more, and where to go on. */
  ghost predicate Serves(t: Tables, workspaceId: Id, after: nat, numbers: seq<nat>, size: nat, page: PullPage)
    requires ListsEntries(t, workspaceId, after, numbers)
  {
    && page.workspaceId == workspaceId
    && |page.changes| == (if |numbers| <= size then |numbers| else size)
    && (forall k :: 0 <= k < |page.changes| ==>
          assert numbers[k] in numbers;
          var e := t.log[numbers[k] - 1];
          && e.noteId in t.notes && page.changes[k].note == t.notes[e.noteId] && page.changes[k].deletion == e.deletion
          && e.versionId in t.versions && page.changes[k].version == t.versions[e.versionId])
    && (page.hasMore <==> |numbers| > size)
    && page.next == Cursor(workspaceId, if page.changes == [] then after else numbers[|page.changes| - 1])
  }

  lemma FeedListsEntries(t: Tables, workspaceId: Id, after: nat)
    requires Inv(t)
    ensures ListsEntries(t, workspaceId, after, Remaining(t, workspaceId, after))
  {
    FeedIsExact(t, workspaceId, after, |t.log|);
    forall n | after < n <= |t.log| && t.log[n - 1].workspaceId == workspaceId ensures n in Remaining(t, workspaceId, after) {
      EntriesAreVisible(t, n);
    }
  }

  lemma PageServes(t: Tables, workspaceId: Id, after: nat, size: nat, numbers: seq<nat>, page: PullPage)
    requires numbers == Remaining(t, workspaceId, after) && ListsEntries(t, workspaceId, after, numbers)
    requires page == PageAt(t, workspaceId, after, size)
    ensures Serves(t, workspaceId, after, numbers, size, page)
  {
    FeedIsExact(t, workspaceId, after, |t.log|);
    var first := Page(t, workspaceId, after, size);
    RowsShow(t, first, page.changes);
    assert forall k :: 0 <= k < |first| ==> first[k] == numbers[k];
  }

  lemma RowsShow(t: Tables, first: seq<nat>, rows: seq<PullChange>)
    requires forall k :: 0 <= k < |first| ==>
      1 <= first[k] <= |t.log| && t.log[first[k] - 1].noteId in t.notes && t.log[first[k] - 1].versionId in t.versions
    requires rows == Rows(t, first)
    ensures |rows| == |first|
    ensures forall k :: 0 <= k < |rows| ==>
      var e := t.log[first[k] - 1];
      && e.noteId in t.notes && rows[k].note == t.notes[e.noteId] && rows[k].deletion == e.deletion
      && e.versionId in t.versions && rows[k].version == t.versions[e.versionId]
  {
  }

  /** An outsider is told that there is no such workspace, a member with another workspace's cursor that it is invalid,
      and any other member gets the first entries above the cursor. */
  lemma PullAnswersExactly(t: Tables, workspaceId: Id, userId: Id, cursor: Option<Cursor>, size: nat) returns (numbers: seq<nat>)
    requires Inv(t)
    ensures var answer := Pull(t, workspaceId, userId, cursor, size);
      && (answer == Err(WorkspaceNotFound) <==> (workspaceId, userId) !in t.members)
      && (answer == Err(InvalidCursor) <==>
            (workspaceId, userId) in t.members && cursor.Some? && cursor.value.workspaceId != workspaceId)
    ensures var after := if cursor.None? then 0 else cursor.value.sequence;
      && ListsEntries(t, workspaceId, after, numbers)
      && (Pull(t, workspaceId, userId, cursor, size).Ok? ==>
            Serves(t, workspaceId, after, numbers, size, Pull(t, workspaceId, userId, cursor, size).value))
  {
    var after := if cursor.None? then 0 else cursor.value.sequence;
    numbers := Remaining(t, workspaceId, after);
    FeedListsEntries(t, workspaceId, after);
    PageServes(t, workspaceId, after, size, numbers, PageAt(t, workspaceId, after, size));
  }
}
