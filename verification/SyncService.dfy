/** The sync service: a batch of pushed operations, one transaction each, and one page of a pull. */
module SyncService {
  import opened Wrappers
  import opened SyncTypes
  import opened ServerTables
  import opened Paging
  import opened SyncServer
  import ServerInvariants

  /** Who pushes, and from which client. */
  datatype Pusher = Pusher(workspaceId: Id, userId: Id, clientId: Id)

  function Input(p: Pusher, change: PushChange, draw: Id): SyncInput {
    SyncInput(p.workspaceId, p.userId, p.clientId, change, draw)
  }

  /** The tables and the answers after the operations in order; an operation that throws ends the batch and keeps
      what came before it. */
  function PushAll(t: Tables, p: Pusher, changes: seq<PushChange>, draws: seq<Id>): (Tables, Option<seq<PushResult>>)
    requires |draws| == |changes|
    decreases |changes|
  {
    if changes == [] then (t, Some([]))
    else
      var (t1, processed) := Process(t, Input(p, changes[0], draws[0]));
      match Answer(changes[0].operationId, processed)
      case None => (t1, None)
      case Some(answer) =>
        var (t2, rest) := PushAll(t1, p, changes[1..], draws[1..]);
        (t2, if rest.Some? then Some([answer] + rest.value) else None)
  }

  lemma {:induction false} PushAllSnoc(t: Tables, p: Pusher, changes: seq<PushChange>, draws: seq<Id>, c: PushChange, d: Id)
    requires |draws| == |changes|
    ensures var (t1, results) := PushAll(t, p, changes, draws);
      var (t2, processed) := Process(t1, Input(p, c, d));
      PushAll(t, p, changes + [c], draws + [d]) ==
        if results.None? then (t1, None)
        else (t2, if Answer(c.operationId, processed).Some? then Some(results.value + [Answer(c.operationId, processed).value]) else None)
    decreases |changes|
  {
    if changes == [] {
      var cs, ds := changes + [c], draws + [d];
      assert cs[0] == c && ds[0] == d && cs[1..] == [] && ds[1..] == [];
      var (t1, processed) := Process(t, Input(p, c, d));
      assert PushAll(t1, p, cs[1..], ds[1..]) == (t1, Some([]));
      var answer := Answer(c.operationId, processed);
      if answer.Some? { assert [answer.value] + [] == [] + [answer.value]; }
    } else {
      assert (changes + [c])[1..] == changes[1..] + [c] && (draws + [d])[1..] == draws[1..] + [d];
      var (t1, processed) := Process(t, Input(p, changes[0], draws[0]));
      PushAllSnoc(t1, p, changes[1..], draws[1..], c, d);
      var (t2, rest) := PushAll(t1, p, changes[1..], draws[1..]);
      var last := Answer(c.operationId, Process(t2, Input(p, c, d)).1);
      var first := Answer(changes[0].operationId, processed);
      if first.Some? && rest.Some? && last.Some? {
        assert [first.value] + (rest.value + [last.value]) == ([first.value] + rest.value) + [last.value];
      }
    }
  }

  lemma {:induction false} FailedPushEnds(t: Tables, p: Pusher, changes: seq<PushChange>, draws: seq<Id>, more: seq<PushChange>, ids: seq<Id>)
    requires |draws| == |changes| && |more| == |ids| && PushAll(t, p, changes, draws).1.None?
    ensures PushAll(t, p, changes + more, draws + ids) == PushAll(t, p, changes, draws)
    decreases |changes|
  {
    assert (changes + more)[1..] == changes[1..] + more && (draws + ids)[1..] == draws[1..] + ids;
    var (t1, processed) := Process(t, Input(p, changes[0], draws[0]));
    if Answer(changes[0].operationId, processed).Some? { FailedPushEnds(t1, p, changes[1..], draws[1..], more, ids); }
  }

  /** Every operation of a batch is answered, in order and under its own id. */
  lemma {:induction false} BatchAnswersEach(t: Tables, p: Pusher, changes: seq<PushChange>, draws: seq<Id>)
    requires |draws| == |changes| && PushAll(t, p, changes, draws).1.Some?
    ensures var answers := PushAll(t, p, changes, draws).1.value;
      |answers| == |changes| && forall k :: 0 <= k < |changes| ==> answers[k].operationId == changes[k].operationId
    decreases |changes|
  {
    if changes != [] {
      var t1 := Process(t, Input(p, changes[0], draws[0])).0;
      BatchAnswersEach(t1, p, changes[1..], draws[1..]);
    }
  }

  /** What the caller is told: accepted or in conflict, the first time or again, with note and version, or why not; and
      nothing where the transaction threw. */
  lemma AnswerSays(id: Id, p: Processed)
    ensures match p
      case Done(_, true, note, version, false) => Answer(id, p) == Some(Accepted(id, note, version))
      case Done(_, true, note, version, true) => Answer(id, p) == Some(DuplicateAccepted(id, note, version))
      case Done(_, false, note, version, false) => Answer(id, p) == Some(Conflict(id, note, version))
      case Done(_, false, note, version, true) => Answer(id, p) == Some(DuplicateConflict(id, note, version))
      case Refused(reason) => Answer(id, p) == Some(Rejected(id, reason))
      case Threw => Answer(id, p) == None
  {
  }

  /** Operation k of a batch runs as the pusher's, on the tables the operations before it left, and gets the answer to it. */
  lemma {:induction false} BatchRunsEach(t: Tables, p: Pusher, changes: seq<PushChange>, draws: seq<Id>, k: nat)
    requires |draws| == |changes| && PushAll(t, p, changes, draws).1.Some? && k < |changes|
    ensures var (before, after) := (PushAll(t, p, changes[..k], draws[..k]).0, PushAll(t, p, changes[..k + 1], draws[..k + 1]).0);
      var (t', processed) := Process(before, SyncInput(p.workspaceId, p.userId, p.clientId, changes[k], draws[k]));
      && after == t' && |PushAll(t, p, changes, draws).1.value| == |changes|
      && Some(PushAll(t, p, changes, draws).1.value[k]) == Answer(changes[k].operationId, processed)
    decreases |changes|
  {
    BatchAnswersEach(t, p, changes, draws);
    var t1 := Process(t, Input(p, changes[0], draws[0])).0;
    if k == 0 {
      assert changes[..0] == [] && draws[..0] == [] && changes[..1] == [changes[0]] && draws[..1] == [draws[0]];
      assert PushAll(t1, p, changes[..1][1..], draws[..1][1..]) == (t1, Some([]));
    } else {
      BatchRunsEach(t1, p, changes[1..], draws[1..], k - 1);
      assert changes[..k][1..] == changes[1..][..k - 1] && draws[..k][1..] == draws[1..][..k - 1];
      assert changes[..k + 1][1..] == changes[1..][..k] && draws[..k + 1][1..] == draws[1..][..k];
    }
  }

  /** A batch keeps what single operations keep, also where it ends early. */
  lemma {:induction false} BatchKeepsInv(t: Tables, p: Pusher, changes: seq<PushChange>, draws: seq<Id>)
    requires ServerInvariants.Inv(t) && |draws| == |changes|
    ensures var t' := PushAll(t, p, changes, draws).0; ServerInvariants.Inv(t') && ServerInvariants.Grows(t, t')
    decreases |changes|
  {
    if changes != [] {
      var i := Input(p, changes[0], draws[0]);
      var t1 := Process(t, i).0;
      ServerInvariants.ProcessKeepsInv(t, i);
      BatchKeepsInv(t1, p, changes[1..], draws[1..]);
      ServerInvariants.GrowsTransitive(t, t1, PushAll(t1, p, changes[1..], draws[1..]).0);
    }
  }

  /** Reading one row more tells the page and whether it is the last. */
  lemma OneRowMore(t: Tables, workspaceId: Id, after: nat, stored: seq<nat>)
    requires stored == Page(t, workspaceId, after, PAGE_SIZE + 1)
    ensures (|stored| > PAGE_SIZE) == (|Remaining(t, workspaceId, after)| > PAGE_SIZE)
    ensures (if |stored| > PAGE_SIZE then stored[..PAGE_SIZE] else stored) == Page(t, workspaceId, after, PAGE_SIZE)
  {
  }

  function PageOf(t: Tables, workspaceId: Id, after: nat, numbers: seq<nat>, hasMore: bool): (page: PullPage)
    requires numbers == Page(t, workspaceId, after, PAGE_SIZE) && hasMore == (|Remaining(t, workspaceId, after)| > PAGE_SIZE)
    ensures page == PageAt(t, workspaceId, after, PAGE_SIZE)
  {
    FeedIsExact(t, workspaceId, after, |t.log|);
    PullPage(workspaceId, Rows(t, numbers), hasMore, Cursor(workspaceId, Last(numbers, after)))
  }

  class Service {
    const repository: PostgresSyncRepository

    constructor (repository: PostgresSyncRepository)
      ensures this.repository == repository
    {
      this.repository := repository;
    }

    /** `push`: `draws` are the version ids that are drawn, one an operation. */
    method Push(p: Pusher, changes: seq<PushChange>, draws: seq<Id>) returns (results: Result<seq<PushResult>, PullError>, threw: bool)
      requires |draws| == |changes| && repository.database.Valid()
      modifies repository.database
      ensures repository.database.Valid()
      ensures (p.workspaceId, p.userId) !in old(repository.database.members) ==>
        repository.database.State() == old(repository.database.State()) && results == Err(WorkspaceNotFound) && !threw
      ensures (p.workspaceId, p.userId) in old(repository.database.members) ==>
        var (t, answers) := PushAll(old(repository.database.State()), p, changes, draws);
        repository.database.State() == t && (threw <==> answers.None?) && (!threw ==> results == Ok(answers.value))
    {
      var database := repository.database;
      results, threw := Err(WorkspaceNotFound), false;
      if (p.workspaceId, p.userId) !in database.members { return; }
      ghost var start := database.State();
      var answers := [];
      for k := 0 to |changes|
        invariant database.Valid()
        invariant PushAll(start, p, changes[..k], draws[..k]) == (database.State(), Some(answers))
      {
        PushAllSnoc(start, p, changes[..k], draws[..k], changes[k], draws[k]);
        assert changes[..k + 1] == changes[..k] + [changes[k]] && draws[..k + 1] == draws[..k] + [draws[k]];
        var processed := repository.ProcessOperation(Input(p, changes[k], draws[k]));
        var answer := Answer(changes[k].operationId, processed);
        if answer.None? {
          FailedPushEnds(start, p, changes[..k + 1], draws[..k + 1], changes[k + 1..], draws[k + 1..]);
          assert changes == changes[..k + 1] + changes[k + 1..] && draws == draws[..k + 1] + draws[k + 1..];
          threw := true;
          return;
        }
        answers := answers + [answer.value];
      }
      assert changes[..|changes|] == changes && draws[..|changes|] == draws;
      results := Ok(answers);
    }

    /** `pull`: one row more than the page is read to see whether there are more. */
    method Pull(workspaceId: Id, userId: Id, cursor: Option<Cursor>) returns (page: Result<PullPage, PullError>)
      ensures page == Paging.Pull(repository.database.State(), workspaceId, userId, cursor, 500)
      ensures page == Err(WorkspaceNotFound) <==> (workspaceId, userId) !in repository.database.members
      ensures page == Err(InvalidCursor) <==>
        (workspaceId, userId) in repository.database.members && cursor.Some? && cursor.value.workspaceId != workspaceId
    {
      var t := repository.database.State();
      if (workspaceId, userId) !in t.members { return Err(WorkspaceNotFound); }
      if cursor.Some? && cursor.value.workspaceId != workspaceId { return Err(InvalidCursor); }
      var after := if cursor.None? then 0 else cursor.value.sequence;
      var stored := repository.PullChanges(workspaceId, after, PAGE_SIZE + 1);
      var hasMore := |stored| > PAGE_SIZE;
      var numbers := if hasMore then stored[..PAGE_SIZE] else stored;
      OneRowMore(t, workspaceId, after, stored);
      page := Ok(PageOf(t, workspaceId, after, numbers, hasMore));
    }
  }
}
