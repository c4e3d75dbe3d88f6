/** What each transaction of the browser leaves, row by row and column by column, in terms of the rows before it. */
module LocalEffects {
  import opened Wrappers
  import opened Envelopes
  import opened SyncTypes
  import opened LocalStore
  import opened RemoteVersions
  import StoreInvariants

  /** Still to be sent or answered. */
  predicate Open(c: PendingChange) {
    c.status in {Pending, Syncing, Failed, Conflicted}
  }

  /** The user's next edit may change it. */
  predicate Editable(c: PendingChange, noteId: Id, kind: OperationKind) {
    c.noteId == noteId && c.kind == kind && c.status in {Pending, Failed}
  }

  // ---- What the user writes ----

  /** A title with something to read, of at most 200 characters, and a body of at most a million. */
  lemma DocumentIsValidExactly(d: Document)
    ensures ValidDocument(d) <==> Trim(d.title) != "" && |d.title| <= 200 && |d.body| <= 1000000
  {
    TrimIsEmptyExactly(d.title);
  }

  /** White space and line ends, as `trim` removes them. */
  const SPACES: set<int> := {9, 10, 11, 12, 13, 32, 160, 5760, 8192, 8193, 8194, 8195, 8196, 8197, 8198, 8199, 8200, 8201, 8202,
                             8232, 8233, 8239, 8287, 12288, 65279}

  function TrimStart(s: string): string {
    if s != "" && s[0] as int in SPACES then TrimStart(s[1..]) else s
  }

  function Trim(s: string): string
    decreases |s|
  {
    var t := TrimStart(s);
    if t != "" && t[|t| - 1] as int in SPACES then TrimEnd(t) else t
  }

  function TrimEnd(s: string): string {
    if s != "" && s[|s| - 1] as int in SPACES then TrimEnd(s[..|s| - 1]) else s
  }

  lemma {:induction false} TrimStartIsEmptyExactly(s: string)
    ensures TrimStart(s) == "" <==> forall k :: 0 <= k < |s| ==> IsSpace(s[k])
    ensures TrimStart(s) != "" ==> !IsSpace(TrimStart(s)[0])
    decreases |s|
  {
    if s != "" {
      SpacesAre(s[0]);
      if s[0] as int in SPACES {
        TrimStartIsEmptyExactly(s[1..]);
        assert forall k :: 1 <= k < |s| ==> s[k] == s[1..][k - 1];
      }
    }
  }

  lemma SpacesAre(c: char)
    ensures c as int in SPACES <==> IsSpace(c)
  {
  }

  lemma {:induction false} TrimEndKeepsStart(s: string)
    requires s != "" && !IsSpace(s[0])
    ensures TrimEnd(s) != ""
    decreases |s|
  {
    SpacesAre(s[|s| - 1]);
    if s[|s| - 1] as int in SPACES { TrimEndKeepsStart(s[..|s| - 1]); }
  }

  lemma TrimIsEmptyExactly(s: string)
    ensures Trim(s) == "" <==> forall k :: 0 <= k < |s| ==> IsSpace(s[k])
  {
    TrimStartIsEmptyExactly(s);
    if TrimStart(s) != "" { TrimEndKeepsStart(TrimStart(s)); }
  }

  /** Creating: one note at revision 1 and one pending create of it, or nothing. */
  lemma CreateLeaves(s: Store, w: Id, n: Id, d: Document, e: Envelope, id: Id, now: int)
    ensures Create(s, w, n, d, e, id, now) ==
      if ValidDocument(d) && n !in s.notes && id !in s.changes
      then s.(notes := s.notes[n := LocalNote(n, w, None, false, Some(e), None, 1)],
              changes := s.changes[id := PendingChange(id, n, w, CreateNote, None, Some(e), None, 1, now, 0, Pending)])
      else s
  {
  }

  /** The change that an edit or a deletion leaves: the editable one with its new content, still under its own id and
      time, or a new one of the note. */
  function Queued(s: Store, kind: OperationKind, note: LocalNote, payload: Option<Envelope>, existing: Option<Id>, id: Id, now: int): PendingChange {
    if existing.Some? && existing.value in s.changes
    then s.changes[existing.value].(base := note.base, payload := payload, legacy := None, revision := note.revision, status := Pending)
    else PendingChange(id, note.id, note.workspaceId, kind, note.base, payload, None, note.revision, now, 0, Pending)
  }

  /** `existing` is an editable change of the note, or there is none. */
  predicate Chosen(s: Store, n: Id, kind: OperationKind, existing: Option<Id>) {
    if existing.Some? then existing.value in s.changes && Editable(s.changes[existing.value], n, kind)
    else forall x :: x in s.changes ==> !Editable(s.changes[x], n, kind)
  }

  lemma EditLeaves(s: Store, n: Id, d: Document, e: Envelope, expected: Option<nat>, existing: Option<Id>, id: Id, now: int)
    ensures Edit(s, n, d, e, expected, existing, id, now) ==
      if ValidDocument(d) && n in s.notes && !s.notes[n].deleted && Chosen(s, n, UpdateNote, existing)
         && (existing.None? ==> id !in s.changes) && expected in {None, Some(s.notes[n].revision)}
      then
        var note := s.notes[n].(payload := Some(e), legacy := None, revision := s.notes[n].revision + 1);
        s.(notes := s.notes[n := note],
           changes := s.changes[(if existing.Some? then existing.value else id) := Queued(s, UpdateNote, note, Some(e), existing, id, now)])
      else s
  {
  }

  lemma DeleteLeaves(s: Store, n: Id, existing: Option<Id>, id: Id, now: int)
    ensures Delete(s, n, existing, id, now) ==
      if n in s.notes && !s.notes[n].deleted && Chosen(s, n, DeleteNote, existing) && (existing.None? ==> id !in s.changes)
      then
        var note := s.notes[n].(deleted := true, revision := s.notes[n].revision + 1);
        s.(notes := s.notes[n := note],
           changes := s.changes[(if existing.Some? then existing.value else id) := Queued(s, DeleteNote, note, None, existing, id, now)])
      else s
  {
  }

  // ---- Attempts and answers ----

  /** Beginning an attempt: exactly a pending or failed change still at the candidate's revision is in `syncing` afterwards,
      counted once more. */
  lemma BeginLeaves(s: Store, candidate: PendingChange)
    ensures var (s', started) := Begin(s, candidate);
      var id := candidate.id;
      if id in s.changes && s.changes[id].revision == candidate.revision && s.changes[id].status in {Pending, Failed}
      then
        var c := s.changes[id].(attempts := s.changes[id].attempts + 1, status := Syncing);
        started == [c] && s' == s.(changes := s.changes[id := c])
      else started == [] && s' == s
  {
  }

  /** Failing a run's attempts: exactly those still in `syncing` at the attempted revision are failed. */
  lemma FailLeaves(s: Store, attempted: seq<PendingChange>, id: Id)
    requires id in s.changes
    ensures var s' := FailAll(s, attempted);
      && s' == s.(changes := s'.changes) && s'.changes.Keys == s.changes.Keys
      && s'.changes[id] ==
         if s.changes[id].status == Syncing && exists p :: p in attempted && p.id == id && p.revision == s.changes[id].revision
         then s.changes[id].(status := Failed) else s.changes[id]
  {
    if p :| p in attempted && p.id == id && p.revision == s.changes[id].revision {
      var k :| 0 <= k < |attempted| && attempted[k] == p;
    }
  }

  /** Encrypting a queued change keeps it otherwise as it is, if it is still the one that was read. */
  lemma StorePayloadLeaves(s: Store, id: Id, revision: nat, e: Envelope)
    ensures StorePayload(s, id, revision, e) ==
      if id in s.changes && s.changes[id].revision == revision && s.changes[id].status in {Pending, Failed}
      then s.(changes := s.changes[id := s.changes[id].(payload := Some(e), legacy := None)]) else s
  {
  }

  /** A rejection and a missing answer fail the attempt and change nothing else. */
  lemma RefusalLeaves(s: Store, w: Id, pushed: PendingChange, r: Option<PushResult>, now: int)
    requires r.None? || r.value.Rejected?
    ensures ApplyResult(s, w, pushed, r, now) ==
      if pushed.id in s.changes && s.changes[pushed.id].status == Syncing
      then s.(changes := s.changes[pushed.id := s.changes[pushed.id].(status := Failed)]) else s
  {
  }

  /** The version an answer accepts a change with. */
  function AcceptedVersion(r: PushResult): Option<Version> {
    match r
    case Accepted(_, _, v) => Some(v)
    case DuplicateAccepted(_, _, v) => Some(v)
    case _ => None
  }

  /** An acceptance: the change is `synced` if it is still the attempt, and its later open changes with the same base move
      to the accepted version; no other change does anything. */
  lemma AcceptanceLeaves(s: Store, w: Id, pushed: PendingChange, r: PushResult, now: int, x: Id)
    requires AcceptedVersion(r).Some? && pushed.id in s.changes && x in s.changes && s.changes[x].id == x
    ensures var s', v, c := ApplyResult(s, w, pushed, Some(r), now), AcceptedVersion(r).value, s.changes[x];
      && s'.changes.Keys == s.changes.Keys
      && s'.changes[x] == (
           if x == pushed.id && c.status == Syncing && c.revision == pushed.revision then c.(status := Synced)
           else if Follows(c, pushed) then c.(base := Some(v.id)) else c)
  {
  }

  /** The note moves to the accepted version too, which is cached as the server stores it; the other tables stay. */
  lemma AcceptanceMovesNote(s: Store, w: Id, pushed: PendingChange, r: PushResult, now: int)
    requires AcceptedVersion(r).Some? && pushed.id in s.changes
    ensures var s', v := ApplyResult(s, w, pushed, Some(r), now), AcceptedVersion(r).value;
      && s'.conflicts == s.conflicts && s'.cursors == s.cursors
      && s'.notes == (if pushed.noteId in s.notes
                      then s.notes[pushed.noteId := s.notes[pushed.noteId].(base := Some(v.id))] else s.notes)
      && v.id in s'.versions && Mirrors(s'.versions[v.id], v) && s'.versions[v.id].workspaceId == w
      && s'.versions == s.versions[v.id := s'.versions[v.id]]
  {
  }

  /** A later open change of the same note with the same base. */
  predicate Follows(c: PendingChange, pushed: PendingChange) {
    c.noteId == pushed.noteId && c.id != pushed.id && c.revision > pushed.revision && Open(c) && c.base == pushed.base
  }

  /** The version a conflict is about. */
  function RemoteVersion(r: PushResult): Option<Version> {
    match r
    case Conflict(_, _, v) => Some(v)
    case DuplicateConflict(_, _, v) => Some(v)
    case _ => None
  }

  /** The changes a conflict answer stops: the answered one, and the later open ones of its note that are not stopped. */
  predicate Stopped(s: Store, pushed: PendingChange, x: Id) {
    && pushed.id in s.changes && x in s.changes
    && (x == pushed.id
        || (s.changes[x].noteId == s.changes[pushed.id].noteId && s.changes[x].id != s.changes[pushed.id].id
            && s.changes[x].revision > s.changes[pushed.id].revision && s.changes[x].status in {Pending, Syncing, Failed}))
  }

  /** A conflict answer: exactly those are in `conflict`, unless closed, and recorded against the answered version. */
  lemma ConflictLeaves(s: Store, w: Id, pushed: PendingChange, r: PushResult, now: int, x: Id)
    requires RemoteVersion(r).Some? && pushed.id in s.changes && x in s.changes
    ensures var s', v, c := ApplyResult(s, w, pushed, Some(r), now), RemoteVersion(r).value, s.changes[x];
      && s' == RecordConflicts(s, {pushed.id} + (set y | y in s.changes && y != pushed.id && Stopped(s, pushed, y)), w, v, now)
      && s'.cursors == s.cursors
      && s'.changes[x] == if Stopped(s, pushed, x) && Open(c) then c.(status := Conflicted) else c
  {
    assert {pushed.id} + (set y | y in s.changes && y != pushed.id && Stopped(s, pushed, y)) ==
           {pushed.id} + Spread(s, s.changes[pushed.id]);
  }

  /** The answer to a change is the last one with its id. */
  lemma {:induction false} AnswerIsLast(results: seq<PushResult>, id: Id)
    ensures ResultFor(results, id).None? ==> forall r :: r in results ==> r.operationId != id
    ensures ResultFor(results, id).Some? ==>
      exists k :: 0 <= k < |results| && results[k] == ResultFor(results, id).value && results[k].operationId == id
        && forall j :: k < j < |results| ==> results[j].operationId != id
    decreases |results|
  {
    if results != [] && results[|results| - 1].operationId != id {
      var rest := results[..|results| - 1];
      AnswerIsLast(rest, id);
      if ResultFor(results, id).Some? {
        var k :| 0 <= k < |rest| && rest[k] == ResultFor(rest, id).value && rest[k].operationId == id
          && forall j :: k < j < |rest| ==> rest[j].operationId != id;
        assert results[k] == rest[k];
        assert forall j :: k < j < |rest| ==> results[j] == rest[j];
      }
    } else if results != [] {
      assert results[|results| - 1] == ResultFor(results, id).value;
    }
  }

  // ---- Pulling ----

  /** One pulled entry of a note with open changes: exactly those that are not stopped and not based on the entry's version
      are, and recorded; the note stays. */
  lemma PulledOverWork(s: Store, w: Id, p: PullChange, now: int, y: Id, x: Id)
    requires y in s.changes && s.changes[y].noteId == p.note.id && Open(s.changes[y]) && x in s.changes
    ensures var s' := ApplyPulled(s, w, p, now);
      && s' == RecordConflicts(s, Missing(s, p), w, p.version, now)
      && s'.notes == s.notes && s'.cursors == s.cursors
      && s'.changes[x] == if Misses(s.changes[x], p) then s.changes[x].(status := Conflicted) else s.changes[x]
  {
    WorkIsWaiting(s, p, y);
    StoppedByRecord(s, Missing(s, p), w, p.version, now, x);
  }

  lemma WorkIsWaiting(s: Store, p: PullChange, y: Id)
    requires y in s.changes && s.changes[y].noteId == p.note.id && Open(s.changes[y])
    ensures Waiting(s, p.note.id) != {} && Diverging(s, p) == Missing(s, p)
  {
    assert y in Waiting(s, p.note.id);
  }

  lemma StoppedByRecord(s: Store, ids: set<Id>, w: Id, remote: Version, now: int, x: Id)
    requires ids <= s.changes.Keys && x in s.changes
    ensures var s' := RecordConflicts(s, ids, w, remote, now);
      && s'.notes == s.notes && s'.cursors == s.cursors
      && s'.changes[x] == if x in ids && Open(s.changes[x]) then s.changes[x].(status := Conflicted) else s.changes[x]
  {
  }

  /** Of a note without: it is at the entry's version with its present deletion mark, and what it shows stays. */
  lemma PulledOverClean(s: Store, w: Id, p: PullChange, now: int)
    requires forall y :: y in s.changes && s.changes[y].noteId == p.note.id ==> !Open(s.changes[y])
    ensures var s' := ApplyPulled(s, w, p, now);
      && s'.changes == s.changes && s'.conflicts == s.conflicts && s'.cursors == s.cursors
      && p.version.id in s'.versions && Mirrors(s'.versions[p.version.id], p.version) && s'.versions[p.version.id].workspaceId == w
      && s'.versions == s.versions[p.version.id := s'.versions[p.version.id]]
      && s'.notes == s.notes[p.note.id :=
           if p.note.id in s.notes
           then s.notes[p.note.id].(workspaceId := p.note.workspaceId, base := Some(p.version.id), deleted := p.note.deleted)
           else LocalNote(p.note.id, p.note.workspaceId, Some(p.version.id), p.note.deleted, None, None, 0)]
  {
    assert Waiting(s, p.note.id) == {};
  }

  function Missing(s: Store, p: PullChange): set<Id> {
    set z | z in s.changes && Misses(s.changes[z], p)
  }

  predicate Misses(c: PendingChange, p: PullChange) {
    c.noteId == p.note.id && c.status in {Pending, Syncing, Failed} && c.base != Some(p.version.id)
  }

  /** A listed note: new, it is taken over; without local revisions it moves to the listed state; with some it keeps it. */
  lemma CacheLeaves(s: Store, note: Note)
    ensures CacheNote(s, note) == s.(notes := s.notes[note.id :=
      if note.id !in s.notes then LocalNote(note.id, note.workspaceId, Some(note.current), note.deleted, None, None, 0)
      else if s.notes[note.id].revision == 0
      then s.notes[note.id].(workspaceId := note.workspaceId, base := Some(note.current), deleted := note.deleted)
      else s.notes[note.id].(workspaceId := note.workspaceId)])
  {
  }

  /** An opened note: listed, and its version cached as the server stores it. */
  lemma CacheDetailLeaves(s: Store, note: Note, v: Version)
    ensures var s' := LocalStore.Next(s, CacheDetailStep(note, v));
      && v.id in s'.versions && Mirrors(s'.versions[v.id], v) && s'.versions[v.id].workspaceId == note.workspaceId
      && s' == CacheNote(s, note).(versions := s.versions[v.id := s'.versions[v.id]])
  {
  }

  // ---- Resolution ----

  /** The conflict a resolution is for: unresolved, and of its note's unresolved ones the one with the highest version,
      then the latest, then the first by key. */
  lemma LatestIsExactly(s: Store, key: ConflictKey, n: Id)
    ensures IsLatest(s, key, n) <==>
      && key in s.conflicts && s.conflicts[key].noteId == n && s.conflicts[key].settlement == Unresolved
      && forall k :: k in s.conflicts && s.conflicts[k].noteId == n && s.conflicts[k].settlement == Unresolved ==>
           var a, b := s.conflicts[key], s.conflicts[k];
           || a.remote.number > b.remote.number
           || (a.remote.number == b.remote.number && a.detectedAt > b.detectedAt)
           || (a.remote.number == b.remote.number && a.detectedAt == b.detectedAt && key.changeId < k.changeId)
           || (a.remote.number == b.remote.number && a.detectedAt == b.detectedAt && key.changeId == k.changeId && key.versionId <= k.versionId)
  {
    if IsLatest(s, key, n) {
      forall k | k in s.conflicts && s.conflicts[k].noteId == n && s.conflicts[k].settlement == Unresolved
        ensures Precedes(key, s.conflicts[key], k, s.conflicts[k])
      {
        assert OpenConflict(s, k, n);
      }
    }
  }

  /** The documents a resolution is given, if any, are valid. */
  predicate ActionIsValid(a: Action) {
    match a
    case KeepLocal => true
    case AcceptRemote(d) => Trim(d.title) != "" && |d.title| <= 200 && |d.body| <= 1000000
    case ManualMerge(d) => Trim(d.title) != "" && |d.title| <= 200 && |d.body| <= 1000000
  }

  /** One above the highest revision of the note and its changes. */
  ghost predicate NextAbove(s: Store, n: Id, next: nat)
    requires n in s.notes
  {
    && s.notes[n].revision < next && (forall x :: x in s.changes && s.changes[x].noteId == n ==> s.changes[x].revision < next)
    && (next == s.notes[n].revision + 1 || exists x :: x in s.changes && s.changes[x].noteId == n && next == s.changes[x].revision + 1)
  }

  /** When a conflict can be resolved: it is the latest unresolved one of its note, the note is there, in the conflict's
      workspace, the action's document is valid, there is an envelope to queue, the revision is the next one, and the id is
      free. */
  lemma ResolvableExactly(s: Store, key: ConflictKey, a: Action, e: Option<Envelope>, next: nat, id: Id)
    ensures CanResolve(s, key, a, e, next, id) <==>
      && key in s.conflicts && IsLatest(s, key, s.conflicts[key].noteId)
      && var c := s.conflicts[key];
      && c.noteId in s.notes && s.notes[c.noteId].workspaceId == c.workspaceId && ActionIsValid(a)
      && (e != None || (a == KeepLocal && (s.notes[c.noteId].payload != None || c.payload != None)))
      && NextAbove(s, c.noteId, next) && id !in s.changes
  {
    if !a.KeepLocal? { DocumentIsValidExactly(if a.AcceptRemote? then a.remote else a.merged); }
    if key in s.conflicts && s.conflicts[key].noteId in s.notes { NextRevisionExactly(s, s.conflicts[key].noteId, next); }
  }

  lemma NextRevisionExactly(s: Store, n: Id, next: nat)
    requires n in s.notes
    ensures IsNextRevision(s, n, next) <==> NextAbove(s, n, next)
  {
    assert forall x :: x in ChangesOf(s, n) <==> x in s.changes && s.changes[x].noteId == n;
  }

  /** The envelope a resolution queues. */
  lemma ResolutionQueues(note: LocalNote, c: LocalConflict, a: Action, e: Option<Envelope>)
    ensures ResolutionPayload(note, c, a, e) ==
      match a
      case KeepLocal => if note.payload != None then note.payload else if c.payload != None then c.payload else e
      case AcceptRemote(_) => e
      case ManualMerge(_) => e
  {
  }

  /** Resolving: the note is live at the remote version with the resolution's envelope and revision; its open changes are
      resolved and one pending update replaces them; its unresolved conflicts are settled by that; nothing else changes. */
  lemma ResolveLeaves(s: Store, key: ConflictKey, a: Action, e: Option<Envelope>, expected: Option<nat>, next: nat, id: Id, now: int,
                      x: Id, k: ConflictKey)
    requires CanResolve(s, key, a, e, next, id) && expected in {None, Some(next)}
    ensures var s', c := Resolve(s, key, a, e, expected, next, id, now), s.conflicts[key];
      var payload := ResolutionPayload(s.notes[c.noteId], c, a, e);
      && s'.versions == s.versions && s'.cursors == s.cursors
      && s'.notes == s.notes[c.noteId := s.notes[c.noteId].(base := Some(c.remote.id), deleted := false, payload := payload,
                                                            legacy := None, revision := next)]
      && s'.changes.Keys == s.changes.Keys + {id}
      && s'.changes[id] == PendingChange(id, s.notes[c.noteId].id, s.notes[c.noteId].workspaceId, UpdateNote, Some(c.remote.id),
                                         payload, None, next, now, 0, Pending)
      && (x in s.changes ==>
            s'.changes[x] == if s.changes[x].noteId == c.noteId && Open(s.changes[x])
                             then s.changes[x].(status := Resolved) else s.changes[x])
      && s'.conflicts.Keys == s.conflicts.Keys
      && (k in s.conflicts ==>
            s'.conflicts[k] == if s.conflicts[k].noteId == c.noteId && s.conflicts[k].settlement == Unresolved
                               then s.conflicts[k].(settlement := Settled(a, id), resolved := payload, resolvedLegacy := None)
                               else s.conflicts[k])
  {
  }

  /** What is sent of a change is all that the server may see of it, and determines it. */
  lemma WireDetermines(a: PendingChange, b: PendingChange)
    ensures Wire(a) == Wire(b) <==>
      a.id == b.id && a.kind == b.kind && a.noteId == b.noteId && a.base == b.base && a.revision == b.revision
      && a.createdAt == b.createdAt && a.payload == b.payload
  {
  }
}
