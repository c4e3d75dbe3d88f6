/** One sync run of a lone owner over a reliable transport: everything queued is accepted, nothing conflicts. */
module LoneOwnerSync {
  import opened Wrappers
  import opened Envelopes
  import opened SyncTypes
  import opened LocalStore
  import opened SealedWork
  import opened Workspaces
  import opened SyncSystem
  import opened SyncSafety
  import opened SyncRun
  import opened LoneOwner
  import Server = ServerTables
  import ServerInvariants
  import StoreInvariants
  import opened Paging
  import opened PullConvergence
  import opened PullSafety

  // ---- One accepted change ----

  /** The local tables after the accepted answer to `x`: it is synced, and the later queued changes of its note
      and the note itself are based on the answered version. */
  ghost predicate Settles(s: Store, s': Store, w: Id, x: Id, v: Id)
    requires x in s.changes && s.changes[x].noteId in s.notes
  {
    var n := s.changes[x].noteId;
    && s'.conflicts == s.conflicts && s'.cursors == s.cursors
    && s'.notes == s.notes[n := s.notes[n].(base := Some(v))]
    && s'.changes.Keys == s.changes.Keys
    && s'.changes[x].status == Synced && s'.changes[x].noteId == n && s'.changes[x].workspaceId == s.changes[x].workspaceId
    && forall id :: id in s.changes && id != x ==>
         s'.changes[id] == if Unsent(s, w, id) && s.changes[id].noteId == n then s.changes[id].(base := Some(v)) else s.changes[id]
  }

  /** The server tables after it accepted the change `c` as version `v`. */
  ghost predicate Takes(t: Server.Tables, t': Server.Tables, w: Id, c: PendingChange, v: Id) {
    var n := c.noteId;
    && t'.members == t.members
    && t'.operations.Keys == t.operations.Keys + {c.id}
    && n in t'.notes && t'.notes[n].workspaceId == w && t'.notes[n].current == v
    && (t'.notes[n].deleted <==> c.kind == DeleteNote)
    && (forall m :: m != n ==> (m in t'.notes <==> m in t.notes))
    && (forall m :: m != n && m in t.notes ==> t'.notes[m] == t.notes[m])
    && ServerInvariants.Extends(t.versions, t'.versions) && v in t'.versions
    && (c.kind != DeleteNote ==> c.payload.Some? && t'.versions[v].payload == Stored(c.payload.value))
    && (c.kind == DeleteNote ==> n in t.notes && v == t.notes[n].current)
  }

  /** A change that no other queued change of its note comes before. */
  ghost predicate First(s: Store, w: Id, x: Id)
    requires x in s.changes
  {
    forall id :: Unsent(s, w, id) && id != x && s.changes[id].noteId == s.changes[x].noteId ==>
      s.changes[id].revision > s.changes[x].revision && Rank(s.changes[id].kind) > Rank(s.changes[x].kind)
  }

  lemma SettledUnsent(s: Store, s': Store, w: Id, x: Id, v: Id)
    requires Unsent(s, w, x) && s.changes[x].noteId in s.notes && Settles(s, s', w, x, v)
    ensures forall id :: Unsent(s', w, id) <==> Unsent(s, w, id) && id != x
  {
  }

  lemma SettledKeepsQueue(s: Store, s': Store, t: Server.Tables, t': Server.Tables, w: Id, clock: int, x: Id, v: Id)
    requires Unsent(s, w, x) && s.changes[x].noteId in s.notes && s.changes[x].id == x && First(s, w, x)
    requires Settles(s, s', w, x, v) && Takes(t, t', w, s.changes[x], v)
    requires forall id :: Unsent(s, w, id) ==> Queued(s, t, clock, id)
    requires forall a, b :: InOrder(s, w, a, b)
    ensures forall id :: Unsent(s', w, id) ==> Queued(s', t', clock, id)
    ensures forall a, b :: InOrder(s', w, a, b)
  {
    SettledUnsent(s, s', w, x, v);
    forall id | Unsent(s', w, id) ensures Queued(s', t', clock, id) {
      assert Unsent(s, w, id) && Queued(s, t, clock, id);
      assert s.changes[id].noteId == s.changes[x].noteId ==> s.changes[id].kind != CreateNote;
    }
    forall a, b ensures InOrder(s', w, a, b) {
      assert InOrder(s, w, a, b);
    }
  }

  lemma SettledKeepsNote(s: Store, s': Store, t: Server.Tables, t': Server.Tables, w: Id, x: Id, v: Id, n: Id)
    requires Unsent(s, w, x) && s.changes[x].noteId in s.notes && First(s, w, x)
    requires Settles(s, s', w, x, v) && Takes(t, t', w, s.changes[x], v)
    requires n in s.notes && s.notes[n].workspaceId == w && AtServer(s, t, w, n)
    requires s.changes[x].kind == DeleteNote ==> s.notes[s.changes[x].noteId].deleted
    requires s.changes[x].kind == CreateNote ==> s.changes[x].noteId !in t.notes
    ensures n in s'.notes && AtServer(s', t', w, n)
  {
    SettledUnsent(s, s', w, x, v);
    assert UnsentOn(s, w, x, s.changes[x].noteId, s.changes[x].kind);
    forall id, k ensures UnsentOn(s', w, id, n, k) <==> UnsentOn(s, w, id, n, k) && id != x {
    }
    if n != s.changes[x].noteId {
      assert forall id, k :: UnsentOn(s', w, id, n, k) == UnsentOn(s, w, id, n, k);
    }
  }

  lemma SettledKeepsText(s: Store, s': Store, t: Server.Tables, t': Server.Tables, w: Id, x: Id, v: Id, n: Id)
    requires Unsent(s, w, x) && s.changes[x].noteId in s.notes && First(s, w, x)
    requires Settles(s, s', w, x, v) && Takes(t, t', w, s.changes[x], v)
    requires LastText(s, t, w, n)
    ensures LastText(s', t', w, n)
  {
    SettledUnsent(s, s', w, x, v);
    var c := s.changes[x];
    forall id, k ensures UnsentOn(s', w, id, n, k) <==> UnsentOn(s, w, id, n, k) && id != x {
    }
    if n != c.noteId || c.kind == DeleteNote {
      PutKeepsOtherText(s, s', t, w, n);
      assert LastText(s', t, w, n);
    } else {
      assert UnsentOn(s, w, x, n, c.kind);
    }
  }

  // ---- One round of the push loop ----

  /** What makes the server take a queued change of its owner. */
  ghost predicate Acceptable(t: Server.Tables, device: Device, c: PendingChange, draw: Id) {
    && Server.Owns(t, device.workspaceId, device.userId) && c.id !in t.operations && draw !in t.versions
    && c.workspaceId == device.workspaceId
    && (c.kind != DeleteNote ==> c.payload.Some?)
    && (c.kind == CreateNote ==> c.noteId !in t.notes)
    && (c.kind != CreateNote ==> Server.LiveIn(t, c.workspaceId, c.noteId) && Some(t.notes[c.noteId].current) == c.base)
  }

  lemma CreationTaken(t: Server.Tables, device: Device, c: PendingChange, draw: Id)
    requires Acceptable(t, device, c, draw) && c.kind == CreateNote
    ensures var (t', p) := Server.ProcessCreate(t, Server.SyncInput(device.workspaceId, device.userId, device.clientId, Wire(c), draw));
      p.Done? && p.accepted && !p.replayed && p.version.id == draw && Takes(t, t', device.workspaceId, c, draw)
      && t'.versions.Keys <= t.versions.Keys + {draw}
  {
  }

  lemma DeletionTaken(t: Server.Tables, device: Device, c: PendingChange, draw: Id)
    requires c.noteId in t.notes && t.notes[c.noteId].id == c.noteId && Server.HasVersion(t, c.noteId, t.notes[c.noteId].current)
    requires t.versions[t.notes[c.noteId].current].id == t.notes[c.noteId].current
    requires Acceptable(t, device, c, draw) && c.kind == DeleteNote
    ensures var (t', p) := Server.ProcessExisting(t, Server.SyncInput(device.workspaceId, device.userId, device.clientId, Wire(c), draw));
      p.Done? && p.accepted && !p.replayed && Takes(t, t', device.workspaceId, c, p.version.id) && t'.versions == t.versions
  {
  }

  lemma UpdateTaken(t: Server.Tables, device: Device, c: PendingChange, draw: Id)
    requires c.noteId in t.notes && t.notes[c.noteId].id == c.noteId && Server.HasVersion(t, c.noteId, t.notes[c.noteId].current)
    requires Acceptable(t, device, c, draw) && c.kind == UpdateNote
    ensures var (t', p) := Server.ProcessExisting(t, Server.SyncInput(device.workspaceId, device.userId, device.clientId, Wire(c), draw));
      p.Done? && p.accepted && !p.replayed && p.version.id == draw && Takes(t, t', device.workspaceId, c, draw)
      && t'.versions.Keys <= t.versions.Keys + {draw}
  {
  }

  lemma ExistingTaken(t: Server.Tables, device: Device, c: PendingChange, draw: Id)
    requires ServerInvariants.Inv(t) && Acceptable(t, device, c, draw) && c.kind != CreateNote
    ensures var (t', p) := Server.ProcessExisting(t, Server.SyncInput(device.workspaceId, device.userId, device.clientId, Wire(c), draw));
      p.Done? && p.accepted && !p.replayed && Takes(t, t', device.workspaceId, c, p.version.id)
      && t'.versions.Keys <= t.versions.Keys + {draw}
  {
    ServerInvariants.CurrentExists(t, c.noteId);
    assert t.versions[t.notes[c.noteId].current].id == t.notes[c.noteId].current;
    if c.kind == DeleteNote { DeletionTaken(t, device, c, draw); } else { UpdateTaken(t, device, c, draw); }
  }

  lemma ServerTakes(t: Server.Tables, device: Device, c: PendingChange, draw: Id)
    requires ServerInvariants.Inv(t) && Acceptable(t, device, c, draw)
    ensures var (t', answer) := Push(t, device, Wire(c), draw);
      && answer.Some? && answer.value.Accepted? && answer.value.operationId == c.id
      && Takes(t, t', device.workspaceId, c, answer.value.version.id)
      && t'.versions.Keys <= t.versions.Keys + {draw}
  {
    if c.kind == CreateNote { CreationTaken(t, device, c, draw); } else { ExistingTaken(t, device, c, draw); }
  }

  lemma PushKeepsInv(t: Server.Tables, device: Device, request: PushChange, draw: Id)
    requires ServerInvariants.Inv(t)
    ensures ServerInvariants.Inv(Push(t, device, request, draw).0)
  {
    ServerInvariants.ProcessKeepsInv(t, Server.SyncInput(device.workspaceId, device.userId, device.clientId, request, draw));
  }

  function Begun(c: PendingChange): PendingChange {
    c.(attempts := c.attempts + 1, status := Syncing)
  }

  lemma BeginOne(s: Store, x: Id)
    requires x in s.changes && s.changes[x].id == x && Retryable(s.changes[x])
    ensures BeginAll(s, [s.changes[x]]) == (s.(changes := s.changes[x := Begun(s.changes[x])]), [Begun(s.changes[x])])
  {
    var candidates := [s.changes[x]];
    var (s1, first) := Begin(s, candidates[0]);
    assert BeginAll(s1, candidates[1..]) == (s1, []);
    assert first + [] == first;
  }

  lemma AcceptedSettles(s: Store, w: Id, x: Id, v: Version)
    requires SameWorkspace(s) && Unsent(s, w, x) && s.changes[x].id == x && First(s, w, x)
    requires forall id :: id in s.changes ==> s.changes[id].id == id
    requires forall id :: Unsent(s, w, id) && s.changes[id].noteId == s.changes[x].noteId ==> s.changes[id].base == s.changes[x].base
    ensures var s1 := s.(changes := s.changes[x := Begun(s.changes[x])]);
      Settles(s, ApplyAccepted(s1, w, Begun(s.changes[x]), v), w, x, v.id)
  {
    var s1 := s.(changes := s.changes[x := Begun(s.changes[x])]);
    var s' := ApplyAccepted(s1, w, Begun(s.changes[x]), v);
    forall id | id in s.changes && id != x
      ensures s'.changes[id] ==
        if Unsent(s, w, id) && s.changes[id].noteId == s.changes[x].noteId then s.changes[id].(base := Some(v.id)) else s.changes[id]
    {
      assert s1.changes[id] == s.changes[id];
    }
  }

  /** The owner's first queued change of a note is what the server takes next. */
  lemma FirstIsAcceptable(s: Store, t: Server.Tables, device: Device, clock: int, texts: set<Id>, x: Id, draw: Id)
    requires Sane(s, t) && Alone(s, t, device.workspaceId, clock, texts)
    requires Unsent(s, device.workspaceId, x) && First(s, device.workspaceId, x)
    requires Server.Owns(t, device.workspaceId, device.userId) && draw !in t.versions
    ensures Acceptable(t, device, s.changes[x], draw)
  {
    var w, n := device.workspaceId, s.changes[x].noteId;
    assert Queued(s, t, clock, x);
    assert AtServer(s, t, w, n);
    assert UnsentOn(s, w, x, n, s.changes[x].kind);
    if s.changes[x].kind != CreateNote {
      forall id ensures !UnsentOn(s, w, id, n, CreateNote) {
      }
    }
  }

  lemma AcceptedRound(r: RunState, device: Device, x: Id, draw: Id, now: int)
    requires !r.threw && x in r.store.changes && r.store.changes[x].id == x && Retryable(r.store.changes[x])
    requires ServerInvariants.Inv(r.server) && Acceptable(r.server, device, r.store.changes[x], draw)
    ensures var s1, p := r.store.(changes := r.store.changes[x := Begun(r.store.changes[x])]), Begun(r.store.changes[x]);
      var (t', answer) := Push(r.server, device, Wire(r.store.changes[x]), draw);
      && answer.Some? && answer.value.Accepted?
      && Exchange(r, device, x, draw, Reliable, now) ==
         RunState(ApplyAccepted(s1, device.workspaceId, p, answer.value.version), t', r.attempted + [p], false)
  {
    BeginOne(r.store, x);
    ServerTakes(r.server, device, r.store.changes[x], draw);
    var s1, p := r.store.(changes := r.store.changes[x := Begun(r.store.changes[x])]), Begun(r.store.changes[x]);
    var (t', answer) := Push(r.server, device, Wire(r.store.changes[x]), draw);
    assert Wire(p) == Wire(r.store.changes[x]);
    SingleResult(s1, device.workspaceId, p, [answer.value], now);
    AnswerFound(answer.value, p.id);
  }

  /** A reliable round sends the first queued change of a note, and it is accepted. */
  lemma RoundIsAccepted(r: RunState, device: Device, clock: int, texts: set<Id>, x: Id, draw: Id, now: int)
    returns (r': RunState, v: Id)
    requires !r.threw && Sane(r.store, r.server) && Alone(r.store, r.server, device.workspaceId, clock, texts)
    requires Unsent(r.store, device.workspaceId, x) && First(r.store, device.workspaceId, x)
    requires Server.Owns(r.server, device.workspaceId, device.userId) && draw !in r.server.versions
    ensures r' == Exchange(r, device, x, draw, Reliable, now) && !r'.threw
    ensures Settles(r.store, r'.store, device.workspaceId, x, v)
    ensures Takes(r.server, r'.server, device.workspaceId, r.store.changes[x], v)
    ensures r'.server.versions.Keys <= r.server.versions.Keys + {draw}
  {
    var s, w := r.store, device.workspaceId;
    FirstIsAcceptable(s, r.server, device, clock, texts, x, draw);
    assert Queued(s, r.server, clock, x);
    AcceptedRound(r, device, x, draw, now);
    var (t', answer) := Push(r.server, device, Wire(s.changes[x]), draw);
    r', v := Exchange(r, device, x, draw, Reliable, now), answer.value.version.id;
    forall id | Unsent(s, w, id) && s.changes[id].noteId == s.changes[x].noteId ensures s.changes[id].base == s.changes[x].base {
      assert Queued(s, r.server, clock, id);
    }
    AcceptedSettles(s, w, x, answer.value.version);
    ServerTakes(r.server, device, s.changes[x], draw);
  }

  lemma RoundKeepsAlone(s: Store, s': Store, t: Server.Tables, t': Server.Tables, w: Id, clock: int, texts: set<Id>, x: Id, v: Id)
    requires Sane(s, t) && Alone(s, t, w, clock, texts) && Unsent(s, w, x) && First(s, w, x)
    requires Settles(s, s', w, x, v) && Takes(t, t', w, s.changes[x], v)
    ensures Alone(s', t', w, clock, texts)
  {
    assert Queued(s, t, clock, x);
    SettledKeepsQueue(s, s', t, t', w, clock, x, v);
    forall n | n in s'.notes && s'.notes[n].workspaceId == w ensures AtServer(s', t', w, n) {
      SettledKeepsNote(s, s', t, t', w, x, v, n);
    }
    forall n | n in texts ensures LastText(s', t', w, n) {
      SettledKeepsText(s, s', t, t', w, x, v, n);
    }
  }

  lemma AttemptKeepsStore(s: Store, x: Id, s1: Store)
    requires StoreInvariants.Inv(s) && x in s.changes && s1 == BeginAll(s, [s.changes[x]]).0
    ensures StoreInvariants.Inv(s1)
  {
    StoreInvariants.BeginKeepsInv(s, [s.changes[x]]);
  }

  lemma AnswerKeepsStore(s1: Store, w: Id, p: PendingChange, answer: PushResult, now: int, s2: Store)
    requires StoreInvariants.Inv(s1) && s2 == ApplyResults(s1, w, [p], [answer], now)
    ensures StoreInvariants.Inv(s2)
  {
    StoreInvariants.ApplyResultsKeepsInv(s1, w, [p], [answer], now);
  }

  lemma ExchangeKeepsStore(r: RunState, device: Device, x: Id, draw: Id, fault: Fault, now: int, s': Store)
    requires StoreInvariants.Inv(r.store) && s' == Exchange(r, device, x, draw, fault, now).store
    ensures StoreInvariants.Inv(s')
  {
    if s' != r.store {
      var (s1, started) := BeginAll(r.store, [r.store.changes[x]]);
      AttemptKeepsStore(r.store, x, s1);
      if s' != s1 {
        var answer := Push(r.server, device, Wire(started[0]), draw).1;
        AnswerKeepsStore(s1, device.workspaceId, started[0], answer.value, now, s');
      }
    }
  }

  lemma ExchangeKeepsServer(r: RunState, device: Device, x: Id, draw: Id, fault: Fault, now: int)
    requires ServerInvariants.Inv(r.server)
    ensures ServerInvariants.Inv(Exchange(r, device, x, draw, fault, now).server)
  {
    if x in r.store.changes {
      var started := BeginAll(r.store, [r.store.changes[x]]).1;
      if started != [] { PushKeepsInv(r.server, device, Wire(started[0]), draw); }
    }
  }

  lemma RoundKeepsSane(r: RunState, device: Device, x: Id, draw: Id, now: int, r': RunState, v: Id)
    requires Sane(r.store, r.server) && r' == Exchange(r, device, x, draw, Reliable, now)
    requires Unsent(r.store, device.workspaceId, x)
    requires Settles(r.store, r'.store, device.workspaceId, x, v)
    requires Takes(r.server, r'.server, device.workspaceId, r.store.changes[x], v)
    ensures Sane(r'.store, r'.server)
  {
    ExchangeKeepsStore(r, device, x, draw, Reliable, now, r'.store);
    ExchangeKeepsServer(r, device, x, draw, Reliable, now);
    SettlesKeepsHomes(r.store, r'.store, r.server, r'.server, device.workspaceId, x, v);
  }

  lemma SettlesKeepsHomes(s: Store, s': Store, t: Server.Tables, t': Server.Tables, w: Id, x: Id, v: Id)
    requires SameWorkspace(s) && Unsent(s, w, x) && Settles(s, s', w, x, v) && Takes(t, t', w, s.changes[x], v)
    requires forall n :: n in s.notes && n in t.notes ==> s.notes[n].workspaceId == t.notes[n].workspaceId
    ensures SameWorkspace(s')
    ensures forall n :: n in s'.notes && n in t'.notes ==> s'.notes[n].workspaceId == t'.notes[n].workspaceId
  {
  }

  // ---- The push loop ----

  predicate AllReliable(faults: seq<Fault>) {
    forall k :: 0 <= k < |faults| ==> faults[k] == Reliable
  }

  /** The first of a listing is first of its note. */
  lemma ListedFirst(s: Store, t: Server.Tables, w: Id, clock: int, texts: set<Id>, ids: seq<Id>)
    requires Alone(s, t, w, clock, texts) && Listing(s, w, ids) && ids != []
    requires forall id :: id in s.changes ==> s.changes[id].id == id
    ensures Unsent(s, w, ids[0]) && First(s, w, ids[0])
  {
    var x := ids[0];
    assert Prepared(s, w, x);
    forall id | Unsent(s, w, id) && id != x && s.changes[id].noteId == s.changes[x].noteId
      ensures s.changes[id].revision > s.changes[x].revision && Rank(s.changes[id].kind) > Rank(s.changes[x].kind)
    {
      assert Queued(s, t, clock, id);
      assert Prepared(s, w, id);
      var k :| 0 <= k < |ids| && ids[k] == id;
      assert Before(s.changes[ids[0]], s.changes[ids[k]]);
      assert InOrder(s, w, id, x) && InOrder(s, w, x, id);
    }
  }

  lemma SettlesKeepsListing(s: Store, s': Store, w: Id, x: Id, v: Id, ids: seq<Id>)
    requires Listing(s, w, ids) && ids != [] && ids[0] == x
    requires Unsent(s, w, x) && s.changes[x].noteId in s.notes && Settles(s, s', w, x, v)
    ensures Listing(s', w, ids[1..])
  {
    forall id | id in s'.changes ensures Prepared(s', w, id) == (Prepared(s, w, id) && id != x) {
    }
    forall k | 0 <= k < |ids[1..]| ensures Prepared(s', w, ids[1..][k]) {
      assert ids[1..][k] == ids[k + 1];
      assert ids[0] != ids[k + 1];
    }
    forall id | id in s'.changes && Prepared(s', w, id) ensures id in ids[1..] {
      assert id in ids;
    }
    forall j, k | 0 <= j < k < |ids[1..]|
      ensures ids[1..][j] != ids[1..][k] && Before(s'.changes[ids[1..][j]], s'.changes[ids[1..][k]])
    {
      assert ids[0] != ids[j + 1] && ids[0] != ids[k + 1];
      assert ids[j + 1] != ids[k + 1] && Before(s.changes[ids[j + 1]], s.changes[ids[k + 1]]);
    }
  }

  /** Identifiers drawn for the versions to come: all different, none in use. */
  ghost predicate FreshDraws(t: Server.Tables, draws: seq<Id>) {
    && (forall k :: 0 <= k < |draws| ==> draws[k] !in t.versions)
    && (forall j, k :: 0 <= j < k < |draws| ==> draws[j] != draws[k])
  }

  /** A run of a lone owner before a push round: everything in order, and everything queued is listed. */
  ghost predicate Ready(r: RunState, device: Device, texts: set<Id>, ids: seq<Id>, draws: seq<Id>) {
    && !r.threw && Sane(r.store, r.server) && (exists clock :: Alone(r.store, r.server, device.workspaceId, clock, texts))
    && Listing(r.store, device.workspaceId, ids) && |draws| == |ids|
    && Server.Owns(r.server, device.workspaceId, device.userId) && FreshDraws(r.server, draws)
  }

  lemma FirstRound(r: RunState, device: Device, texts: set<Id>, ids: seq<Id>, draws: seq<Id>, now: int, r': RunState)
    returns (v: Id)
    requires Ready(r, device, texts, ids, draws) && ids != []
    requires r' == Exchange(r, device, ids[0], draws[0], Reliable, now)
    ensures Unsent(r.store, device.workspaceId, ids[0]) && First(r.store, device.workspaceId, ids[0])
    ensures !r'.threw && Settles(r.store, r'.store, device.workspaceId, ids[0], v)
    ensures Takes(r.server, r'.server, device.workspaceId, r.store.changes[ids[0]], v)
    ensures FreshDraws(r'.server, draws[1..])
  {
    var clock :| Alone(r.store, r.server, device.workspaceId, clock, texts);
    ListedFirst(r.store, r.server, device.workspaceId, clock, texts, ids);
    var r1;
    r1, v := RoundIsAccepted(r, device, clock, texts, ids[0], draws[0], now);
  }

  lemma RoundKeepsReady(r: RunState, device: Device, texts: set<Id>, ids: seq<Id>, draws: seq<Id>, now: int, r': RunState)
    returns (v: Id)
    requires Ready(r, device, texts, ids, draws) && ids != []
    requires r' == Exchange(r, device, ids[0], draws[0], Reliable, now)
    ensures Ready(r', device, texts, ids[1..], draws[1..])
    ensures Unsent(r.store, device.workspaceId, ids[0]) && Settles(r.store, r'.store, device.workspaceId, ids[0], v)
  {
    v := FirstRound(r, device, texts, ids, draws, now, r');
    RoundKeepsSane(r, device, ids[0], draws[0], now, r', v);
    var clock :| Alone(r.store, r.server, device.workspaceId, clock, texts);
    RoundKeepsAlone(r.store, r'.store, r.server, r'.server, device.workspaceId, clock, texts, ids[0], v);
    SettlesKeepsListing(r.store, r'.store, device.workspaceId, ids[0], v, ids);
  }

  /** What a push loop without failures does to the changes: everything queued is synced, nothing else moves. */
  ghost predicate AllSynced(s: Store, s': Store, w: Id) {
    && s'.conflicts == s.conflicts && s'.cursors == s.cursors && s'.changes.Keys == s.changes.Keys
    && (forall n :: n in s.notes ==>
          && n in s'.notes && s'.notes[n].workspaceId == s.notes[n].workspaceId
          && s'.notes[n].deleted == s.notes[n].deleted && s'.notes[n].payload == s.notes[n].payload)
    && (forall id :: id in s.changes ==>
          if Unsent(s, w, id) then s'.changes[id].status == Synced else s'.changes[id] == s.changes[id])
  }

  lemma SyncsOneMore(s: Store, s1: Store, s': Store, w: Id, x: Id, v: Id)
    requires Unsent(s, w, x) && s.changes[x].noteId in s.notes && Settles(s, s1, w, x, v) && AllSynced(s1, s', w)
    ensures AllSynced(s, s', w)
  {
    SettledUnsent(s, s1, w, x, v);
  }

  lemma RoundStaysReady(r: RunState, device: Device, texts: set<Id>, ids: seq<Id>, draws: seq<Id>, now: int, r1: RunState)
    requires Ready(r, device, texts, ids, draws) && ids != [] && r1 == Exchange(r, device, ids[0], draws[0], Reliable, now)
    ensures Ready(r1, device, texts, ids[1..], draws[1..])
  {
    var v := RoundKeepsReady(r, device, texts, ids, draws, now, r1);
  }

  lemma {:induction false} PushesReady(r: RunState, device: Device, texts: set<Id>, ids: seq<Id>, draws: seq<Id>,
                                       faults: seq<Fault>, now: int, r': RunState)
    requires Ready(r, device, texts, ids, draws) && |faults| == |ids| && AllReliable(faults)
    requires r' == PushPhase(r, device, ids, draws, faults, now)
    ensures Ready(r', device, texts, [], [])
    decreases |ids|
  {
    if ids == [] {
      assert draws == [];
    } else {
      var r1 := Exchange(r, device, ids[0], draws[0], faults[0], now);
      RoundStaysReady(r, device, texts, ids, draws, now, r1);
      PushesReady(r1, device, texts, ids[1..], draws[1..], faults[1..], now, r');
    }
  }

  lemma RoundSyncsOneMore(r: RunState, device: Device, texts: set<Id>, ids: seq<Id>, draws: seq<Id>, now: int, r1: RunState, s': Store)
    requires Ready(r, device, texts, ids, draws) && ids != [] && r1 == Exchange(r, device, ids[0], draws[0], Reliable, now)
    requires AllSynced(r1.store, s', device.workspaceId)
    ensures AllSynced(r.store, s', device.workspaceId)
  {
    var v := RoundKeepsReady(r, device, texts, ids, draws, now, r1);
    SyncsOneMore(r.store, r1.store, s', device.workspaceId, ids[0], v);
  }

  lemma NothingToSync(r: RunState, device: Device, texts: set<Id>, draws: seq<Id>)
    requires Ready(r, device, texts, [], draws)
    ensures AllSynced(r.store, r.store, device.workspaceId)
  {
    var clock :| Alone(r.store, r.server, device.workspaceId, clock, texts);
    NothingListed(r.store, r.server, device.workspaceId, clock, texts);
  }

  lemma {:induction false} PushesSync(r: RunState, device: Device, texts: set<Id>, ids: seq<Id>, draws: seq<Id>,
                                      faults: seq<Fault>, now: int, r': RunState)
    requires Ready(r, device, texts, ids, draws) && |faults| == |ids| && AllReliable(faults)
    requires r' == PushPhase(r, device, ids, draws, faults, now)
    ensures AllSynced(r.store, r'.store, device.workspaceId)
    decreases |ids|
  {
    if ids == [] {
      NothingToSync(r, device, texts, draws);
    } else {
      var r1 := Exchange(r, device, ids[0], draws[0], faults[0], now);
      RoundStaysReady(r, device, texts, ids, draws, now, r1);
      PushesSync(r1, device, texts, ids[1..], draws[1..], faults[1..], now, r');
      RoundSyncsOneMore(r, device, texts, ids, draws, now, r1, r'.store);
    }
  }

  lemma NothingListed(s: Store, t: Server.Tables, w: Id, clock: int, texts: set<Id>)
    requires Alone(s, t, w, clock, texts) && Listing(s, w, [])
    requires forall id :: id in s.changes ==> s.changes[id].id == id
    ensures forall id :: !Unsent(s, w, id)
  {
    forall id ensures !Unsent(s, w, id) {
      if Unsent(s, w, id) {
        assert Queued(s, t, clock, id);
        assert Prepared(s, w, id);
      }
    }
  }

  // ---- The pull loop ----

  /** A pull loop over a reliable transport is the loop that `PullConvergence` follows. */
  lemma {:induction false} PullPhaseIsLoop(r: RunState, device: Device, cursor: Option<Cursor>, size: nat, now: int)
    requires size >= 1 && (device.workspaceId, device.userId) in r.server.members
    requires cursor.Some? ==> cursor.value.workspaceId == device.workspaceId
    ensures var after := if cursor.None? then 0 else cursor.value.sequence;
      PullPhase(r, device, cursor, size, None, now) ==
      r.(store := PullLoop(r.store, r.server, device.workspaceId, after, size, now))
    decreases |Remaining(r.server, device.workspaceId, if cursor.None? then 0 else cursor.value.sequence)|
  {
    var after := if cursor.None? then 0 else cursor.value.sequence;
    var page := PageAt(r.server, device.workspaceId, after, size);
    NextPageResumes(r.server, device.workspaceId, after, size);
    if page.hasMore {
      PullPhaseIsLoop(r.(store := ApplyPage(r.store, page, now)), device, Some(page.next), size, now);
    }
  }

  /** Pulling touches only the pulled notes, and no change or conflict when none of them has outstanding changes. */
  lemma {:induction false} QuietPull(s: Store, w: Id, ps: seq<PullChange>, now: int)
    requires forall k :: 0 <= k < |ps| ==> Waiting(s, ps[k].note.id) == {}
    ensures var s' := ApplyPulledAll(s, w, ps, now);
      && s'.changes == s.changes && s'.conflicts == s.conflicts
      && forall n :: n in s'.notes && Waiting(s, n) != {} ==> n in s.notes && s'.notes[n] == s.notes[n]
    decreases |ps|
  {
    if ps != [] {
      var s1 := ApplyPulled(s, w, ps[0], now);
      forall n ensures Waiting(s1, n) == Waiting(s, n) {
      }
      QuietPull(s1, w, ps[1..], now);
    }
  }

  lemma NoneWaiting(s: Store, t: Server.Tables, w: Id, n: Id)
    requires Sane(s, t) && (forall id :: !Unsent(s, w, id)) && n in t.notes && t.notes[n].workspaceId == w
    ensures Waiting(s, n) == {}
  {
    forall id ensures id !in Waiting(s, n) {
      assert id in Waiting(s, n) ==> Unsent(s, w, id);
    }
  }

  lemma FeedIsOfWorkspace(t: Server.Tables, w: Id, after: nat, k: nat)
    requires ServerInvariants.Inv(t) && k < |FeedRows(t, w, after, |t.log|)|
    ensures var note := FeedRows(t, w, after, |t.log|)[k].note;
      note.id in t.notes && t.notes[note.id] == note && note.workspaceId == w
  {
    FeedIsExact(t, w, after, |t.log|);
    InvIsJoinable(t);
  }

  lemma PullKeepsSane(s: Store, t: Server.Tables, w: Id, after: nat, size: nat, now: int, s': Store)
    requires Sane(s, t) && size >= 1 && s' == PullLoop(s, t, w, after, size, now)
    ensures StoreInvariants.Inv(s') && SameWorkspace(s')
  {
    LoopAppliesFeed(s, t, w, after, size, now);
    var rows := FeedRows(t, w, after, |t.log|);
    forall k | 0 <= k < |rows| ensures rows[k].note.workspaceId == w && Agrees(s, rows[k].note) {
      FeedIsOfWorkspace(t, w, after, k);
    }
    StoreInvariants.ApplyPulledAllKeepsInv(s, w, rows, now);
    PulledKeepsWorkspace(s, w, rows, now);
  }

  lemma PullIsQuiet(s: Store, t: Server.Tables, w: Id, after: nat, size: nat, now: int, s': Store)
    requires Sane(s, t) && (forall id :: !Unsent(s, w, id)) && size >= 1 && s' == PullLoop(s, t, w, after, size, now)
    ensures s'.changes == s.changes && s'.conflicts == s.conflicts
    ensures forall n :: n in s'.notes && Waiting(s, n) != {} ==> n in s.notes && s'.notes[n] == s.notes[n]
    ensures w in s'.cursors && s'.cursors[w].workspaceId == w
  {
    LoopAppliesFeed(s, t, w, after, size, now);
    var rows := FeedRows(t, w, after, |t.log|);
    forall k | 0 <= k < |rows| ensures Waiting(s, rows[k].note.id) == {} {
      FeedIsOfWorkspace(t, w, after, k);
      NoneWaiting(s, t, w, rows[k].note.id);
    }
    QuietPull(s, w, rows, now);
  }

  /** A pull in front of an unchanged server leaves tables that are in sync in sync, and brings no conflict. */
  lemma PullKeepsInSync(s: Store, t: Server.Tables, w: Id, after: nat, size: nat, now: int, s': Store)
    requires Sane(s, t) && InSync(s, t, w) && size >= 1 && s' == PullLoop(s, t, w, after, size, now)
    ensures InSync(s', t, w) && s'.changes == s.changes && s'.conflicts == s.conflicts
    ensures forall n :: n in s'.notes && n in t.notes ==> s'.notes[n].workspaceId == t.notes[n].workspaceId
  {
    PullIsQuiet(s, t, w, after, size, now, s');
    forall n | n in s'.notes
      ensures n in t.notes ==> s'.notes[n].workspaceId == t.notes[n].workspaceId
      ensures s'.notes[n].workspaceId == w ==>
        && n in t.notes && t.notes[n].workspaceId == w
        && s'.notes[n].base == Some(t.notes[n].current) && s'.notes[n].deleted == t.notes[n].deleted
    {
      if Waiting(s, n) == {} { PullMovesToCurrent(s, t, w, after, size, now, n); }
    }
    forall id ensures !Unsent(s', w, id) { assert !Unsent(s, w, id); }
  }

  // ---- The whole run ----

  lemma PushedIsInSync(r: RunState, device: Device, texts: set<Id>)
    requires Ready(r, device, texts, [], [])
    ensures InSync(r.store, r.server, device.workspaceId)
    ensures forall n :: n in texts ==> TextStored(r.store, r.server, n)
  {
    var clock :| Alone(r.store, r.server, device.workspaceId, clock, texts);
    NothingListed(r.store, r.server, device.workspaceId, clock, texts);
    AloneIsInSync(r.store, r.server, device.workspaceId, clock, texts);
    forall n | n in texts ensures TextStored(r.store, r.server, n) {
      assert LastText(r.store, r.server, device.workspaceId, n);
    }
  }

  /** The server's current version of the note holds the local text. */
  ghost predicate TextStored(s: Store, t: Server.Tables, n: Id) {
    && n in s.notes && s.notes[n].payload.Some? && n in t.notes && t.notes[n].current in t.versions
    && t.versions[t.notes[n].current].payload == Stored(s.notes[n].payload.value)
  }

  ghost predicate OwnCursor(s: Store, w: Id) {
    w in s.cursors ==> s.cursors[w].workspaceId == w
  }

  lemma PullAfterPush(r1: RunState, device: Device, size: nat, now: int, r: RunState)
    requires size >= 1 && !r1.threw && Sane(r1.store, r1.server) && InSync(r1.store, r1.server, device.workspaceId)
    requires Server.Owns(r1.server, device.workspaceId, device.userId) && OwnCursor(r1.store, device.workspaceId)
    requires r == PullPhase(r1, device, LocalCursor(r1.store, device.workspaceId), size, None, now)
    ensures !r.threw && r.server == r1.server && InSync(r.store, r.server, device.workspaceId)
    ensures r.store.changes == r1.store.changes && r.store.conflicts == r1.store.conflicts
    ensures OwnCursor(r.store, device.workspaceId)
  {
    var cursor := LocalCursor(r1.store, device.workspaceId);
    PullPhaseIsLoop(r1, device, cursor, size, now);
    var after := if cursor.None? then 0 else cursor.value.sequence;
    PullIsQuiet(r1.store, r1.server, device.workspaceId, after, size, now, r.store);
    PullKeepsInSync(r1.store, r1.server, device.workspaceId, after, size, now, r.store);
  }

  lemma PullAfterPushIsSane(r1: RunState, device: Device, size: nat, now: int, r: RunState)
    requires size >= 1 && !r1.threw && Sane(r1.store, r1.server) && InSync(r1.store, r1.server, device.workspaceId)
    requires Server.Owns(r1.server, device.workspaceId, device.userId) && OwnCursor(r1.store, device.workspaceId)
    requires r == PullPhase(r1, device, LocalCursor(r1.store, device.workspaceId), size, None, now)
    ensures Sane(r.store, r.server)
  {
    var cursor := LocalCursor(r1.store, device.workspaceId);
    PullPhaseIsLoop(r1, device, cursor, size, now);
    var after := if cursor.None? then 0 else cursor.value.sequence;
    PullKeepsSane(r1.store, r1.server, device.workspaceId, after, size, now, r.store);
    PullKeepsInSync(r1.store, r1.server, device.workspaceId, after, size, now, r.store);
  }

  /** What a finished run of a lone owner has done: nothing conflicts, everything queued is synced, and the server
      holds the last texts and deletions. */
  ghost predicate Delivered(s: Store, t': Server.Tables, s': Store, w: Id, texts: set<Id>) {
    && s'.conflicts == s.conflicts
    && (forall id :: Unsent(s, w, id) ==> id in s'.changes && s'.changes[id].status == Synced)
    && (forall n :: n in texts ==> TextStored(s, t', n))
    && (forall n :: n in s.notes && s.notes[n].workspaceId == w ==> n in t'.notes && t'.notes[n].deleted == s.notes[n].deleted)
  }

  lemma PushedIsDelivered(s: Store, r1: RunState, w: Id, texts: set<Id>, s': Store)
    requires AllSynced(s, r1.store, w) && InSync(r1.store, r1.server, w)
    requires forall n :: n in texts ==> n in s.notes && TextStored(r1.store, r1.server, n)
    requires s'.changes == r1.store.changes && s'.conflicts == r1.store.conflicts
    ensures Delivered(s, r1.server, s', w, texts)
  {
    forall n | n in texts ensures TextStored(s, r1.server, n) {
      assert TextStored(r1.store, r1.server, n);
    }
  }

  lemma PushOfOfflineWork(r0: RunState, device: Device, texts: set<Id>, ids: seq<Id>, draws: seq<Id>,
                          faults: seq<Fault>, now: int, r1: RunState)
    requires |faults| == |ids| && AllReliable(faults)
    requires Ready(r0, device, texts, ids, draws) && OwnCursor(r0.store, device.workspaceId)
    requires r1 == PushPhase(r0, device, ids, draws, faults, now)
    ensures Ready(r1, device, texts, [], []) && OwnCursor(r1.store, device.workspaceId)
    ensures AllSynced(r0.store, r1.store, device.workspaceId)
  {
    PushesReady(r0, device, texts, ids, draws, faults, now, r1);
    PushesSync(r0, device, texts, ids, draws, faults, now, r1);
  }

  /** One run after offline work. */
  lemma SyncOfOfflineWork(r0: RunState, device: Device, texts: set<Id>, ids: seq<Id>, draws: seq<Id>,
                          faults: seq<Fault>, size: nat, now: int, r1: RunState, r: RunState)
    requires Ready(r1, device, texts, [], []) && OwnCursor(r1.store, device.workspaceId)
    requires AllSynced(r0.store, r1.store, device.workspaceId) && size >= 1
    requires forall n :: n in texts ==> n in r0.store.notes
    requires r == PullPhase(r1, device, LocalCursor(r1.store, device.workspaceId), size, None, now)
    ensures !r.threw && InSync(r.store, r.server, device.workspaceId) && OwnCursor(r.store, device.workspaceId)
    ensures Delivered(r0.store, r.server, r.store, device.workspaceId, texts)
  {
    PushedIsInSync(r1, device, texts);
    PullAfterPush(r1, device, size, now, r);
    PushedIsDelivered(r0.store, r1, device.workspaceId, texts, r.store);
  }

  lemma TextsAreNotes(s: Store, t: Server.Tables, w: Id, clock: int, texts: set<Id>)
    requires Alone(s, t, w, clock, texts)
    ensures forall n :: n in texts ==> n in s.notes
  {
    forall n | n in texts ensures n in s.notes { assert LastText(s, t, w, n); }
  }

  lemma OfflineIsReady(s0: Store, t: Server.Tables, device: Device, clock: int, steps: seq<LocalStep>,
                       ids: seq<Id>, draws: seq<Id>, s: Store, end: int, texts: set<Id>)
    requires Sane(s0, t) && InSync(s0, t, device.workspaceId) && OwnCursor(s0, device.workspaceId)
    requires Server.Owns(t, device.workspaceId, device.userId)
    requires AllOffline(t, clock, steps) && s == LocalStore.Run(s0, steps)
    requires end == ClockAfterAll(clock, steps) && texts == AllWrote(s0, device.workspaceId, {}, steps)
    requires Listing(s, device.workspaceId, ids) && |draws| == |ids| && FreshDraws(t, draws)
    ensures Ready(RunState(s, t, [], false), device, texts, ids, draws) && OwnCursor(s, device.workspaceId)
    ensures s.conflicts == s0.conflicts
  {
    InSyncIsAlone(s0, t, device.workspaceId, clock);
    OfflineRunKeepsSane(s0, t, clock, steps, s);
    OfflineRunKeepsAlone(s0, t, device.workspaceId, clock, {}, steps, s, end, texts);
  }

  lemma SyncIsPhases(r0: RunState, device: Device, ids: seq<Id>, draws: seq<Id>, faults: seq<Fault>, size: nat, now: int,
                     r1: RunState, r: RunState)
    requires r0.attempted == [] && !r0.threw && size >= 1 && |draws| == |ids| == |faults|
    requires r1 == PushPhase(r0, device, ids, draws, faults, now) && !r1.threw
    requires r == PullPhase(r1, device, LocalCursor(r1.store, device.workspaceId), size, None, now) && !r.threw
    ensures r == Sync(r0.store, r0.server, device, ids, draws, faults, size, None, now)
  {
    assert r0 == RunState(r0.store, r0.server, [], false);
  }

  lemma RunAfterOfflineWork(r0: RunState, device: Device, texts: set<Id>, ids: seq<Id>, draws: seq<Id>,
                            faults: seq<Fault>, size: nat, now: int, r1: RunState, r: RunState)
    requires Ready(r0, device, texts, ids, draws) && OwnCursor(r0.store, device.workspaceId)
    requires size >= 1 && |faults| == |ids| && AllReliable(faults)
    requires r1 == PushPhase(r0, device, ids, draws, faults, now)
    requires r == PullPhase(r1, device, LocalCursor(r1.store, device.workspaceId), size, None, now)
    ensures !r1.threw && !r.threw && InSync(r.store, r.server, device.workspaceId) && OwnCursor(r.store, device.workspaceId)
    ensures Delivered(r0.store, r.server, r.store, device.workspaceId, texts)
  {
    var clock :| Alone(r0.store, r0.server, device.workspaceId, clock, texts);
    TextsAreNotes(r0.store, r0.server, device.workspaceId, clock, texts);
    PushOfOfflineWork(r0, device, texts, ids, draws, faults, now, r1);
    SyncOfOfflineWork(r0, device, texts, ids, draws, faults, size, now, r1, r);
  }

  /** Where an owner's session starts and ends: both sides well formed and in sync, and the cursor its workspace's. */
  ghost predicate AtRest(s: Store, t: Server.Tables, device: Device) {
    && Sane(s, t) && InSync(s, t, device.workspaceId) && OwnCursor(s, device.workspaceId)
    && Server.Owns(t, device.workspaceId, device.userId)
  }

  lemma RunComesToRest(r0: RunState, device: Device, texts: set<Id>, ids: seq<Id>, draws: seq<Id>,
                       faults: seq<Fault>, size: nat, now: int, r1: RunState, r: RunState)
    requires Ready(r0, device, texts, ids, draws) && OwnCursor(r0.store, device.workspaceId)
    requires size >= 1 && |faults| == |ids| && AllReliable(faults)
    requires r1 == PushPhase(r0, device, ids, draws, faults, now)
    requires r == PullPhase(r1, device, LocalCursor(r1.store, device.workspaceId), size, None, now)
    ensures Sane(r.store, r.server) && Server.Owns(r.server, device.workspaceId, device.userId)
  {
    PushOfOfflineWork(r0, device, texts, ids, draws, faults, now, r1);
    PushedIsInSync(r1, device, texts);
    PullAfterPushIsSane(r1, device, size, now, r);
    PullAfterPush(r1, device, size, now, r);
  }

  /** A lone owner never conflicts with itself. From tables in sync, after any offline creates, edits and deletes
      with a clock that does not go back, one run over a reliable transport, with no edits during it, ends normally:
      every queued change is `synced`, no conflict is recorded, the server holds the last text of every note
      written and exactly the deletions made, and the tables are in sync again, every note at the server's
      current version, so that the next session starts where this one did. */
  lemma LoneOwnerNeverConflicts(s0: Store, t: Server.Tables, device: Device, clock: int, steps: seq<LocalStep>,
                                ids: seq<Id>, draws: seq<Id>, faults: seq<Fault>, size: nat, now: int, s: Store, r: RunState)
    requires AtRest(s0, t, device)
    requires AllOffline(t, clock, steps) && s == LocalStore.Run(s0, steps)
    requires Listing(s, device.workspaceId, ids) && |draws| == |ids| && FreshDraws(t, draws)
    requires size >= 1 && |faults| == |ids| && AllReliable(faults)
    requires r == Sync(s, t, device, ids, draws, faults, size, None, now)
    ensures !r.threw && AtRest(r.store, r.server, device) && r.store.conflicts == s0.conflicts
    ensures Delivered(s, r.server, r.store, device.workspaceId, AllWrote(s0, device.workspaceId, {}, steps))
  {
    var texts, end := AllWrote(s0, device.workspaceId, {}, steps), ClockAfterAll(clock, steps);
    OfflineIsReady(s0, t, device, clock, steps, ids, draws, s, end, texts);
    var r0 := RunState(s, t, [], false);
    var r1 := PushPhase(r0, device, ids, draws, faults, now);
    var r2 := PullPhase(r1, device, LocalCursor(r1.store, device.workspaceId), size, None, now);
    RunAfterOfflineWork(r0, device, texts, ids, draws, faults, size, now, r1, r2);
    RunComesToRest(r0, device, texts, ids, draws, faults, size, now, r1, r2);
    SyncIsPhases(r0, device, ids, draws, faults, size, now, r1, r2);
  }

  // ---- Any number of sessions ----

  /** Offline work and the run after it. */
  datatype Session = Session(
    clock: int, steps: seq<LocalStep>, ids: seq<Id>, draws: seq<Id>, faults: seq<Fault>, size: nat, now: int)

  /** The work is offline work, the listing is the engine's and the transport is reliable. */
  ghost predicate Regular(s: Store, t: Server.Tables, device: Device, x: Session) {
    && AllOffline(t, x.clock, x.steps) && Listing(LocalStore.Run(s, x.steps), device.workspaceId, x.ids)
    && |x.draws| == |x.ids| && FreshDraws(t, x.draws)
    && x.size >= 1 && |x.faults| == |x.ids| && AllReliable(x.faults)
  }

  function Ends(s: Store, t: Server.Tables, device: Device, x: Session): RunState
    requires x.size >= 1 && |x.draws| == |x.ids| == |x.faults|
  {
    Sync(LocalStore.Run(s, x.steps), t, device, x.ids, x.draws, x.faults, x.size, None, x.now)
  }

  ghost predicate AllRegular(s: Store, t: Server.Tables, device: Device, sessions: seq<Session>)
    decreases |sessions|
  {
    sessions != [] ==>
      Regular(s, t, device, sessions[0])
      && var r := Ends(s, t, device, sessions[0]); AllRegular(r.store, r.server, device, sessions[1..])
  }

  /** Every session ends normally, without a conflict, with everything delivered and at rest. */
  ghost predicate AllDelivered(s: Store, t: Server.Tables, device: Device, sessions: seq<Session>)
    requires AllRegular(s, t, device, sessions)
    decreases |sessions|
  {
    sessions != [] ==>
      var x := sessions[0];
      var r := Ends(s, t, device, x);
      && !r.threw && AtRest(r.store, r.server, device) && r.store.conflicts == s.conflicts
      && Delivered(LocalStore.Run(s, x.steps), r.server, r.store, device.workspaceId, AllWrote(s, device.workspaceId, {}, x.steps))
      && AllDelivered(r.store, r.server, device, sessions[1..])
  }

  lemma OneSession(s: Store, t: Server.Tables, device: Device, x: Session, r: RunState)
    requires AtRest(s, t, device) && Regular(s, t, device, x) && r == Ends(s, t, device, x)
    ensures !r.threw && AtRest(r.store, r.server, device) && r.store.conflicts == s.conflicts
    ensures Delivered(LocalStore.Run(s, x.steps), r.server, r.store, device.workspaceId, AllWrote(s, device.workspaceId, {}, x.steps))
  {
    LoneOwnerNeverConflicts(s, t, device, x.clock, x.steps, x.ids, x.draws, x.faults, x.size, x.now, LocalStore.Run(s, x.steps), r);
  }

  /** So a lone owner never conflicts over any number of sessions. */
  lemma {:induction false} SessionsNeverConflict(s: Store, t: Server.Tables, device: Device, sessions: seq<Session>)
    requires AtRest(s, t, device) && AllRegular(s, t, device, sessions)
    ensures AllDelivered(s, t, device, sessions)
    decreases |sessions|
  {
    if sessions != [] {
      var r := Ends(s, t, device, sessions[0]);
      OneSession(s, t, device, sessions[0], r);
      SessionsNeverConflict(r.store, r.server, device, sessions[1..]);
    }
  }

  /** A new device of the workspace's owner is at rest in front of any server. */
  lemma NewDeviceIsAtRest(t: Server.Tables, device: Device)
    requires ServerInvariants.Inv(t) && Server.Owns(t, device.workspaceId, device.userId)
    ensures AtRest(LocalStore.EMPTY, t, device)
  {
  }
}
