/** Every run of the manager is linearizable: the run it records on the side explains what clients saw. */
module Linear {
  import opened Bytes
  import opened Log
  import opened Service
  import opened Manager
  import opened ManagerInv

  // ---------- The recorded run against the history ----------

  predicate Has(lin: seq<Entry>, id: nat, reply: Reply) {
    exists p :: 0 <= p < |lin| && lin[p].id == id && lin[p].reply == reply
  }

  /** Entries are calls of the history, each once, in an order real time allows, and cover every response. */
  ghost predicate Matches(hist: seq<Event>, lin: seq<Entry>) {
    && (forall p | 0 <= p < |lin| :: lin[p].id < |hist| && hist[lin[p].id].Call? && hist[lin[p].id].op == lin[p].op)
    && (forall p, q | 0 <= p < q < |lin| :: lin[p].id != lin[q].id)
    && (forall j | 0 <= j < |hist| && hist[j].Return? :: Has(lin, hist[j].call, hist[j].reply))
    && (forall p, q | 0 <= p < q < |lin| :: !Precedes(hist, lin[q].id, lin[p].id))
  }

  /** Before its point a call is not in the run; from its point on it is there with the reply it will give. */
  predicate Status(lin: seq<Entry>, x: Client) {
    match x
    case Busy(id, op, pc) => (
      match pc
      case Viewing(view) => if op.Keyed() && op.db in view then !Explained(lin, id) else Has(lin, id, DbNotFound)
      case Answered(_, reply) => Has(lin, id, reply)
      case Unlocking(reply) => Has(lin, id, reply)
      case Leaving(reply) => Has(lin, id, reply)
      case Unpublished(_) => Has(lin, id, Done)
      case Draining(_) => Has(lin, id, Done)
      case Drained(_) => Has(lin, id, Done)
      case _ => !Explained(lin, id))
    case _ => true
  }

  // ---------- A drop in progress ----------

  /** No entry from `at` on had returned when the drop stored its map. */
  predicate NotYetReturned(hist: seq<Event>, lin: seq<Entry>, at: nat, time: nat) {
    forall q, j | at <= q < |lin| && 0 <= j < time && j < |hist| :: hist[j].Return? ==> hist[j].call != lin[q].id
  }

  /** Whoever still owns a sender of `w` made its call before the drop stored its map. */
  predicate OwnersAreOld(s: State, w: nat, time: nat) {
    forall c | 0 <= c < |s.clients| :: s.clients[c].Busy? && s.clients[c].pc.Owns(w) ==> s.clients[c].id < time
  }

  ghost predicate Dropping(st: Store, s: State, w: nat, db: Name) {
    && s.dropAt < |s.lin| && s.dropTime <= |s.hist| && w < |s.workers|
    && s.lin[s.dropAt].op == Drop(db) && db != DEFAULT
    && db in After(st, s.lin[..s.dropAt]) && After(st, s.lin[..s.dropAt])[db] == s.workers[w].index
    && NotYetReturned(s.hist, s.lin, s.dropAt, s.dropTime) && OwnersAreOld(s, w, s.dropTime)
  }

  ghost predicate DropOk(st: Store, s: State) {
    LockHand(s).OldWorker? ==> Dropping(st, s, LockHand(s).w, LockHand(s).db)
  }

  ghost predicate LinInv(st: Store, s: State) {
    && Matches(s.hist, s.lin)
    && (forall c | 0 <= c < |s.clients| :: Status(s.lin, s.clients[c]))
    && Legal(st, s.lin)
    && (!s.down ==> After(st, s.lin) == Contents(s))
    && DropOk(st, s)
  }

  // ---------- Growing the run ----------

  function Inserted(lin: seq<Entry>, k: nat, e: Entry): seq<Entry>
    requires k <= |lin|
  {
    lin[..k] + [e] + lin[k..]
  }

  lemma InsertedHas(lin: seq<Entry>, k: nat, e: Entry, id: nat, reply: Reply)
    requires k <= |lin|
    ensures Has(lin, id, reply) ==> Has(Inserted(lin, k, e), id, reply)
    ensures Explained(Inserted(lin, k, e), id) <==> Explained(lin, id) || id == e.id
    ensures Has(Inserted(lin, k, e), e.id, e.reply)
  {
    var more := Inserted(lin, k, e);
    assert more[k] == e;
    forall p | 0 <= p < |lin|
      ensures lin[p] == more[if p < k then p else p + 1]
    {
    }
    forall p | 0 <= p < |more| && p != k
      ensures more[p] == lin[if p < k then p else p - 1]
    {
    }
  }

  lemma InsertedStatus(lin: seq<Entry>, k: nat, e: Entry, x: Client)
    requires k <= |lin| && Status(lin, x) && (x.Busy? ==> x.id != e.id)
    ensures Status(Inserted(lin, k, e), x)
  {
    hide Has, Explained, Inserted;
    if x.Busy? {
      forall reply: Reply
        ensures Has(lin, x.id, reply) ==> Has(Inserted(lin, k, e), x.id, reply)
      {
        InsertedHas(lin, k, e, x.id, reply);
      }
      InsertedHas(lin, k, e, x.id, Done);
    }
  }

  lemma UnansweredPrecedesNothing(hist: seq<Event>, a: nat, b: nat)
    requires Unanswered(hist, a)
    ensures !Precedes(hist, a, b)
  {
  }

  lemma InsertedMatches(hist: seq<Event>, lin: seq<Entry>, k: nat, e: Entry)
    requires Matches(hist, lin) && k <= |lin| && !Explained(lin, e.id)
    requires e.id < |hist| && hist[e.id].Call? && hist[e.id].op == e.op && Unanswered(hist, e.id)
    requires forall q | k <= q < |lin| :: !Precedes(hist, lin[q].id, e.id)
    ensures Matches(hist, Inserted(lin, k, e))
  {
    hide Unanswered, Precedes, Has;
    var more := Inserted(lin, k, e);
    assert more[k] == e && (forall p | 0 <= p < k :: more[p] == lin[p]);
    assert (forall p | k < p < |more| :: more[p] == lin[p - 1]);
    forall j | 0 <= j < |hist| && hist[j].Return?
      ensures Has(more, hist[j].call, hist[j].reply)
    {
      InsertedHas(lin, k, e, hist[j].call, hist[j].reply);
    }
    hide Inserted;
    forall p, q | 0 <= p < q < |more|
      ensures !Precedes(hist, more[q].id, more[p].id)
    {
      if q == k {
        UnansweredPrecedesNothing(hist, e.id, more[p].id);
      } else if p == k {
        assert more[q] == lin[q - 1];
      }
    }
  }

  lemma CalledMatches(hist: seq<Event>, lin: seq<Entry>, c: nat, op: Op)
    requires Matches(hist, lin)
    ensures Matches(hist + [Call(c, op)], lin)
  {
    hide Has;
    var more := hist + [Call(c, op)];
    forall p, q | 0 <= p < q < |lin|
      ensures !Precedes(more, lin[q].id, lin[p].id)
    {
      PrecedesBefore(hist, Call(c, op), lin[q].id, lin[p].id);
    }
  }

  lemma PrecedesBefore(hist: seq<Event>, x: Event, a: nat, b: nat)
    requires b < |hist|
    ensures Precedes(hist + [x], a, b) <==> Precedes(hist, a, b)
  {
    var more := hist + [x];
    forall j | 0 <= j < |hist|
      ensures more[j] == hist[j]
    {
    }
    if Precedes(hist, a, b) {
      var j :| 0 <= j < |hist| && j < b && hist[j].Return? && hist[j].call == a;
      assert more[j] == hist[j];
    }
  }

  lemma RepliedMatches(hist: seq<Event>, lin: seq<Entry>, id: nat, reply: Reply)
    requires Matches(hist, lin) && Has(lin, id, reply)
    ensures Matches(hist + [Return(id, reply)], lin)
  {
    hide Has;
    var more := hist + [Return(id, reply)];
    forall p, q | 0 <= p < q < |lin|
      ensures !Precedes(more, lin[q].id, lin[p].id)
    {
      PrecedesBefore(hist, Return(id, reply), lin[q].id, lin[p].id);
    }
  }

  // ---------- Facts a step starts from ----------

  lemma CallFacts(cap: nat, s: State, c: nat)
    requires Core(cap, s) && At(s, c)
    ensures var x := s.clients[c];
            && ClientOk(s, c) && x.id < |s.hist| && s.hist[x.id] == Call(c, x.op) && Unanswered(s.hist, x.id) && !s.down
            && forall d | 0 <= d < |s.clients| && d != c && s.clients[d].Busy? :: s.clients[d].id != x.id
  {
    hide Replay, WorkerOk, LockHand, PcOk;
    assert ClientOk(s, c);
    forall d | 0 <= d < |s.clients| && d != c && s.clients[d].Busy?
      ensures s.clients[d].id != s.clients[c].id
    {
      assert ClientOk(s, d);
      OtherCall(s, c, d);
    }
  }

  /** The worker of a drop in progress is not published. */
  lemma OldIsUnpublished(cap: nat, s: State)
    requires Core(cap, s) && LockHand(s).OldWorker?
    ensures var w := LockHand(s).w;
            w < |s.workers| && !Published(s, w) && w !in s.dbMap.Values && s.workers[w].name == LockHand(s).db
  {
    assert ClientOk(s, s.lock.value);
  }

  // ---------- Steps that leave run and history alone ----------

  lemma DropKept(st: Store, s: State, t: State)
    requires DropOk(st, s) && LockHand(t) == LockHand(s)
    requires t.lin == s.lin && t.hist == s.hist && t.dropAt == s.dropAt && t.dropTime == s.dropTime
             && |t.workers| >= |s.workers|
    requires LockHand(s).OldWorker? && LockHand(s).w < |s.workers| ==>
               && t.workers[LockHand(s).w].index == s.workers[LockHand(s).w].index
               && (OwnersAreOld(s, LockHand(s).w, s.dropTime) ==> OwnersAreOld(t, LockHand(s).w, s.dropTime))
    ensures DropOk(st, t)
  {
    hide LockHand, OwnersAreOld, NotYetReturned;
  }

  lemma SameContents(s: State, t: State)
    requires t.dbMap == s.dbMap && |t.workers| >= |s.workers|
    requires forall w | 0 <= w < |s.workers| :: t.workers[w].index == s.workers[w].index
    requires forall n | n in s.dbMap :: s.dbMap[n] < |s.workers|
    ensures Contents(t) == Contents(s)
  {
  }

  lemma MapsExist(cap: nat, s: State)
    requires Core(cap, s)
    ensures forall n | n in s.dbMap :: s.dbMap[n] < |s.workers| && s.workers[s.dbMap[n]].name == n
    ensures forall n | n in s.dbMap :: n in Contents(s) && Contents(s)[n] == s.workers[s.dbMap[n]].index
    ensures Contents(s).Keys == s.dbMap.Keys
  {
    hide Replay, WorkerOk, ClientOk;
  }

  /** Only client `c` may have moved. */
  predicate Elsewhere(s: State, t: State, c: nat) {
    |t.clients| == |s.clients| && forall d | 0 <= d < |s.clients| && d != c :: t.clients[d] == s.clients[d]
  }

  /** If `c` now owns a sender of `w`, it did before, for the same call. */
  predicate NoNewOwner(s: State, t: State, c: nat, w: nat) {
    c < |s.clients| && c < |t.clients| && t.clients[c].Busy? && t.clients[c].pc.Owns(w) ==>
      s.clients[c].Busy? && t.clients[c].id == s.clients[c].id && s.clients[c].pc.Owns(w)
  }

  lemma OwnersStayOld(s: State, t: State, c: nat, w: nat, time: nat)
    requires OwnersAreOld(s, w, time) && Elsewhere(s, t, c) && NoNewOwner(s, t, c, w)
    ensures OwnersAreOld(t, w, time)
  {
    hide Pc.Owns;
    forall d | 0 <= d < |t.clients| && t.clients[d].Busy? && t.clients[d].pc.Owns(w)
      ensures t.clients[d].id < time
    {
      assert s.clients[d].pc.Owns(w);
    }
  }

  /** Run, history, map and databases stay. */
  predicate Quiet(s: State, t: State) {
    && t.lin == s.lin && t.hist == s.hist && t.dropAt == s.dropAt && t.dropTime == s.dropTime
    && t.dbMap == s.dbMap && t.down == s.down && |t.workers| >= |s.workers|
    && forall w | 0 <= w < |s.workers| :: t.workers[w].index == s.workers[w].index
  }

  /** At most one client moves, quietly. */
  lemma QuietMove(cap: nat, st: Store, s: State, t: State, c: nat)
    requires Core(cap, s) && LinInv(st, s) && Quiet(s, t) && Elsewhere(s, t, c)
    requires c < |t.clients| ==> Status(s.lin, t.clients[c])
    requires LockHand(t) == LockHand(s) || !LockHand(t).OldWorker?
    requires LockHand(t).OldWorker? ==> NoNewOwner(s, t, c, LockHand(t).w)
    ensures LinInv(st, t)
  {
    hide Core, LockHand, Contents, Matches, Status, Legal, After, OwnersAreOld, Dropping, NoNewOwner;
    MapsExist(cap, s);
    SameContents(s, t);
    if LockHand(t) == LockHand(s) {
      var held := LockHand(s);
      if held.OldWorker? && OwnersAreOld(s, held.w, s.dropTime) {
        OwnersStayOld(s, t, c, held.w, s.dropTime);
      }
      DropKept(st, s, t);
    }
  }

  lemma DisconnectLin(cap: nat, st: Store, s: State, c: nat)
    requires c < |s.clients| && s.clients[c].Ready? && Core(cap, s) && LinInv(st, s)
    ensures LinInv(st, s.(clients := s.clients[c := Gone]))
  {
    hide Core, LockHand, LinInv;
    var t := s.(clients := s.clients[c := Gone]);
    HandKept(s, t, c);
    QuietMove(cap, st, s, t, c);
  }

  lemma LookedUpLin(cap: nat, st: Store, s: State, c: nat)
    requires CanLookup(s, c) && Core(cap, s) && LinInv(st, s)
    ensures LinInv(st, LookedUp(s, c))
  {
    CallFacts(cap, s, c);
    assert Status(s.lin, s.clients[c]);
    hide Core, LockHand, LinInv, Has, Explained;
    var t := LookedUp(s, c);
    HandKept(s, t, c);
    QuietMove(cap, st, s, t, c);
  }

  lemma EnqueuedLin(cap: nat, st: Store, s: State, c: nat)
    requires CanEnqueue(cap, s, c) && Core(cap, s) && LinInv(st, s)
    ensures LinInv(st, Enqueued(cap, s, c))
  {
    assert Status(s.lin, s.clients[c]);
    hide Core, LockHand, LinInv, Has, Explained;
    var t := Enqueued(cap, s, c);
    HandKept(s, t, c);
    QuietMove(cap, st, s, t, c);
  }

  lemma DequeuedLin(cap: nat, st: Store, s: State, w: nat)
    requires CanDequeue(s, w) && Core(cap, s) && LinInv(st, s)
    ensures LinInv(st, Dequeued(s, w))
  {
    hide Core, LockHand, LinInv;
    var t := Dequeued(s, w);
    SameClients(s, t);
    QuietMove(cap, st, s, t, |s.clients|);
  }

  lemma AcquiredLin(cap: nat, st: Store, s: State, c: nat)
    requires CanAcquire(s, c) && Core(cap, s) && LinInv(st, s)
    ensures LinInv(st, Move(s, c, Locked).(lock := Some(c)))
  {
    assert Status(s.lin, s.clients[c]);
    hide Core, LockHand, LinInv, Has, Explained;
    var t := Move(s, c, Locked).(lock := Some(c));
    HandKept(s, t, c);
    QuietMove(cap, st, s, t, c);
  }

  lemma SpawnedLin(cap: nat, st: Store, s: State, c: nat)
    requires CanSpawn(s, c) && Core(cap, s) && LinInv(st, s)
    ensures LinInv(st, SpawnedWorker(s, c))
  {
    SpawnHand(cap, s, c);
    assert Status(s.lin, s.clients[c]);
    hide Core, LockHand, LinInv, Has, Explained, WorkerOk, ClientOk, MapOk, Replay, Manager.Recovered;
    QuietMove(cap, st, s, SpawnedWorker(s, c), c);
  }

  lemma DropSenderLin(cap: nat, st: Store, s: State, c: nat)
    requires At(s, c) && PcOf(s, c).Unpublished? && Core(cap, s) && LinInv(st, s)
    ensures LinInv(st, Move(s, c, Draining(PcOf(s, c).w)))
  {
    assert Status(s.lin, s.clients[c]);
    hide Core, LockHand, LinInv, Has, Explained;
    var t := Move(s, c, Draining(PcOf(s, c).w));
    HandKept(s, t, c);
    QuietMove(cap, st, s, t, c);
  }

  lemma ExitedLin(cap: nat, st: Store, s: State, w: nat)
    requires CanExit(s, w) && Core(cap, s) && LinInv(st, s)
    ensures LinInv(st, Exited(s, w))
  {
    hide Core, LockHand, LinInv, Unheld;
    var t := Exited(s, w);
    SameClients(s, t);
    QuietMove(cap, st, s, t, |s.clients|);
  }

  lemma NoticedLin(cap: nat, st: Store, s: State, c: nat)
    requires CanNotice(s, c) && Core(cap, s) && LinInv(st, s)
    ensures LinInv(st, Noticed(s, c))
  {
    NoticeFacts(cap, s, c);
    assert Status(s.lin, s.clients[c]);
    hide Core, LockHand, LinInv, Has, Explained, WorkerOk, ClientOk, MapOk;
    QuietMove(cap, st, s, Noticed(s, c), c);
  }

  lemma FileRemovedLin(cap: nat, st: Store, s: State, c: nat)
    requires At(s, c) && PcOf(s, c).Drained? && Core(cap, s) && LinInv(st, s)
    ensures LinInv(st, FileRemoved(s, c))
  {
    RemoveFacts(cap, s, c);
    assert Status(s.lin, s.clients[c]);
    hide Core, LockHand, LinInv, Has, Explained, ClientOk, MapOk;
    QuietMove(cap, st, s, FileRemoved(s, c), c);
  }

  lemma UnlockedLin(cap: nat, st: Store, s: State, c: nat)
    requires At(s, c) && PcOf(s, c).Unlocking? && Core(cap, s) && LinInv(st, s)
    ensures LinInv(st, Move(s, c, Leaving(PcOf(s, c).reply)).(lock := None))
  {
    CallFacts(cap, s, c);
    assert Status(s.lin, s.clients[c]);
    hide Core, LockHand, LinInv, Has, Explained;
    var t := Move(s, c, Leaving(PcOf(s, c).reply)).(lock := None);
    HandKept(s, t, c);
    QuietMove(cap, st, s, t, c);
  }

  lemma StalledLin(cap: nat, st: Store, s: State, stalled: set<nat>)
    requires Core(cap, s) && LinInv(st, s)
    ensures LinInv(st, s.(stalled := stalled))
  {
    hide Core, LockHand, LinInv;
    var t := s.(stalled := stalled);
    SameClients(s, t);
    QuietMove(cap, st, s, t, |s.clients|);
  }

  lemma AbortedLin(cap: nat, st: Store, s: State, c: nat)
    requires Responding(s, c) && Core(cap, s) && LinInv(st, s)
    ensures LinInv(st, s.(clients := s.clients[c := Gone]))
  {
    CallFacts(cap, s, c);
    hide Core, LockHand, LinInv;
    var t := s.(clients := s.clients[c := Gone]);
    HandKept(s, t, c);
    QuietMove(cap, st, s, t, c);
  }

  lemma ConnectLin(st: Store, s: State)
    requires LinInv(st, s) && !s.down
    ensures LinInv(st, s.(clients := s.clients + [Ready]))
  {
    hide Matches, Legal, After, Pc.Owns, NotYetReturned, Contents;
    var t := s.(clients := s.clients + [Ready]);
    assert Contents(t) == Contents(s) by { ConnectContents(s); }
    assert LockHand(t) == LockHand(s) || !LockHand(t).OldWorker?;
  }

  lemma ConnectContents(s: State)
    ensures Contents(s.(clients := s.clients + [Ready])) == Contents(s)
  {
  }

  lemma ShutdownLin(cap: nat, st: Store, s: State)
    requires !s.down && (forall c | 0 <= c < |s.clients| :: s.clients[c].Gone?) && Core(cap, s) && LinInv(st, s)
    ensures LinInv(st, s.(dbMap := map[], down := true))
  {
    hide Core, Matches, Legal, After, Contents, Dropping;
    assert LockHand(s).Nothing?;
  }

  // ---------- Steps that extend the history ----------

  lemma LongerHistory(hist: seq<Event>, x: Event, lin: seq<Entry>, at: nat, time: nat)
    requires NotYetReturned(hist, lin, at, time) && time <= |hist|
    ensures NotYetReturned(hist + [x], lin, at, time)
  {
    assert forall j | 0 <= j < time :: (hist + [x])[j] == hist[j];
  }

  /** A call or a response: only the history and one client's standing change. */
  lemma HistoryMove(cap: nat, st: Store, s: State, t: State, c: nat, x: Event)
    requires Core(cap, s) && LinInv(st, s) && t.hist == s.hist + [x] && Elsewhere(s, t, c)
    requires t.lin == s.lin && t.dropAt == s.dropAt && t.dropTime == s.dropTime && t.down == s.down
             && t.dbMap == s.dbMap && t.workers == s.workers
    requires Matches(t.hist, t.lin) && (c < |t.clients| ==> Status(t.lin, t.clients[c]))
    requires LockHand(t) == LockHand(s) && (LockHand(t).OldWorker? ==> NoNewOwner(s, t, c, LockHand(t).w))
    ensures LinInv(st, t)
  {
    hide Core, LockHand, Matches, Status, Legal, After, OwnersAreOld, NotYetReturned, NoNewOwner, Contents;
    MapsExist(cap, s);
    SameContents(s, t);
    var held := LockHand(s);
    if held.OldWorker? {
      OwnersStayOld(s, t, c, held.w, s.dropTime);
      LongerHistory(s.hist, x, s.lin, s.dropAt, s.dropTime);
    }
  }

  lemma NotYetExplained(hist: seq<Event>, lin: seq<Entry>)
    requires Matches(hist, lin)
    ensures !Explained(lin, |hist|)
  {
  }

  lemma CalledLin(cap: nat, st: Store, s: State, c: nat, op: Op)
    requires c < |s.clients| && s.clients[c].Ready? && Core(cap, s) && LinInv(st, s)
    ensures LinInv(st, Called(s, c, op))
  {
    CalledMatches(s.hist, s.lin, c, op);
    NotYetExplained(s.hist, s.lin);
    hide Core, LockHand, LinInv, Has, Explained, Matches;
    var t := Called(s, c, op);
    HandKept(s, t, c);
    HistoryMove(cap, st, s, t, c, Call(c, op));
  }

  lemma RepliedLin(cap: nat, st: Store, s: State, c: nat)
    requires CanReply(s, c) && Core(cap, s) && LinInv(st, s)
    ensures LinInv(st, Replied(s, c))
  {
    assert Status(s.lin, s.clients[c]);
    RepliedMatches(s.hist, s.lin, s.clients[c].id, PcOf(s, c).reply);
    hide Core, LockHand, LinInv, Has, Explained, Matches;
    var t := Replied(s, c);
    HandKept(s, t, c);
    HistoryMove(cap, st, s, t, c, Return(s.clients[c].id, PcOf(s, c).reply));
  }

  // ---------- Steps that extend the run ----------

  /** Client `c`'s call enters the run at position `k`; nobody else moves. */
  lemma GrownMove(cap: nat, st: Store, s: State, t: State, c: nat, k: nat, e: Entry)
    requires Core(cap, s) && LinInv(st, s) && At(s, c) && Elsewhere(s, t, c) && k <= |s.lin|
    requires e.id == s.clients[c].id && e.op == s.clients[c].op && !Explained(s.lin, e.id)
    requires t.lin == Inserted(s.lin, k, e) && t.hist == s.hist && t.down == s.down
    requires forall q | k <= q < |s.lin| :: !Precedes(s.hist, s.lin[q].id, e.id)
    requires c < |t.clients| && t.clients[c].Busy? && t.clients[c].id == e.id && Status(t.lin, t.clients[c])
    requires Legal(st, t.lin) && After(st, t.lin) == Contents(t) && DropOk(st, t)
    ensures LinInv(st, t)
  {
    hide Core, Legal, After, Contents, DropOk, Matches, Status, Inserted, Explained, Unanswered, Precedes;
    CallFacts(cap, s, c);
    InsertedMatches(s.hist, s.lin, k, e);
    forall d | 0 <= d < |t.clients|
      ensures Status(t.lin, t.clients[d])
    {
      if d != c {
        InsertedStatus(s.lin, k, e, s.clients[d]);
      }
    }
  }

  /** Client `c`'s call takes effect last. */
  lemma AppendedMove(cap: nat, st: Store, s: State, t: State, c: nat, e: Entry)
    requires Core(cap, s) && LinInv(st, s) && At(s, c) && Elsewhere(s, t, c)
    requires e.id == s.clients[c].id && e.op == s.clients[c].op && !Explained(s.lin, e.id)
    requires t.lin == s.lin + [e] && t.hist == s.hist && t.down == s.down
    requires c < |t.clients| && t.clients[c].Busy? && t.clients[c].id == e.id
    requires Has(t.lin, e.id, e.reply) ==> Status(t.lin, t.clients[c])
    requires e.reply == Respond(Contents(s), e.op) && Contents(t) == Effect(Contents(s), e.op) && DropOk(st, t)
    ensures LinInv(st, t)
  {
    hide Core, Contents, DropOk, Matches, Status, Explained, Respond, Effect, Has, Precedes, Legal, After;
    CallFacts(cap, s, c);
    Appended(st, s.lin, e);
    assert t.lin == Inserted(s.lin, |s.lin|, e);
    InsertedHas(s.lin, |s.lin|, e, e.id, e.reply);
    GrownMove(cap, st, s, t, c, |s.lin|, e);
  }

  /** A drop in progress stays in order when another call takes effect last. */
  lemma DropAppended(cap: nat, st: Store, s: State, t: State, c: nat, e: Entry)
    requires Core(cap, s) && DropOk(st, s) && LockHand(t) == LockHand(s) && At(s, c) && e.id == s.clients[c].id
             && Elsewhere(s, t, c)
    requires t.lin == s.lin + [e] && t.hist == s.hist && t.dropAt == s.dropAt && t.dropTime == s.dropTime
             && |t.workers| >= |s.workers|
    requires LockHand(s).OldWorker? ==> NoNewOwner(s, t, c, LockHand(s).w)
    requires LockHand(s).OldWorker? && LockHand(s).w < |s.workers| ==>
               t.workers[LockHand(s).w].index == s.workers[LockHand(s).w].index
    ensures DropOk(st, t)
  {
    hide Core, LockHand, OwnersAreOld, NoNewOwner, After;
    CallFacts(cap, s, c);
    var held := LockHand(s);
    if held.OldWorker? {
      OwnersStayOld(s, t, c, held.w, s.dropTime);
      assert t.lin[..s.dropAt] == s.lin[..s.dropAt];
    }
  }

  lemma LoadedLin(cap: nat, st: Store, s: State, c: nat)
    requires CanLoad(s, c) && Core(cap, s) && LinInv(st, s)
    ensures LinInv(st, Loaded(s, c))
  {
    if LockHand(s).OldWorker? {
      OldIsUnpublished(cap, s);
    }
    assert Status(s.lin, s.clients[c]);
    MapsExist(cap, s);
    hide Core, LockHand, LinInv, Has, Explained, Contents, Replay, KeyedReply, KeyedEffect, DropOk;
    var t, x := Loaded(s, c), s.clients[c];
    HandKept(s, t, c);
    if x.op.db in s.dbMap {
      QuietMove(cap, st, s, t, c);
    } else {
      var e := Entry(x.id, x.op, DbNotFound);
      LinDrop(st, s);
      DropAppended(cap, st, s, t, c, e);
      SameContents(s, t);
      AppendedMove(cap, st, s, t, c, e);
    }
  }

  lemma LinDrop(st: Store, s: State)
    requires LinInv(st, s)
    ensures DropOk(st, s)
  {
  }

  lemma HolderFacts(cap: nat, s: State, c: nat)
    requires At(s, c) && PcOf(s, c).HoldsLock() && Core(cap, s)
    ensures ClientOk(s, c) && s.lock == Some(c) && LockHand(s) == HandOf(s.clients[c])
  {
    assert ClientOk(s, c);
  }

  lemma StatusOf(st: Store, s: State, c: nat)
    requires LinInv(st, s) && c < |s.clients|
    ensures Status(s.lin, s.clients[c])
  {
  }

  /** A refusal under the lock takes effect on the spot and changes nothing. */
  lemma RefusedLin(cap: nat, st: Store, s: State, c: nat, reply: Reply)
    requires At(s, c) && PcOf(s, c).Locked? && Core(cap, s) && LinInv(st, s)
    requires reply == Respond(Contents(s), s.clients[c].op) && Effect(Contents(s), s.clients[c].op) == Contents(s)
    ensures LinInv(st, Explain(Move(s, c, Unlocking(reply)), c, reply))
  {
    hide Core, LockHand, LinInv, Has, Explained, Contents, Respond, Effect, ClientOk, Legal, After;
    HolderFacts(cap, s, c);
    StatusOf(st, s, c);
    MapsExist(cap, s);
    var t, x := Explain(Move(s, c, Unlocking(reply)), c, reply), s.clients[c];
    HandKept(s, t, c);
    SameContents(s, t);
    AppendedMove(cap, st, s, t, c, Entry(x.id, x.op, reply));
  }

  lemma CheckedLin(cap: nat, st: Store, s: State, c: nat)
    requires CanCheck(s, c) && Core(cap, s) && LinInv(st, s)
    ensures LinInv(st, Checked(s, c))
  {
    hide Core, LockHand, LinInv, Has, Explained, Contents, ClientOk;
    HolderFacts(cap, s, c);
    StatusOf(st, s, c);
    MapsExist(cap, s);
    var t, op, had := Checked(s, c), s.clients[c].op, Contents(s);
    if (op.Drop? && op.db == DEFAULT) || (op.Create? && op.db in s.dbMap) || (op.Drop? && op.db !in s.dbMap) {
      assert Effect(had, op) == had;
      RefusedLin(cap, st, s, c, Respond(had, op));
    } else {
      HandKept(s, t, c);
      QuietMove(cap, st, s, t, c);
    }
  }

  lemma PublishedContents(s: State, t: State, db: Name, w: nat)
    requires t.workers == s.workers && t.dbMap == s.dbMap[db := w] && db !in s.dbMap && w < |s.workers|
             && s.workers[w].index == map[]
    ensures Contents(t) == Effect(Contents(s), Create(db))
  {
  }

  lemma SpawnedIsEmpty(cap: nat, s: State, c: nat)
    requires CanPublish(s, c) && Core(cap, s)
    ensures s.clients[c].op == Create(s.clients[c].op.db) && PcOf(s, c).w < |s.workers|
            && s.workers[PcOf(s, c).w].index == map[]
  {
    assert ClientOk(s, c);
  }

  lemma PublishedLin(cap: nat, st: Store, s: State, c: nat)
    requires CanPublish(s, c) && Core(cap, s) && LinInv(st, s)
    ensures LinInv(st, PublishedMap(s, c))
  {
    hide Core, LockHand, LinInv, Has, Explained, Contents, Effect, ClientOk, MapOk, RunsAs;
    PublishFacts(cap, s, c);
    SpawnedIsEmpty(cap, s, c);
    StatusOf(st, s, c);
    MapsExist(cap, s);
    var t, x, w := PublishedMap(s, c), s.clients[c], PcOf(s, c).w;
    PublishedContents(s, t, x.op.db, w);
    AppendedMove(cap, st, s, t, c, Entry(x.id, x.op, Done));
  }

  lemma UnpublishedContents(s: State, t: State, db: Name)
    requires t.workers == s.workers && t.dbMap == s.dbMap - {db} && db != DEFAULT
    ensures Contents(t) == Effect(Contents(s), Drop(db))
  {
  }

  /** The drop in progress starts out in order. */
  lemma DropStarts(cap: nat, st: Store, s: State, c: nat)
    requires CanUnpublish(s, c) && Core(cap, s) && LinInv(st, s) && s.clients[c].op.Drop?
    ensures DropOk(st, UnpublishedMap(s, c))
  {
    UnpublishFacts(cap, s, c);
    CallFacts(cap, s, c);
    MapsExist(cap, s);
    AllOld(cap, s);
    var t, x, w := UnpublishedMap(s, c), s.clients[c], PcOf(s, c).w;
    assert t.lin[..t.dropAt] == s.lin;
    hide Core, LockHand, LinInv, Contents, ClientOk, MapOk, After, Pc.Owns;
    assert OwnersAreOld(t, w, t.dropTime);
    assert t.lin[t.dropAt] == Entry(x.id, x.op, Done);
  }

  lemma AllOld(cap: nat, s: State)
    requires Core(cap, s)
    ensures forall c | 0 <= c < |s.clients| :: s.clients[c].Busy? ==> s.clients[c].id < |s.hist|
  {
    hide WorkerOk, PcOk;
    forall c | 0 <= c < |s.clients| && s.clients[c].Busy?
      ensures s.clients[c].id < |s.hist|
    {
      assert ClientOk(s, c);
    }
  }

  lemma RemovedIsDrop(cap: nat, s: State, c: nat)
    requires CanUnpublish(s, c) && Core(cap, s)
    ensures s.clients[c].op == Drop(s.clients[c].op.db)
  {
    assert ClientOk(s, c);
  }

  lemma UnpublishedLin(cap: nat, st: Store, s: State, c: nat)
    requires CanUnpublish(s, c) && Core(cap, s) && LinInv(st, s)
    ensures LinInv(st, UnpublishedMap(s, c))
  {
    hide Core, LockHand, LinInv, Has, Explained, Contents, Effect, ClientOk, MapOk, RunsAs, DropOk;
    UnpublishFacts(cap, s, c);
    RemovedIsDrop(cap, s, c);
    DropStarts(cap, st, s, c);
    StatusOf(st, s, c);
    MapsExist(cap, s);
    var t, x := UnpublishedMap(s, c), s.clients[c];
    UnpublishedContents(s, t, x.op.db);
    AppendedMove(cap, st, s, t, c, Entry(x.id, x.op, Done));
  }

  // ---------- A query finishes ----------

  lemma FinishRun(s: State, w: nat)
    requires CanFinish(s, w)
    ensures var t, m := Finished(s, w), s.workers[w].busy.value;
            var e := Entry(m.id, m.op, KeyedReply(s.workers[w].index, m.op));
            && t.dropTime == s.dropTime && t.hist == s.hist
            && (Published(s, w) ==> t.lin == s.lin + [e] && t.dropAt == s.dropAt)
            && (!Published(s, w) && s.dropAt <= |s.lin| ==>
                  t.lin == Inserted(s.lin, s.dropAt, e) && t.dropAt == s.dropAt + 1)
  {
    hide KeyedReply, KeyedEffect;
  }

  /** What a running query starts from. */
  lemma FinishFacts(cap: nat, st: Store, s: State, w: nat)
    requires CanFinish(s, w) && Core(cap, s) && LinInv(st, s)
    ensures var m := s.workers[w].busy.value;
            && At(s, m.client) && s.clients[m.client] == Busy(m.id, m.op, Sent(w)) && m.op.Keyed()
            && s.workers[w].name == m.op.db
            && !Explained(s.lin, m.id) && (Published(s, w) || (LockHand(s).OldWorker? && LockHand(s).w == w)) && !s.down
            && LockHand(Finished(s, w)) == LockHand(s)
            && (LockHand(s).OldWorker? ==> NoNewOwner(s, Finished(s, w), m.client, LockHand(s).w))
  {
    hide Replay, KeyedReply, KeyedEffect, Finished, WorkerOk, Unanswered;
    BusyIsReady(cap, s, w);
    CallFacts(cap, s, s.workers[w].busy.value.client);
    FinishRoster(cap, s, w);
    FinishShape(s, w);
    assert Status(s.lin, s.clients[s.workers[w].busy.value.client]);
    hide ClientOk, LockHand;
  }

  lemma KeyedSpec(st: Store, op: Op)
    requires op.Keyed() && op.db in st
    ensures Respond(st, op) == KeyedReply(st[op.db], op) && Effect(st, op) == st[op.db := KeyedEffect(st[op.db], op)]
  {
  }

  /** Where a finished query leaves clients and workers. */
  lemma FinishMoves(cap: nat, st: Store, s: State, w: nat)
    requires CanFinish(s, w) && Core(cap, s) && LinInv(st, s)
    ensures var t, m := Finished(s, w), s.workers[w].busy.value;
            && Elsewhere(s, t, m.client) && |t.clients| == |s.clients|
            && t.clients[m.client] == Busy(m.id, m.op, Answered(w, KeyedReply(s.workers[w].index, m.op)))
            && t.down == s.down && |t.workers| == |s.workers|
            && forall v | 0 <= v < |s.workers| && v != w :: t.workers[v] == s.workers[v]
  {
    FinishFacts(cap, st, s, w);
    FinishShape(s, w);
    hide Core, LinInv, KeyedReply, KeyedEffect, Finished, Published, NoNewOwner, LockHand, Explained;
  }

  lemma OneIndexChanges(s: State, t: State, w: nat)
    requires t.dbMap == s.dbMap && |t.workers| == |s.workers| && w < |s.workers|
    requires forall v | 0 <= v < |s.workers| && v != w :: t.workers[v] == s.workers[v]
    requires forall n | n in s.dbMap :: s.dbMap[n] < |s.workers| && s.workers[s.dbMap[n]].name == n
    ensures Contents(t) == if Published(s, w) then Contents(s)[s.workers[w].name := t.workers[w].index] else Contents(s)
  {
  }

  lemma FinishedContents(cap: nat, st: Store, s: State, w: nat)
    requires CanFinish(s, w) && Core(cap, s) && LinInv(st, s)
    ensures var t, m := Finished(s, w), s.workers[w].busy.value;
            if Published(s, w)
            then m.op.db in Contents(s) && Contents(s)[m.op.db] == s.workers[w].index
                 && Contents(t) == Contents(s)[m.op.db := KeyedEffect(s.workers[w].index, m.op)]
            else Contents(t) == Contents(s)
  {
    hide Core, LinInv, KeyedReply, KeyedEffect, Finished, NoNewOwner, LockHand, Explained, Contents, Elsewhere;
    FinishFacts(cap, st, s, w);
    FinishShape(s, w);
    MapsExist(cap, s);
    OneIndexChanges(s, Finished(s, w), w);
  }

  lemma PublishedQuery(cap: nat, st: Store, s: State, w: nat)
    requires CanFinish(s, w) && Core(cap, s) && LinInv(st, s) && Published(s, w)
    ensures LinInv(st, Finished(s, w))
  {
    hide Core, LockHand, LinInv, Has, Explained, Contents, Respond, Effect, KeyedReply, KeyedEffect, Finished, DropOk,
         NoNewOwner, Elsewhere, Published;
    FinishFacts(cap, st, s, w);
    FinishMoves(cap, st, s, w);
    FinishRun(s, w);
    FinishedContents(cap, st, s, w);
    if LockHand(s).OldWorker? {
      OldIsUnpublished(cap, s);
    }
    LinDrop(st, s);
    var t, m := Finished(s, w), s.workers[w].busy.value;
    KeyedSpec(Contents(s), m.op);
    var e := Entry(m.id, m.op, KeyedReply(s.workers[w].index, m.op));
    DropAppended(cap, st, s, t, m.client, e);
    AppendedMove(cap, st, s, t, m.client, e);
  }

  lemma InsertedPrefix(lin: seq<Entry>, k: nat, e: Entry)
    requires k < |lin|
    ensures Inserted(lin, k, e)[..k + 1] == lin[..k] + [e] && Inserted(lin, k, e)[k + 1] == lin[k]
  {
  }

  lemma InsertedNotReturned(hist: seq<Event>, lin: seq<Entry>, k: nat, time: nat, e: Entry)
    requires k <= |lin| && NotYetReturned(hist, lin, k, time)
    ensures NotYetReturned(hist, Inserted(lin, k, e), k + 1, time)
  {
    var more := Inserted(lin, k, e);
    forall q, j | k + 1 <= q < |more| && 0 <= j < time && j < |hist| && hist[j].Return?
      ensures hist[j].call != more[q].id
    {
      assert more[q] == lin[q - 1];
    }
  }

  lemma LinLegal(st: Store, s: State)
    requires LinInv(st, s)
    ensures Legal(st, s.lin)
  {
  }

  /** A late query fits in just before the drop: sequential run and drop stay in order. */
  lemma LateQueryFits(cap: nat, st: Store, s: State, w: nat)
    requires CanFinish(s, w) && Core(cap, s) && LinInv(st, s) && !Published(s, w)
    ensures var t, m := Finished(s, w), s.workers[w].busy.value;
            var e := Entry(m.id, m.op, KeyedReply(s.workers[w].index, m.op));
            && s.dropAt < |s.lin| && t.lin == Inserted(s.lin, s.dropAt, e) && t.dropAt == s.dropAt + 1
            && Legal(st, t.lin) && After(st, t.lin) == After(st, s.lin)
            && m.op.db in After(st, t.lin[..t.dropAt])
            && After(st, t.lin[..t.dropAt])[m.op.db] == KeyedEffect(s.workers[w].index, m.op)
            && LockHand(s) == OldWorker(w, m.op.db) && t.lin[t.dropAt] == s.lin[s.dropAt] && Dropping(st, s, w, m.op.db)
  {
    hide Core, LinInv, LockHand, Contents, Respond, KeyedReply, KeyedEffect, Finished, NoNewOwner, Matches, Status,
         OwnersAreOld, NotYetReturned, Published, Explained;
    FinishFacts(cap, st, s, w);
    FinishRun(s, w);
    OldIsUnpublished(cap, s);
    LinDrop(st, s);
    LinLegal(st, s);
    var m := s.workers[w].busy.value;
    var e := Entry(m.id, m.op, KeyedReply(s.workers[w].index, m.op));
    assert LockHand(s) == OldWorker(w, m.op.db) && Dropping(st, s, w, m.op.db);
    FitsBeforeDrop(st, s.lin, s.dropAt, e);
    InsertedPrefix(s.lin, s.dropAt, e);
  }

  /** Whoever may still query the dropped database called before any later entry returned. */
  lemma LateIsInTime(s: State, w: nat, c: nat, at: nat)
    requires At(s, c) && s.clients[c].pc.Owns(w) && OwnersAreOld(s, w, s.dropTime)
             && NotYetReturned(s.hist, s.lin, at, s.dropTime)
    ensures forall q | at <= q < |s.lin| :: !Precedes(s.hist, s.lin[q].id, s.clients[c].id)
  {
  }

  lemma DropInserted(cap: nat, st: Store, s: State, w: nat)
    requires CanFinish(s, w) && Core(cap, s) && LinInv(st, s) && !Published(s, w)
    ensures DropOk(st, Finished(s, w))
  {
    FinishFacts(cap, st, s, w);
    FinishShape(s, w);
    FinishRun(s, w);
    LateQueryFits(cap, st, s, w);
    hide Core, LinInv, LockHand, Contents, Respond, KeyedReply, KeyedEffect, Finished, NoNewOwner, Matches, Status,
         OwnersAreOld, NotYetReturned, Inserted, After, Legal;
    var t, m := Finished(s, w), s.workers[w].busy.value;
    OwnersStayOld(s, t, m.client, w, s.dropTime);
    InsertedNotReturned(s.hist, s.lin, s.dropAt, s.dropTime, Entry(m.id, m.op, KeyedReply(s.workers[w].index, m.op)));
    assert Dropping(st, t, w, m.op.db);
  }

  lemma LinAfter(st: Store, s: State)
    requires LinInv(st, s) && !s.down
    ensures After(st, s.lin) == Contents(s)
  {
  }

  lemma LateQueryInTime(cap: nat, st: Store, s: State, w: nat)
    requires CanFinish(s, w) && Core(cap, s) && LinInv(st, s) && !Published(s, w)
    ensures var id := s.workers[w].busy.value.id;
            forall q | s.dropAt <= q < |s.lin| :: !Precedes(s.hist, s.lin[q].id, id)
  {
    FinishFacts(cap, st, s, w);
    LateQueryFits(cap, st, s, w);
    hide Core, LinInv, Finished, After, Legal, Precedes, NoNewOwner, LockHand, Explained, KeyedReply, KeyedEffect,
         Inserted;
    LateIsInTime(s, w, s.workers[w].busy.value.client, s.dropAt);
  }

  lemma LateQuery(cap: nat, st: Store, s: State, w: nat)
    requires CanFinish(s, w) && Core(cap, s) && LinInv(st, s) && !Published(s, w)
    ensures LinInv(st, Finished(s, w))
  {
    hide Core, LockHand, Has, Explained, Contents, KeyedReply, KeyedEffect, Finished, DropOk, NoNewOwner, Dropping,
         Inserted, Precedes, Legal, After, LinInv, Elsewhere, Published;
    var t, m := Finished(s, w), s.workers[w].busy.value;
    var e := Entry(m.id, m.op, KeyedReply(s.workers[w].index, m.op));
    FinishFacts(cap, st, s, w);
    FinishMoves(cap, st, s, w);
    FinishRun(s, w);
    FinishedContents(cap, st, s, w);
    LateQueryFits(cap, st, s, w);
    DropInserted(cap, st, s, w);
    LateQueryInTime(cap, st, s, w);
    LinAfter(st, s);
    InsertedHas(s.lin, s.dropAt, e, m.id, e.reply);
    GrownMove(cap, st, s, t, m.client, s.dropAt, e);
  }

  lemma FinishedLin(cap: nat, st: Store, s: State, w: nat)
    requires CanFinish(s, w) && Core(cap, s) && LinInv(st, s)
    ensures LinInv(st, Finished(s, w))
  {
    hide Core, LinInv, Finished;
    if Published(s, w) {
      PublishedQuery(cap, st, s, w);
    } else {
      LateQuery(cap, st, s, w);
    }
  }

  // ---------- All runs ----------

  lemma StepLin(cap: nat, st: Store, s: State, a: Action)
    requires Enabled(cap, s, a) && Core(cap, s) && LinInv(st, s)
    ensures LinInv(st, Next(cap, s, a))
  {
    hide Core, LinInv, Loaded, LookedUp, Enqueued, Dequeued, Finished, Checked, SpawnedWorker, PublishedMap,
         UnpublishedMap, Exited, Noticed, FileRemoved, Replied, Called;
    match a
    case Connect => ConnectLin(st, s);
    case Disconnect(c) => DisconnectLin(cap, st, s, c);
    case Invoke(c, op) => CalledLin(cap, st, s, c, op);
    case Load(c) => LoadedLin(cap, st, s, c);
    case Lookup(c) => LookedUpLin(cap, st, s, c);
    case Enqueue(c) => EnqueuedLin(cap, st, s, c);
    case Dequeue(w) => DequeuedLin(cap, st, s, w);
    case Finish(w) => FinishedLin(cap, st, s, w);
    case Acquire(c) => AcquiredLin(cap, st, s, c);
    case Check(c) => CheckedLin(cap, st, s, c);
    case Spawn(c) => SpawnedLin(cap, st, s, c);
    case Publish(c) => PublishedLin(cap, st, s, c);
    case Unpublish(c) => UnpublishedLin(cap, st, s, c);
    case DropSender(c) => DropSenderLin(cap, st, s, c);
    case Exit(w) => ExitedLin(cap, st, s, w);
    case Notice(c) => NoticedLin(cap, st, s, c);
    case RemoveFile(c) => FileRemovedLin(cap, st, s, c);
    case Unlock(c) => UnlockedLin(cap, st, s, c);
    case Reply(c) => RepliedLin(cap, st, s, c);
    case Stall(c) => StalledLin(cap, st, s, s.stalled + {c});
    case Resume(c) => StalledLin(cap, st, s, s.stalled - {c});
    case Abort(c) => AbortedLin(cap, st, s, c);
    case Shutdown => ShutdownLin(cap, st, s);
  }

  lemma {:induction false} RunInv(cap: nat, tr: seq<State>, i: nat)
    requires Run(cap, tr) && i < |tr|
    ensures Core(cap, tr[i]) && LinInv(Contents(tr[0]), tr[i])
  {
    hide Core, LinInv, Contents, Enabled, Next;
    if i == 0 {
      InitialCore(cap, tr[0]);
      InitialLin(tr[0]);
    } else {
      RunInv(cap, tr, i - 1);
      assert Moves(cap, tr[i - 1], tr[i - 1 + 1]);
      var a :| Enabled(cap, tr[i - 1], a) && tr[i] == Next(cap, tr[i - 1], a);
      StepCore(cap, tr[i - 1], a);
      StepLin(cap, Contents(tr[0]), tr[i - 1], a);
    }
  }

  lemma InitialLin(s: State)
    requires Initial(s)
    ensures LinInv(Contents(s), s)
  {
    hide Contents, Replay;
  }

  /** Every history the service can show, at any moment of any run, is explained by some sequential run over the
      databases it started with. */
  lemma RunIsLinearizable(cap: nat, tr: seq<State>, i: nat)
    requires Run(cap, tr) && i < |tr|
    ensures Linearizable(Contents(tr[0]), tr[i].hist)
  {
    hide Contents, Run, Core;
    RunInv(cap, tr, i);
    LinExplains(Contents(tr[0]), tr[i]);
  }

  lemma LinExplains(st: Store, s: State)
    requires LinInv(st, s)
    ensures Explains(st, s.hist, s.lin)
  {
    hide Legal, Precedes, DropOk, Contents, After, Status;
    forall j | 0 <= j < |s.hist| && s.hist[j].Return?
      ensures exists p :: 0 <= p < |s.lin| && s.lin[p].id == s.hist[j].call && s.lin[p].reply == s.hist[j].reply
    {
      assert Has(s.lin, s.hist[j].call, s.hist[j].reply);
    }
  }
}
