/** What every reachable state of the manager satisfies. */
module ManagerInv {
  import opened Bytes
  import opened Log
  import opened Service
  import opened Manager

  // ---------- Vocabulary ----------

  predicate Unanswered(hist: seq<Event>, id: nat) {
    forall j | 0 <= j < |hist| :: hist[j].Return? ==> hist[j].call != id
  }

  predicate Explained(lin: seq<Entry>, id: nat) {
    exists p :: 0 <= p < |lin| && lin[p].id == id
  }

  /** What a client has in hand while it owns the lock. */
  datatype Hand = Nothing | NewWorker(w: nat, db: Name) | OldWorker(w: nat, db: Name) | OldFile(db: Name)

  function HandOf(x: Client): Hand {
    if !x.Busy? then Nothing
    else match x.pc
    case Spawned(_, w) => NewWorker(w, x.op.db)
    case Unpublished(w) => OldWorker(w, x.op.db)
    case Draining(w) => OldWorker(w, x.op.db)
    case Drained(_) => OldFile(x.op.db)
    case _ => Nothing
  }

  /** The hand of the lock holder: the one name and worker the published map does not tell about. */
  function LockHand(s: State): Hand {
    if s.lock.Some? && s.lock.value < |s.clients| then HandOf(s.clients[s.lock.value]) else Nothing
  }

  predicate Names(s: State, w: nat, n: Name) {
    w < |s.workers| && s.workers[w].name == n
  }

  predicate RunsAs(s: State, w: nat, n: Name) {
    Running(s, w) && s.workers[w].name == n
  }

  /** Every running worker is published or in the lock holder's hand, until shutdown. */
  predicate Accounted(s: State, w: nat) {
    || Published(s, w) || s.down
    || ((LockHand(s).NewWorker? || LockHand(s).OldWorker?) && LockHand(s).w == w)
  }

  /** A sender of this worker may be around. */
  predicate Reached(s: State, w: nat, n: Name) {
    RunsAs(s, w, n) && (Published(s, w) || (LockHand(s).OldWorker? && LockHand(s).w == w))
  }

  // ---------- Maps, lock and clients ----------

  predicate MapOk(s: State) {
    && (forall n | n in s.dbMap :: RunsAs(s, s.dbMap[n], n))
    && (if s.down then s.dbMap == map[] && (forall c | 0 <= c < |s.clients| :: s.clients[c].Gone?)
        else DEFAULT in s.dbMap)
    && (s.lock.Some? ==> At(s, s.lock.value) && PcOf(s, s.lock.value).HoldsLock())
  }

  predicate PcOk(s: State, op: Op, pc: Pc) {
    match pc
    case Start => true
    case Viewing(view) => op.Keyed() && forall n | n in view :: Reached(s, view[n], n)
    case Holding(w) => op.Keyed() && Reached(s, w, op.db)
    case Sent(w) => op.Keyed() && Reached(s, w, op.db)
    case Answered(w, _) => op.Keyed() && Reached(s, w, op.db)
    case Locked => !op.Keyed()
    case Copied(dbs) => op.Create? && dbs == s.dbMap && op.db !in s.dbMap
    case Spawned(dbs, w) =>
      && op.Create? && op.db !in s.dbMap && dbs == s.dbMap[op.db := w] && RunsAs(s, w, op.db)
      && s.workers[w].index == map[] && s.workers[w].queue == [] && s.workers[w].busy.None?
    case Removed(dbs, w) => op.Drop? && op.db != DEFAULT && op.db in s.dbMap && w == s.dbMap[op.db]
    && dbs == s.dbMap - {op.db}
    case Unpublished(w) => op.Drop? && op.db != DEFAULT && op.db !in s.dbMap && RunsAs(s, w, op.db)
    case Draining(w) =>
      && op.Drop? && op.db != DEFAULT && op.db !in s.dbMap && Names(s, w, op.db)
      && (s.workers[w].alive || s.workers[w].permit)
    case Drained(w) => op.Drop? && op.db != DEFAULT && op.db !in s.dbMap && Names(s, w, op.db) && !s.workers[w].alive
    case Unlocking(_) => true
    case Leaving(_) => true
  }

  predicate ClientOk(s: State, c: nat)
    requires c < |s.clients|
  {
    match s.clients[c]
    case Busy(id, op, pc) =>
      && PcOk(s, op, pc)
      && (pc.HoldsLock() ==> s.lock == Some(c))
      && id < |s.hist| && s.hist[id] == Call(c, op) && Unanswered(s.hist, id)
      && (pc.Start? || pc.Viewing? || pc.Holding? ==> forall w | 0 <= w < |s.workers| :: id !in s.workers[w].accepted)
      && (pc.Sent? ==> Message(c, id, op) in s.workers[pc.w].Pending())
    case _ => true
  }

  // ---------- Workers and files ----------

  predicate MessageOk(s: State, w: nat, m: Message) {
    m.client < |s.clients| && s.clients[m.client] == Busy(m.id, m.op, Sent(w))
  }

  function Ids(ms: seq<Message>): seq<nat> {
    seq(|ms|, i requires 0 <= i < |ms| => ms[i].id)
  }

  predicate Distinct(ids: seq<nat>) {
    forall i, j | 0 <= i < j < |ids| :: ids[i] != ids[j]
  }

  predicate WorkerOk(cap: nat, s: State, w: nat)
    requires w < |s.workers|
  {
    var x := s.workers[w];
    && (x.alive ==> Accounted(s, w))
    && (!x.alive ==> x.queue == [] && x.busy.None?) && (x.permit ==> !x.alive)
    && |x.queue| <= cap
    && (forall i | 0 <= i < |x.Pending()| :: MessageOk(s, w, x.Pending()[i]))
    && x.accepted == x.answered + Ids(x.Pending()) && Distinct(x.accepted)
    && (forall i | 0 <= i < |x.accepted| :: x.accepted[i] < |s.hist|)
    && (x.alive ==> x.name in s.files && Replay(s.files[x.name]) == x.index)
  }

  predicate FilesOk(s: State) {
    forall n | n in s.files :: n in s.dbMap || (!LockHand(s).Nothing? && LockHand(s).db == n) || s.down
  }

  /** Responses name earlier calls. */
  predicate HistOk(hist: seq<Event>) {
    forall j | 0 <= j < |hist| && hist[j].Return? :: hist[j].call < j && hist[hist[j].call].Call?
  }

  /** No two running workers own the same file. */
  predicate SingleWriter(s: State) {
    forall v, w | 0 <= v < w < |s.workers| ::
      s.workers[v].alive && s.workers[w].alive ==> s.workers[v].name != s.workers[w].name
  }

  ghost predicate Core(cap: nat, s: State) {
    && SingleWriter(s) && MapOk(s) && FilesOk(s) && HistOk(s.hist)
    && (forall c | 0 <= c < |s.clients| :: ClientOk(s, c))
    && (forall w | 0 <= w < |s.workers| :: WorkerOk(cap, s, w))
  }

  lemma InitialCore(cap: nat, s: State)
    requires Initial(s)
    ensures Core(cap, s)
  {
    hide Replay;
  }

  // ---------- What a step leaves alone ----------

  lemma WorkerFrame(cap: nat, s: State, t: State, w: nat)
    requires w < |s.workers| && w < |t.workers| && t.workers[w] == s.workers[w] && WorkerOk(cap, s, w)
    requires s.workers[w].alive ==> Accounted(t, w)
    requires s.workers[w].alive && s.workers[w].name in s.files ==>
               s.workers[w].name in t.files && t.files[s.workers[w].name] == s.files[s.workers[w].name]
    requires |s.hist| <= |t.hist|
    requires forall m | MessageOk(s, w, m) :: MessageOk(t, w, m)
    ensures WorkerOk(cap, t, w)
  {
    hide Replay;
    forall i | 0 <= i < |t.workers[w].Pending()|
      ensures MessageOk(t, w, t.workers[w].Pending()[i])
    {
      assert MessageOk(s, w, s.workers[w].Pending()[i]);
    }
  }

  /** What `c` may have done to history and lock without another client `d` noticing. */
  predicate OnlyMoved(s: State, t: State, c: nat) {
    && c < |s.clients| && |t.clients| == |s.clients| && t.clients == s.clients[c := t.clients[c]]
    && t.workers == s.workers && t.files == s.files && t.dbMap == s.dbMap && t.down == s.down && s.hist <= t.hist
    && (forall j | |s.hist| <= j < |t.hist| ::
          t.hist[j].Return? ==> s.clients[c].Busy? && t.hist[j].call == s.clients[c].id)
    && (t.lock == s.lock || (s.lock.None? && t.lock == Some(c)) || (s.lock == Some(c) && t.lock.None?))
    && LockHand(t) == LockHand(s)
  }

  lemma StillUnanswered(s: State, t: State, c: nat, d: nat)
    requires OnlyMoved(s, t, c) && d < |s.clients| && d != c && ClientOk(s, c) && ClientOk(s, d) && s.clients[d].Busy?
    ensures Unanswered(t.hist, s.clients[d].id)
  {
    hide LockHand, PcOk;
    forall j | 0 <= j < |t.hist| && t.hist[j].Return?
      ensures t.hist[j].call != s.clients[d].id
    {
      if j < |s.hist| {
        assert t.hist[j] == s.hist[j];
      }
    }
  }

  lemma MovedBystander(s: State, t: State, c: nat, d: nat)
    requires OnlyMoved(s, t, c) && d < |s.clients| && d != c && ClientOk(s, c) && ClientOk(s, d)
    ensures ClientOk(t, d)
  {
    hide LockHand;
    if s.clients[d].Busy? {
      StillUnanswered(s, t, c, d);
      assert PcOk(s, s.clients[d].op, s.clients[d].pc);
      hide Unanswered;
    }
  }

  /** One connection moves; maps, workers and files stay. */
  lemma ClientMoves(cap: nat, s: State, t: State, c: nat)
    requires Core(cap, s) && OnlyMoved(s, t, c) && ClientOk(t, c) && MapOk(t) && HistOk(t.hist)
    requires s.clients[c].Busy? ==> !s.clients[c].pc.Sent?
    ensures Core(cap, t)
  {
    hide Replay, LockHand;
    forall w | 0 <= w < |t.workers|
      ensures WorkerOk(cap, t, w)
    {
      assert WorkerOk(cap, s, w);
      hide ClientOk;
      WorkerFrame(cap, s, t, w);
    }
    hide WorkerOk, OnlyMoved;
    forall d | 0 <= d < |t.clients| && d != c
      ensures ClientOk(t, d)
    {
      MovedBystander(s, t, c, d);
    }
  }

  // ---------- Steps ----------

  lemma ConnectCore(cap: nat, s: State)
    requires !s.down && Core(cap, s)
    ensures Core(cap, s.(clients := s.clients + [Ready]))
  {
    hide Replay;
    var t := s.(clients := s.clients + [Ready]);
    forall w | 0 <= w < |t.workers|
      ensures WorkerOk(cap, t, w)
    {
      assert WorkerOk(cap, s, w);
      forall m | MessageOk(s, w, m)
        ensures MessageOk(t, w, m)
      {
      }
      WorkerFrame(cap, s, t, w);
    }
    forall c | 0 <= c < |s.clients|
      ensures ClientOk(t, c)
    {
      assert ClientOk(s, c);
    }
  }

  lemma HandKept(s: State, t: State, c: nat)
    requires c < |s.clients| && |t.clients| == |s.clients| && t.clients == s.clients[c := t.clients[c]]
    requires HandOf(t.clients[c]) == HandOf(s.clients[c])
    requires t.lock == s.lock || (HandOf(s.clients[c]).Nothing? &&
               ((s.lock.None? && t.lock == Some(c)) || (s.lock == Some(c) && t.lock.None?)))
    ensures LockHand(t) == LockHand(s)
  {
  }

  lemma DisconnectCore(cap: nat, s: State, c: nat)
    requires c < |s.clients| && s.clients[c].Ready? && Core(cap, s)
    ensures Core(cap, s.(clients := s.clients[c := Gone]))
  {
    hide Replay, WorkerOk, LockHand;
    var t := s.(clients := s.clients[c := Gone]);
    HandKept(s, t, c);
    ClientMoves(cap, s, t, c);
  }

  lemma CalledCore(cap: nat, s: State, c: nat, op: Op)
    requires c < |s.clients| && s.clients[c].Ready? && Core(cap, s)
    ensures Core(cap, Called(s, c, op))
  {
    hide Replay, LockHand;
    var t := Called(s, c, op);
    forall w | 0 <= w < |s.workers|
      ensures |s.hist| !in s.workers[w].accepted
    {
      assert WorkerOk(cap, s, w);
    }
    hide WorkerOk;
    HandKept(s, t, c);
    assert ClientOk(t, c);
    ClientMoves(cap, s, t, c);
  }

  lemma LoadedCore(cap: nat, s: State, c: nat)
    requires CanLoad(s, c) && Core(cap, s)
    ensures Core(cap, Loaded(s, c))
  {
    hide Replay, WorkerOk, LockHand;
    var t := Loaded(s, c);
    assert ClientOk(s, c);
    HandKept(s, t, c);
    assert ClientOk(t, c);
    ClientMoves(cap, s, t, c);
  }

  lemma LookedUpCore(cap: nat, s: State, c: nat)
    requires CanLookup(s, c) && Core(cap, s)
    ensures Core(cap, LookedUp(s, c))
  {
    hide Replay, WorkerOk, LockHand;
    var t := LookedUp(s, c);
    assert ClientOk(s, c);
    HandKept(s, t, c);
    assert ClientOk(t, c);
    ClientMoves(cap, s, t, c);
  }

  lemma AcquiredCore(cap: nat, s: State, c: nat)
    requires CanAcquire(s, c) && Core(cap, s)
    ensures Core(cap, Move(s, c, Locked).(lock := Some(c)))
  {
    hide Replay, WorkerOk, LockHand;
    var t := Move(s, c, Locked).(lock := Some(c));
    assert ClientOk(s, c);
    HandKept(s, t, c);
    assert ClientOk(t, c);
    ClientMoves(cap, s, t, c);
  }

  lemma CheckedClient(cap: nat, s: State, c: nat)
    requires CanCheck(s, c) && Core(cap, s)
    ensures ClientOk(Checked(s, c), c)
  {
    hide Replay, WorkerOk, LockHand;
    assert ClientOk(s, c);
  }

  lemma CheckedMap(cap: nat, s: State, c: nat)
    requires CanCheck(s, c) && Core(cap, s)
    ensures MapOk(Checked(s, c)) && LockHand(Checked(s, c)) == LockHand(s)
  {
    hide Replay, WorkerOk, LockHand, ClientOk;
    HandKept(s, Checked(s, c), c);
  }

  lemma CheckedShape(s: State, c: nat)
    requires CanCheck(s, c)
    ensures var t := Checked(s, c);
            && |t.clients| == |s.clients| && t.clients == s.clients[c := t.clients[c]]
            && t.workers == s.workers && t.files == s.files && t.dbMap == s.dbMap && t.down == s.down
            && t.hist == s.hist && t.lock == s.lock
  {
  }

  lemma CheckedCore(cap: nat, s: State, c: nat)
    requires CanCheck(s, c) && Core(cap, s)
    ensures Core(cap, Checked(s, c))
  {
    hide Replay, WorkerOk, LockHand, ClientOk, MapOk, Core, HistOk, Checked;
    CoreHist(cap, s);
    CheckedShape(s, c);
    CheckedClient(cap, s, c);
    CheckedMap(cap, s, c);
    ClientMoves(cap, s, Checked(s, c), c);
  }

  lemma CoreHist(cap: nat, s: State)
    requires Core(cap, s)
    ensures HistOk(s.hist)
  {
  }

  lemma DropSenderCore(cap: nat, s: State, c: nat)
    requires At(s, c) && PcOf(s, c).Unpublished? && Core(cap, s)
    ensures Core(cap, Move(s, c, Draining(PcOf(s, c).w)))
  {
    hide Replay, WorkerOk, LockHand;
    var t := Move(s, c, Draining(PcOf(s, c).w));
    assert ClientOk(s, c);
    HandKept(s, t, c);
    assert ClientOk(t, c);
    ClientMoves(cap, s, t, c);
  }

  lemma UnlockedCore(cap: nat, s: State, c: nat)
    requires At(s, c) && PcOf(s, c).Unlocking? && Core(cap, s)
    ensures Core(cap, Move(s, c, Leaving(PcOf(s, c).reply)).(lock := None))
  {
    hide Replay, WorkerOk, LockHand;
    var t := Move(s, c, Leaving(PcOf(s, c).reply)).(lock := None);
    assert ClientOk(s, c);
    HandKept(s, t, c);
    assert ClientOk(t, c);
    ClientMoves(cap, s, t, c);
  }

  lemma RepliedCore(cap: nat, s: State, c: nat)
    requires CanReply(s, c) && Core(cap, s)
    ensures Core(cap, Replied(s, c))
  {
    hide Replay, WorkerOk, LockHand;
    var t := Replied(s, c);
    assert ClientOk(s, c);
    HandKept(s, t, c);
    assert ClientOk(t, c);
    ClientMoves(cap, s, t, c);
  }

  // ---------- Steps that change a worker ----------

  /** Two different clients never share a call. */
  lemma OtherCall(s: State, c: nat, d: nat)
    requires c < |s.clients| && d < |s.clients| && c != d && ClientOk(s, c) && ClientOk(s, d)
    requires s.clients[c].Busy? && s.clients[d].Busy?
    ensures s.clients[c].id != s.clients[d].id
  {
  }

  lemma PendingKept(x: Worker, y: Worker)
    requires y.busy == x.busy && x.queue <= y.queue
    ensures forall m | m in x.Pending() :: m in y.Pending()
    ensures y.Pending() == x.Pending() + y.queue[|x.queue|..]
  {
    assert y.queue == x.queue + y.queue[|x.queue|..];
  }

  lemma IdsAppend(a: seq<Message>, b: seq<Message>)
    ensures Ids(a + b) == Ids(a) + Ids(b)
  {
  }

  lemma EnqueueWorker(cap: nat, s: State, c: nat)
    requires CanEnqueue(cap, s, c) && Core(cap, s)
    ensures WorkerOk(cap, Enqueued(cap, s, c), PcOf(s, c).w)
  {
    hide Replay, LockHand;
    var t, w := Enqueued(cap, s, c), PcOf(s, c).w;
    assert ClientOk(s, c) && WorkerOk(cap, s, w);
    HandKept(s, t, c);
    var x, y, m := s.workers[w], t.workers[w], Message(c, s.clients[c].id, s.clients[c].op);
    PendingKept(x, y);
    assert y.Pending() == x.Pending() + [m];
    IdsAppend(x.Pending(), [m]);
    assert Ids([m]) == [m.id];
    forall i | 0 <= i < |y.Pending()|
      ensures MessageOk(t, w, y.Pending()[i])
    {
      if i < |x.Pending()| {
        assert MessageOk(s, w, x.Pending()[i]);
      }
    }
  }

  /** The same workers run under the same names, and the spawned one is untouched. */
  predicate SameRoster(s: State, t: State) {
    && t.dbMap == s.dbMap && t.down == s.down && t.lock == s.lock && LockHand(t) == LockHand(s)
    && |t.workers| == |s.workers|
    && (forall v | 0 <= v < |s.workers| ::
          t.workers[v].name == s.workers[v].name && t.workers[v].alive == s.workers[v].alive
          && t.workers[v].permit == s.workers[v].permit)
    && (LockHand(s).NewWorker? && LockHand(s).w < |s.workers| ==> t.workers[LockHand(s).w] == s.workers[LockHand(s).w])
  }

  lemma PcKept(s: State, t: State, c: nat)
    requires SameRoster(s, t) && c < |s.clients| && ClientOk(s, c) && s.clients[c].Busy?
    ensures PcOk(t, s.clients[c].op, s.clients[c].pc)
  {
    hide Replay;
    var op, pc := s.clients[c].op, s.clients[c].pc;
    forall v, n | Reached(s, v, n)
      ensures Reached(t, v, n)
    {
    }
    forall v, n | RunsAs(s, v, n)
      ensures RunsAs(t, v, n)
    {
    }
    hide Reached, RunsAs;
  }

  /** One worker's queue moves, and at most one client with it. */
  lemma QueueMoves(cap: nat, s: State, t: State, w: nat, c: nat)
    requires Core(cap, s) && SameRoster(s, t) && t.hist == s.hist
    requires w < |s.workers| && t.workers == s.workers[w := t.workers[w]] && WorkerOk(cap, t, w)
    requires c < |s.clients| && |t.clients| == |s.clients| && t.clients == s.clients[c := t.clients[c]]
             && ClientOk(t, c)
    requires forall v: nat, m | v != w && MessageOk(s, v, m) :: m.client != c
    requires MapOk(t)
    requires t.files.Keys == s.files.Keys
    requires s.workers[w].alive && forall n | n in s.files && n != s.workers[w].name :: t.files[n] == s.files[n]
    requires forall m | m in s.workers[w].Pending() && m.client != c :: m in t.workers[w].Pending()
    requires forall id | id in t.workers[w].accepted && id !in s.workers[w].accepted ::
               s.clients[c].Busy? && id == s.clients[c].id
    ensures Core(cap, t)
  {
    hide Replay, LockHand;
    forall v | 0 <= v < |t.workers| && v != w
      ensures WorkerOk(cap, t, v)
    {
      assert WorkerOk(cap, s, v);
      WorkerFrame(cap, s, t, v);
    }
    hide WorkerOk;
    forall d | 0 <= d < |t.clients| && d != c
      ensures ClientOk(t, d)
    {
      assert ClientOk(s, d);
      assert ClientOk(s, c);
      if s.clients[d].Busy? {
        if s.clients[c].Busy? {
          OtherCall(s, c, d);
        }
        PcKept(s, t, d);
        QueueMovesClient(s, t, w, c, d);
      }
    }
  }

  lemma QueueMovesClient(s: State, t: State, w: nat, c: nat, d: nat)
    requires c < |s.clients| && d < |s.clients| && c != d && |t.clients| == |s.clients| && t.clients[d] == s.clients[d]
    requires s.clients[d].Busy? && ClientOk(s, d) && PcOk(t, s.clients[d].op, s.clients[d].pc)
    requires s.clients[c].Busy? ==> s.clients[c].id != s.clients[d].id
    requires t.lock == s.lock && t.hist == s.hist
    requires w < |s.workers| == |t.workers| && t.workers == s.workers[w := t.workers[w]]
    requires forall m | m in s.workers[w].Pending() && m.client != c :: m in t.workers[w].Pending()
    requires forall id | id in t.workers[w].accepted && id !in s.workers[w].accepted ::
               s.clients[c].Busy? && id == s.clients[c].id
    ensures ClientOk(t, d)
  {
    hide LockHand, Replay;
  }

  lemma NotNew(cap: nat, s: State, w: nat, n: Name)
    requires Core(cap, s) && Reached(s, w, n)
    ensures !(LockHand(s).NewWorker? && LockHand(s).w == w)
  {
    hide WorkerOk;
    if LockHand(s).NewWorker? {
      assert ClientOk(s, s.lock.value);
    }
  }

  lemma EnqueueClient(cap: nat, s: State, c: nat)
    requires CanEnqueue(cap, s, c) && Core(cap, s)
    ensures ClientOk(Enqueued(cap, s, c), c)
  {
    assert ClientOk(s, c);
    hide Replay, LockHand, WorkerOk, MapOk;
    var t := Enqueued(cap, s, c);
    HandKept(s, t, c);
    PendingKept(s.workers[PcOf(s, c).w], t.workers[PcOf(s, c).w]);
  }

  lemma EnqueueRoster(cap: nat, s: State, c: nat)
    requires CanEnqueue(cap, s, c) && Core(cap, s)
    ensures MapOk(Enqueued(cap, s, c)) && SameRoster(s, Enqueued(cap, s, c))
  {
    assert ClientOk(s, c);
    NotNew(cap, s, PcOf(s, c).w, s.clients[c].op.db);
    hide Replay, LockHand, WorkerOk, ClientOk;
    HandKept(s, Enqueued(cap, s, c), c);
  }

  lemma EnqueueCore(cap: nat, s: State, c: nat)
    requires CanEnqueue(cap, s, c) && Core(cap, s)
    ensures Core(cap, Enqueued(cap, s, c))
  {
    hide Replay, LockHand, WorkerOk, ClientOk, MapOk, FilesOk, SameRoster, Core;
    var t, w := Enqueued(cap, s, c), PcOf(s, c).w;
    EnqueueClient(cap, s, c);
    EnqueueRoster(cap, s, c);
    EnqueueWorker(cap, s, c);
    PendingKept(s.workers[w], t.workers[w]);
    HolderAlive(cap, s, c);
    QueueMoves(cap, s, t, w, c);
  }

  lemma HolderAlive(cap: nat, s: State, c: nat)
    requires At(s, c) && PcOf(s, c).Holding? && Core(cap, s)
    ensures Running(s, PcOf(s, c).w)
  {
    assert ClientOk(s, c);
  }

  lemma DequeuePending(s: State, w: nat)
    requires CanDequeue(s, w)
    ensures var x, y := s.workers[w], Dequeued(s, w).workers[w];
            && y == x.(busy := y.busy, queue := y.queue) && |y.queue| < |x.queue|
            && y.Pending() == x.Pending() && x.Pending()[0] == x.queue[0]
  {
    var x, y := s.workers[w], Dequeued(s, w).workers[w];
    assert y.Pending() == x.Pending();
  }

  lemma DequeueRoster(cap: nat, s: State, w: nat)
    requires CanDequeue(s, w) && Core(cap, s)
    ensures var t, m := Dequeued(s, w), s.workers[w].queue[0];
            SameRoster(s, t) && MapOk(t) && MessageOk(s, w, m) && ClientOk(s, m.client)
  {
    hide Replay, Ids;
    DequeuePending(s, w);
    assert WorkerOk(cap, s, w) && MessageOk(s, w, s.workers[w].Pending()[0]);
    var m := s.workers[w].queue[0];
    assert ClientOk(s, m.client);
    NotNew(cap, s, w, m.op.db);
    SameClients(s, Dequeued(s, w));
    hide WorkerOk, ClientOk, LockHand;
  }

  lemma DequeueWorker(cap: nat, s: State, w: nat)
    requires CanDequeue(s, w) && Core(cap, s)
    ensures WorkerOk(cap, Dequeued(s, w), w)
  {
    assert WorkerOk(cap, s, w);
    hide Core, Replay, Ids, LockHand;
    DequeuePending(s, w);
    DequeueRoster(cap, s, w);
    var t := Dequeued(s, w);
    forall i | 0 <= i < |t.workers[w].Pending()|
      ensures MessageOk(t, w, t.workers[w].Pending()[i])
    {
      assert MessageOk(s, w, s.workers[w].Pending()[i]);
    }
  }

  lemma DequeueClient(cap: nat, s: State, w: nat)
    requires CanDequeue(s, w) && Core(cap, s) && s.workers[w].queue[0].client < |s.clients|
    ensures ClientOk(Dequeued(s, w), s.workers[w].queue[0].client)
  {
    hide Core, Replay, LockHand;
    DequeuePending(s, w);
    DequeueRoster(cap, s, w);
    PcKept(s, Dequeued(s, w), s.workers[w].queue[0].client);
  }

  lemma SameClients(s: State, t: State)
    requires t.clients == s.clients && t.lock == s.lock
    ensures LockHand(t) == LockHand(s)
  {
  }

  lemma DequeueCore(cap: nat, s: State, w: nat)
    requires CanDequeue(s, w) && Core(cap, s)
    ensures Core(cap, Dequeued(s, w))
  {
    hide Replay, LockHand, WorkerOk, ClientOk, MapOk, FilesOk, SameRoster, Core;
    DequeuePending(s, w);
    DequeueRoster(cap, s, w);
    DequeueWorker(cap, s, w);
    DequeueClient(cap, s, w);
    QueueMoves(cap, s, Dequeued(s, w), w, s.workers[w].queue[0].client);
  }

  /** A running query has its client waiting, its file in place, and a worker that can be reached. */
  lemma BusyIsReady(cap: nat, s: State, w: nat)
    requires Running(s, w) && s.workers[w].busy.Some? && Core(cap, s)
    ensures var m := s.workers[w].busy.value;
            && MessageOk(s, w, m) && ClientOk(s, m.client) && Reached(s, w, m.op.db) && m.op.Keyed()
            && CanFinish(s, w) && !(LockHand(s).NewWorker? && LockHand(s).w == w)
  {
    var m := s.workers[w].busy.value;
    assert WorkerOk(cap, s, w);
    assert s.workers[w].Pending()[0] == m;
    assert MessageOk(s, w, s.workers[w].Pending()[0]);
    assert ClientOk(s, m.client);
    NotNew(cap, s, w, m.op.db);
  }

  /** All a finished query changes besides the history. */
  lemma FinishShape(s: State, w: nat)
    requires CanFinish(s, w)
    ensures var x, t, m := s.workers[w], Finished(s, w), s.workers[w].busy.value;
            && t.workers[w] == x.(index := KeyedEffect(x.index, m.op), busy := None, answered := x.answered + [m.id])
            && t.workers == s.workers[w := t.workers[w]]
            && t.clients == s.clients[m.client := s.clients[m.client].(pc := Answered(w, KeyedReply(x.index, m.op)))]
            && t.files == s.files[x.name := s.files[x.name] + Logs(m.op)]
            && t.dbMap == s.dbMap && t.lock == s.lock && t.down == s.down && t.hist == s.hist && t.stalled == s.stalled
  {
  }

  lemma FinishRoster(cap: nat, s: State, w: nat)
    requires CanFinish(s, w) && Core(cap, s)
    ensures SameRoster(s, Finished(s, w)) && MapOk(Finished(s, w))
  {
    hide Replay, KeyedReply, KeyedEffect, Finished, WorkerOk, ClientOk, LockHand, Reached, MapOk, SameRoster;
    BusyIsReady(cap, s, w);
    FinishShape(s, w);
    HandKept(s, Finished(s, w), s.workers[w].busy.value.client);
    OneWorkerMoves(s, Finished(s, w), w);
    CoreMap(cap, s);
    RosterMap(s, Finished(s, w), s.workers[w].busy.value.client);
  }

  lemma OneWorkerMoves(s: State, t: State, w: nat)
    requires w < |s.workers| && |t.workers| == |s.workers| && t.workers == s.workers[w := t.workers[w]]
    requires t.workers[w].name == s.workers[w].name && t.workers[w].alive == s.workers[w].alive
             && t.workers[w].permit == s.workers[w].permit
    requires t.dbMap == s.dbMap && t.down == s.down && t.lock == s.lock && LockHand(t) == LockHand(s)
    requires !(LockHand(s).NewWorker? && LockHand(s).w == w)
    ensures SameRoster(s, t)
  {
    hide LockHand;
  }

  lemma CoreMap(cap: nat, s: State)
    requires Core(cap, s)
    ensures MapOk(s)
  {
  }

  lemma RosterMap(s: State, t: State, c: nat)
    requires MapOk(s) && SameRoster(s, t) && At(s, c) && At(t, c) && |t.clients| == |s.clients|
    requires t.clients == s.clients[c := t.clients[c]] && !PcOf(s, c).HoldsLock()
    ensures MapOk(t)
  {
    hide LockHand;
  }

  lemma FinishClient(cap: nat, s: State, w: nat)
    requires CanFinish(s, w) && Core(cap, s)
    ensures ClientOk(Finished(s, w), s.workers[w].busy.value.client)
  {
    hide Replay, KeyedReply, KeyedEffect, Finished, WorkerOk, MapOk, FilesOk, Core, LockHand;
    BusyIsReady(cap, s, w);
    FinishShape(s, w);
    FinishRoster(cap, s, w);
  }

  lemma FinishPending(s: State, w: nat)
    requires CanFinish(s, w)
    ensures s.workers[w].Pending() == [s.workers[w].busy.value] + Finished(s, w).workers[w].Pending()
  {
    hide KeyedReply, KeyedEffect, Finished;
    FinishShape(s, w);
  }

  lemma FinishMessages(cap: nat, s: State, w: nat, i: nat)
    requires CanFinish(s, w) && Core(cap, s) && i < |Finished(s, w).workers[w].Pending()|
    ensures MessageOk(Finished(s, w), w, Finished(s, w).workers[w].Pending()[i])
  {
    assert WorkerOk(cap, s, w);
    hide Replay, Core, KeyedReply, KeyedEffect, Finished, ClientOk, MapOk, FilesOk, LockHand, Ids;
    FinishShape(s, w);
    FinishPending(s, w);
    var x, y := s.workers[w], Finished(s, w).workers[w];
    var m, j := x.busy.value, |x.answered|;
    assert x.Pending()[0] == m && x.Pending()[i + 1] == y.Pending()[i];
    assert MessageOk(s, w, x.Pending()[0]) && MessageOk(s, w, x.Pending()[i + 1]);
    IdsAt(x.Pending(), 0);
    IdsAt(x.Pending(), i + 1);
    assert x.accepted[j] == m.id && x.accepted[j + 1 + i] == y.Pending()[i].id;
  }

  lemma FinishQueue(cap: nat, s: State, w: nat)
    requires CanFinish(s, w) && Core(cap, s)
    ensures var y := Finished(s, w).workers[w]; y.accepted == y.answered + Ids(y.Pending())
  {
    assert WorkerOk(cap, s, w);
    hide Replay, Core, KeyedReply, KeyedEffect, Finished, ClientOk, MapOk, FilesOk, LockHand, Ids, MessageOk;
    FinishShape(s, w);
    FinishPending(s, w);
    var x, y := s.workers[w], Finished(s, w).workers[w];
    IdsAppend([x.busy.value], y.Pending());
    IdsOne(x.busy.value);
  }

  lemma FinishWorker(cap: nat, s: State, w: nat)
    requires CanFinish(s, w) && Core(cap, s)
    ensures WorkerOk(cap, Finished(s, w), w)
  {
    assert WorkerOk(cap, s, w);
    hide Replay, Core, KeyedReply, KeyedEffect, Finished, ClientOk, MapOk, FilesOk, LockHand, Ids, MessageOk;
    var x, t := s.workers[w], Finished(s, w);
    LogsReplay(s.files[x.name], x.index, x.busy.value.op);
    FinishShape(s, w);
    FinishRoster(cap, s, w);
    FinishQueue(cap, s, w);
    forall i | 0 <= i < |t.workers[w].Pending()|
      ensures MessageOk(t, w, t.workers[w].Pending()[i])
    {
      FinishMessages(cap, s, w, i);
    }
  }

  lemma IdsOne(m: Message)
    ensures Ids([m]) == [m.id]
  {
  }

  lemma IdsAt(ms: seq<Message>, i: nat)
    requires i < |ms|
    ensures |Ids(ms)| == |ms| && Ids(ms)[i] == ms[i].id
  {
  }

  lemma LogsReplay(log: seq<Record>, m: Index, op: Op)
    requires Replay(log) == m && op.Keyed()
    ensures Replay(log + Logs(op)) == KeyedEffect(m, op)
  {
    ReplayAppend(map[], log, Logs(op));
  }

  lemma FinishCore(cap: nat, s: State, w: nat)
    requires CanFinish(s, w) && Core(cap, s)
    ensures Core(cap, Finished(s, w))
  {
    hide Replay, LockHand, WorkerOk, ClientOk, MapOk, FilesOk, SameRoster, Core, KeyedReply, KeyedEffect, Finished;
    BusyIsReady(cap, s, w);
    FinishShape(s, w);
    FinishPending(s, w);
    FinishRoster(cap, s, w);
    FinishWorker(cap, s, w);
    FinishClient(cap, s, w);
    QueueMoves(cap, s, Finished(s, w), w, s.workers[w].busy.value.client);
  }

  // ---------- Steps that change the roster ----------

  lemma SpawnFresh(cap: nat, s: State, c: nat)
    requires CanSpawn(s, c) && Core(cap, s)
    ensures s.lock == Some(c) && !s.down && LockHand(s) == Nothing && s.clients[c].op.db !in s.files
    ensures forall w | 0 <= w < |s.workers| && s.workers[w].alive ::
              Published(s, w) && s.workers[w].name != s.clients[c].op.db
  {
    assert ClientOk(s, c);
    hide Replay, ClientOk;
    forall w | 0 <= w < |s.workers| && s.workers[w].alive
      ensures Published(s, w) && s.workers[w].name != s.clients[c].op.db
    {
      assert WorkerOk(cap, s, w);
    }
  }

  lemma SpawnShape(s: State, c: nat)
    requires CanSpawn(s, c) && s.clients[c].op.db !in s.files
    ensures var t, db, w := SpawnedWorker(s, c), s.clients[c].op.db, |s.workers|;
            && t.workers == s.workers + [Worker(db, map[], [], None, true, false, [], [])]
            && t.clients == s.clients[c := s.clients[c].(pc := Spawned(PcOf(s, c).dbs[db := w], w))]
            && t.files == s.files[db := []]
            && t.dbMap == s.dbMap && t.lock == s.lock && t.down == s.down && t.hist == s.hist
  {
    assert Replay([]) == map[];
  }

  lemma SpawnClientOk(cap: nat, s: State, c: nat)
    requires CanSpawn(s, c) && Core(cap, s)
    ensures ClientOk(SpawnedWorker(s, c), c) && MapOk(SpawnedWorker(s, c))
  {
    assert ClientOk(s, c);
    SpawnFresh(cap, s, c);
    SpawnShape(s, c);
    hide SpawnedWorker, WorkerOk, Replay, LockHand;
  }

  lemma SpawnHand(cap: nat, s: State, c: nat)
    requires CanSpawn(s, c) && Core(cap, s)
    ensures var t := SpawnedWorker(s, c);
            && LockHand(t) == NewWorker(|s.workers|, s.clients[c].op.db) && ClientOk(t, c) && MapOk(t)
            && WorkerOk(cap, t, |s.workers|)
  {
    hide SpawnedWorker, WorkerOk, ClientOk, MapOk, Core, Replay;
    SpawnFresh(cap, s, c);
    SpawnShape(s, c);
    SpawnClientOk(cap, s, c);
    SpawnedOk(cap, SpawnedWorker(s, c), |s.workers|, s.clients[c].op.db);
  }

  lemma SpawnedOk(cap: nat, t: State, w: nat, db: Name)
    requires w < |t.workers| && t.workers[w] == Worker(db, map[], [], None, true, false, [], [])
    requires LockHand(t) == NewWorker(w, db) && db in t.files && t.files[db] == []
    ensures WorkerOk(cap, t, w)
  {
  }

  lemma SpawnedCore(cap: nat, s: State, c: nat)
    requires CanSpawn(s, c) && Core(cap, s)
    ensures Core(cap, SpawnedWorker(s, c))
  {
    hide LockHand, Replay;
    SpawnFresh(cap, s, c);
    SpawnHand(cap, s, c);
    var t := SpawnedWorker(s, c);
    forall v | 0 <= v < |s.workers|
      ensures WorkerOk(cap, t, v)
    {
      assert WorkerOk(cap, s, v);
      hide ClientOk;
      WorkerFrame(cap, s, t, v);
    }
    hide WorkerOk;
    forall d | 0 <= d < |t.clients| && d != c
      ensures ClientOk(t, d)
    {
      assert ClientOk(s, d);
      SpawnClient(s, t, c, d);
    }
  }

  lemma SpawnClient(s: State, t: State, c: nat, d: nat)
    requires c < |s.clients| && s.lock == Some(c) && d < |s.clients| && d != c && ClientOk(s, d)
             && LockHand(s) == Nothing
    requires |t.clients| == |s.clients| && t.clients[d] == s.clients[d] && t.lock == s.lock && t.dbMap == s.dbMap
             && t.hist == s.hist
    requires |t.workers| == |s.workers| + 1 && t.workers[..|s.workers|] == s.workers
             && t.workers[|s.workers|].accepted == []
    ensures ClientOk(t, d)
  {
    hide LockHand, Replay;
    assert forall v: nat | v < |s.workers| :: t.workers[v] == t.workers[..|s.workers|][v] == s.workers[v];
    forall v, n | Reached(s, v, n)
      ensures Reached(t, v, n)
    {
    }
  }

  /** A client without the lock, while maps and workers' fates change around it. */
  lemma Bystander(s: State, t: State, d: nat)
    requires d < |s.clients| && ClientOk(s, d) && s.lock != Some(d)
    requires d < |t.clients| && t.clients[d] == s.clients[d] && t.hist == s.hist && |t.workers| == |s.workers|
    requires forall v | 0 <= v < |s.workers| :: 
               t.workers[v].accepted == s.workers[v].accepted && t.workers[v].Pending() == s.workers[v].Pending()
    requires s.clients[d].Busy? ==> forall v, n | Reached(s, v, n) && s.clients[d].pc.Owns(v) :: Reached(t, v, n)
    ensures ClientOk(t, d)
  {
    hide LockHand, Replay;
  }

  lemma PublishFacts(cap: nat, s: State, c: nat)
    requires CanPublish(s, c) && Core(cap, s)
    ensures var t, db, w := PublishedMap(s, c), s.clients[c].op.db, PcOf(s, c).w;
            && s.lock == Some(c) && LockHand(s) == NewWorker(w, db) && LockHand(t) == Nothing && !s.down
            && db !in s.dbMap && t.dbMap == s.dbMap[db := w] && RunsAs(s, w, db) && ClientOk(t, c) && MapOk(t)
  {
    assert ClientOk(s, c);
    hide Replay, WorkerOk;
  }

  /** The lock holder changes the map or the files; every worker stays as it is and accounted for. */
  lemma HolderMoves(cap: nat, s: State, t: State, c: nat)
    requires Core(cap, s) && s.lock == Some(c) && t.lock == s.lock && t.hist == s.hist && t.workers == s.workers
    requires c < |s.clients| && |t.clients| == |s.clients| && t.clients == s.clients[c := t.clients[c]]
    requires MapOk(t) && FilesOk(t) && ClientOk(t, c)
    requires PcOf(s, c).Spawned? || PcOf(s, c).Removed? || PcOf(s, c).Drained?
    requires forall w | 0 <= w < |s.workers| && s.workers[w].alive ::
               Accounted(t, w) &&
               (var n := s.workers[w].name; n in s.files ==> n in t.files && t.files[n] == s.files[n])
    requires forall v, n | Reached(s, v, n) :: Reached(t, v, n)
    ensures Core(cap, t)
  {
    hide LockHand, Replay, Ids, HandOf, Reached, Accounted;
    forall v | 0 <= v < |t.workers|
      ensures WorkerOk(cap, t, v)
    {
      assert WorkerOk(cap, s, v);
      hide ClientOk;
      WorkerFrame(cap, s, t, v);
    }
    hide WorkerOk;
    forall d | 0 <= d < |t.clients| && d != c
      ensures ClientOk(t, d)
    {
      assert ClientOk(s, d);
      Bystander(s, t, d);
    }
  }

  lemma StillAccounted(cap: nat, s: State, t: State, w: nat)
    requires Core(cap, s) && w < |s.workers| && s.workers[w].alive && t.workers == s.workers && t.down == s.down
    requires Published(s, w) ==> Accounted(t, w)
    requires LockHand(s).NewWorker? && LockHand(s).w == w ==> Accounted(t, w)
    requires LockHand(s).OldWorker? && LockHand(s).w == w ==> Accounted(t, w)
    ensures Accounted(t, w)
  {
    assert WorkerOk(cap, s, w);
  }

  lemma PublishedCore(cap: nat, s: State, c: nat)
    requires CanPublish(s, c) && Core(cap, s)
    ensures Core(cap, PublishedMap(s, c))
  {
    hide LockHand, Replay, WorkerOk, ClientOk, MapOk, Core;
    PublishFacts(cap, s, c);
    var t := PublishedMap(s, c);
    forall w | 0 <= w < |s.workers| && s.workers[w].alive
      ensures Accounted(t, w)
    {
      StillAccounted(cap, s, t, w);
    }
    CoreFiles(cap, s);
    HolderMoves(cap, s, t, c);
  }

  lemma CoreFiles(cap: nat, s: State)
    requires Core(cap, s)
    ensures FilesOk(s)
  {
  }

  lemma UnpublishFacts(cap: nat, s: State, c: nat)
    requires CanUnpublish(s, c) && Core(cap, s)
    ensures var t, db, w := UnpublishedMap(s, c), s.clients[c].op.db, PcOf(s, c).w;
            && s.lock == Some(c) && LockHand(s) == Nothing && LockHand(t) == OldWorker(w, db) && !s.down
            && db != DEFAULT
            && db in s.dbMap && s.dbMap[db] == w && t.dbMap == s.dbMap - {db} && RunsAs(s, w, db)
            && ClientOk(t, c) && MapOk(t)
  {
    assert ClientOk(s, c);
    hide Replay, WorkerOk;
  }

  lemma UnpublishedCore(cap: nat, s: State, c: nat)
    requires CanUnpublish(s, c) && Core(cap, s)
    ensures Core(cap, UnpublishedMap(s, c))
  {
    hide LockHand, Replay, WorkerOk, ClientOk, MapOk, Core;
    UnpublishFacts(cap, s, c);
    var t := UnpublishedMap(s, c);
    forall w | 0 <= w < |s.workers| && s.workers[w].alive
      ensures Accounted(t, w)
    {
      StillAccounted(cap, s, t, w);
    }
    CoreFiles(cap, s);
    HolderMoves(cap, s, t, c);
  }

  /** Nobody can reach a worker that may exit, except a drop that waits for it. */
  lemma ExitOwner(cap: nat, s: State, w: nat)
    requires CanExit(s, w) && Core(cap, s)
    ensures s.down || (LockHand(s).OldWorker? && LockHand(s).w == w)
    ensures forall n | n in s.dbMap :: s.dbMap[n] != w
  {
    hide Replay, Ids;
    assert WorkerOk(cap, s, w);
    forall n | n in s.dbMap
      ensures s.dbMap[n] != w
    {
      assert s.dbMap[n] in s.dbMap.Values;
    }
    if LockHand(s).NewWorker? {
      NewIsOwned(cap, s);
    }
  }

  lemma NewIsOwned(cap: nat, s: State)
    requires Core(cap, s) && LockHand(s).NewWorker?
    ensures s.clients[s.lock.value].pc.Owns(LockHand(s).w)
  {
    hide Replay, WorkerOk;
    var c := s.lock.value;
    assert ClientOk(s, c);
    var dbs := s.clients[c].pc.dbs;
    assert dbs[s.clients[c].op.db] in dbs.Values;
  }

  lemma ExitFacts(cap: nat, s: State, w: nat)
    requires CanExit(s, w) && Core(cap, s)
    ensures var t := Exited(s, w); LockHand(t) == LockHand(s) && MapOk(t) && WorkerOk(cap, t, w)
  {
    hide Replay, Ids, ClientOk, LockHand;
    ExitOwner(cap, s, w);
    assert WorkerOk(cap, s, w);
    SameClients(s, Exited(s, w));
  }

  lemma ExitHolder(cap: nat, s: State, w: nat)
    requires CanExit(s, w) && Core(cap, s) && s.lock.Some?
    ensures ClientOk(Exited(s, w), s.lock.value)
  {
    ExitOwner(cap, s, w);
    assert ClientOk(s, s.lock.value) && WorkerOk(cap, s, w);
    hide Replay, WorkerOk;
  }

  lemma ExitedCore(cap: nat, s: State, w: nat)
    requires CanExit(s, w) && Core(cap, s)
    ensures Core(cap, Exited(s, w))
  {
    hide LockHand, Replay;
    ExitFacts(cap, s, w);
    ExitOwner(cap, s, w);
    var t := Exited(s, w);
    forall v | 0 <= v < |t.workers| && v != w
      ensures WorkerOk(cap, t, v)
    {
      assert WorkerOk(cap, s, v);
      hide ClientOk, Unheld;
      WorkerFrame(cap, s, t, v);
    }
    hide WorkerOk;
    forall d | 0 <= d < |t.clients|
      ensures ClientOk(t, d)
    {
      assert ClientOk(s, d);
      if s.lock == Some(d) {
        ExitHolder(cap, s, w);
      } else {
        Bystander(s, t, d);
      }
    }
  }

  lemma NoticeFacts(cap: nat, s: State, c: nat)
    requires CanNotice(s, c) && Core(cap, s)
    ensures var t, db, w := Noticed(s, c), s.clients[c].op.db, PcOf(s, c).w;
            && s.lock == Some(c) && LockHand(s) == OldWorker(w, db) && LockHand(t) == OldFile(db) && !s.down
            && w < |s.workers| && s.workers[w].name == db && !s.workers[w].alive
            && ClientOk(t, c) && MapOk(t) && WorkerOk(cap, t, w)
  {
    var w := PcOf(s, c).w;
    assert ClientOk(s, c) && WorkerOk(cap, s, w);
    hide Replay;
  }

  lemma NoticedCore(cap: nat, s: State, c: nat)
    requires CanNotice(s, c) && Core(cap, s)
    ensures Core(cap, Noticed(s, c))
  {
    hide LockHand, Replay;
    NoticeFacts(cap, s, c);
    var t, w := Noticed(s, c), PcOf(s, c).w;
    forall v | 0 <= v < |t.workers| && v != w
      ensures WorkerOk(cap, t, v)
    {
      assert WorkerOk(cap, s, v);
      hide ClientOk;
      WorkerFrame(cap, s, t, v);
    }
    hide WorkerOk;
    forall d | 0 <= d < |t.clients| && d != c
      ensures ClientOk(t, d)
    {
      assert ClientOk(s, d);
      Bystander(s, t, d);
    }
  }

  lemma RemoveFacts(cap: nat, s: State, c: nat)
    requires At(s, c) && PcOf(s, c).Drained? && Core(cap, s)
    ensures var t, db := FileRemoved(s, c), s.clients[c].op.db;
            && s.lock == Some(c) && LockHand(s) == OldFile(db) && LockHand(t) == Nothing && !s.down
            && db !in s.dbMap && ClientOk(t, c) && MapOk(t)
    ensures forall w | 0 <= w < |s.workers| && s.workers[w].alive ::
              Published(s, w) && s.workers[w].name != s.clients[c].op.db
  {
    assert ClientOk(s, c);
    hide Replay;
    forall w | 0 <= w < |s.workers| && s.workers[w].alive
      ensures Published(s, w) && s.workers[w].name != s.clients[c].op.db
    {
      assert WorkerOk(cap, s, w);
    }
  }

  lemma FileRemovedCore(cap: nat, s: State, c: nat)
    requires At(s, c) && PcOf(s, c).Drained? && Core(cap, s)
    ensures Core(cap, FileRemoved(s, c))
  {
    hide LockHand, Replay, WorkerOk, ClientOk, MapOk, Core;
    RemoveFacts(cap, s, c);
    CoreFiles(cap, s);
    HolderMoves(cap, s, FileRemoved(s, c), c);
  }

  /** A peer that stops or goes on reading changes nothing else. */
  lemma StalledCore(cap: nat, s: State, stalled: set<nat>)
    requires Core(cap, s)
    ensures Core(cap, s.(stalled := stalled))
  {
    hide Replay;
    var t := s.(stalled := stalled);
    SameClients(s, t);
    forall w | 0 <= w < |t.workers|
      ensures WorkerOk(cap, t, w)
    {
      assert WorkerOk(cap, s, w);
      hide ClientOk, LockHand;
      WorkerFrame(cap, s, t, w);
    }
    hide WorkerOk;
    forall c | 0 <= c < |t.clients|
      ensures ClientOk(t, c)
    {
      assert ClientOk(s, c);
      StalledClient(s, t, c);
    }
    hide ClientOk, LockHand;
  }

  lemma StalledClient(s: State, t: State, c: nat)
    requires c < |s.clients| && ClientOk(s, c) && LockHand(t) == LockHand(s) && t == s.(stalled := t.stalled)
    ensures ClientOk(t, c)
  {
    hide LockHand, Replay;
  }

  lemma AbortedCore(cap: nat, s: State, c: nat)
    requires Responding(s, c) && Core(cap, s)
    ensures Core(cap, s.(clients := s.clients[c := Gone]))
  {
    hide Replay, WorkerOk, LockHand;
    var t := s.(clients := s.clients[c := Gone]);
    assert ClientOk(s, c);
    HandKept(s, t, c);
    ClientMoves(cap, s, t, c);
  }

  lemma ShutdownCore(cap: nat, s: State)
    requires !s.down && (forall c | 0 <= c < |s.clients| :: s.clients[c].Gone?) && Core(cap, s)
    ensures Core(cap, s.(dbMap := map[], down := true))
  {
    hide Replay;
    var t := s.(dbMap := map[], down := true);
    forall v | 0 <= v < |t.workers|
      ensures WorkerOk(cap, t, v)
    {
      assert WorkerOk(cap, s, v);
      WorkerFrame(cap, s, t, v);
    }
  }

  lemma StepCore(cap: nat, s: State, a: Action)
    requires Enabled(cap, s, a) && Core(cap, s)
    ensures Core(cap, Next(cap, s, a))
  {
    hide Core, Loaded, LookedUp, Enqueued, Dequeued, Finished, Checked, SpawnedWorker, PublishedMap, UnpublishedMap,
         Exited, Noticed, FileRemoved, Replied, Called;
    match a
    case Connect => ConnectCore(cap, s);
    case Disconnect(c) => DisconnectCore(cap, s, c);
    case Invoke(c, op) => CalledCore(cap, s, c, op);
    case Load(c) => LoadedCore(cap, s, c);
    case Lookup(c) => LookedUpCore(cap, s, c);
    case Enqueue(c) => EnqueueCore(cap, s, c);
    case Dequeue(w) => DequeueCore(cap, s, w);
    case Finish(w) => FinishCore(cap, s, w);
    case Acquire(c) => AcquiredCore(cap, s, c);
    case Check(c) => CheckedCore(cap, s, c);
    case Spawn(c) => SpawnedCore(cap, s, c);
    case Publish(c) => PublishedCore(cap, s, c);
    case Unpublish(c) => UnpublishedCore(cap, s, c);
    case DropSender(c) => DropSenderCore(cap, s, c);
    case Exit(w) => ExitedCore(cap, s, w);
    case Notice(c) => NoticedCore(cap, s, c);
    case RemoveFile(c) => FileRemovedCore(cap, s, c);
    case Unlock(c) => UnlockedCore(cap, s, c);
    case Reply(c) => RepliedCore(cap, s, c);
    case Stall(c) => StalledCore(cap, s, s.stalled + {c});
    case Resume(c) => StalledCore(cap, s, s.stalled - {c});
    case Abort(c) => AbortedCore(cap, s, c);
    case Shutdown => ShutdownCore(cap, s);
  }
}
