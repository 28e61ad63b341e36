/** Every call gets on: a measure for each call that no step raises, and exactly when the server can lower it. */
module Calls {
  import opened Bytes
  import opened Log
  import opened Service
  import opened Manager
  import opened ManagerInv
  import opened Linear
  import opened Drain

  // ---------- How far a call has come ----------

  /** How many stages of its path a call has before it. */
  function Stage(pc: Pc): nat {
    match pc
    case Start => 12
    case Locked => 11
    case Copied(_) => 10
    case Spawned(_, _) => 9
    case Removed(_, _) => 8
    case Unpublished(_) => 7
    case Draining(_) => 6
    case Drained(_) => 5
    case Unlocking(_) => 4
    case Viewing(_) => 4
    case Holding(_) => 3
    case Sent(_) => 2
    case Answered(_, _) => 1
    case Leaving(_) => 1
  }

  function Place(queue: seq<Message>, id: nat): nat {
    if queue == [] || queue[0].id == id then 0 else 1 + Place(queue[1..], id)
  }

  /** How many steps the worker takes until it has answered call `id`. */
  function Ahead(x: Worker, id: nat): nat {
    if x.busy.Some? && x.busy.value.id == id then 1
    else (if x.busy.Some? then 1 else 0) + 2 * Place(x.queue, id) + 2
  }

  /** What the call waits for inside its stage: the queries before it, or the end of a worker. */
  function Fine(s: State, c: nat): nat
    requires At(s, c)
  {
    match PcOf(s, c)
    case Sent(w) => if w < |s.workers| then Ahead(s.workers[w], s.clients[c].id) else 0
    case Unpublished(w) => if w < |s.workers| then Left(s, w) else 0
    case Draining(w) => if w < |s.workers| then Left(s, w) else 0
    case _ => 0
  }

  /** Call `id` of `c` has not been answered yet. */
  predicate InHand(s: State, c: nat, id: nat) {
    At(s, c) && s.clients[c].id == id
  }

  /** The call of `c` is closer to its answer in `t` than in `s`. */
  predicate Closer(s: State, t: State, c: nat)
    requires At(s, c)
  {
    !InHand(t, c, s.clients[c].id) || Stage(PcOf(t, c)) < Stage(PcOf(s, c))
    || (Stage(PcOf(t, c)) == Stage(PcOf(s, c)) && Fine(t, c) < Fine(s, c))
  }

  predicate NoFarther(s: State, t: State, c: nat)
    requires At(s, c)
  {
    Closer(s, t, c) || (Stage(PcOf(t, c)) == Stage(PcOf(s, c)) && Fine(t, c) == Fine(s, c))
  }

  /** A step the server can take now that brings the answer closer. */
  ghost predicate Advances(cap: nat, s: State, a: Action, c: nat) {
    At(s, c) && a.OfServer() && Enabled(cap, s, a) && Closer(s, Next(cap, s, a), c)
  }

  /** What can hold up a call: a peer that takes no bytes, the lock in other hands, a full queue, a stuck drop. */
  predicate Held(cap: nat, s: State, c: nat)
    requires At(s, c)
  {
    match PcOf(s, c)
    case Start => !s.clients[c].op.Keyed() && s.lock.Some?
    case Holding(w) => w < |s.workers| && |s.workers[w].queue| == cap
    case Draining(_) => Stuck(s)
    case Answered(_, _) => c in s.stalled
    case Leaving(reply) => c in s.stalled && reply != NoReply
    case _ => false
  }

  // ---------- The step that takes a call on ----------

  /** The call's own next step. */
  function Own(s: State, c: nat): Action
    requires At(s, c)
  {
    match PcOf(s, c)
    case Start => if s.clients[c].op.Keyed() then Load(c) else Acquire(c)
    case Viewing(_) => Lookup(c)
    case Holding(_) => Enqueue(c)
    case Sent(w) => Finish(w)
    case Answered(_, _) => Reply(c)
    case Locked => Check(c)
    case Copied(_) => Spawn(c)
    case Spawned(_, _) => Publish(c)
    case Removed(_, _) => Unpublish(c)
    case Unpublished(_) => DropSender(c)
    case Draining(_) => Notice(c)
    case Drained(_) => RemoveFile(c)
    case Unlocking(_) => Unlock(c)
    case Leaving(_) => Reply(c)
  }

  lemma OwnIsEnabled(cap: nat, s: State, c: nat)
    requires Core(cap, s) && At(s, c) && !PcOf(s, c).Sent? && !PcOf(s, c).Draining? && !Held(cap, s, c)
    ensures Enabled(cap, s, Own(s, c))
  {
    assert ClientOk(s, c);
    if PcOf(s, c).Holding? {
      assert WorkerOk(cap, s, PcOf(s, c).w);
    }
    hide Replay, LockHand;
  }

  lemma OwnLowers(cap: nat, s: State, c: nat)
    requires At(s, c) && !PcOf(s, c).Sent? && Enabled(cap, s, Own(s, c))
    ensures Closer(s, Next(cap, s, Own(s, c)), c)
  {
    hide Enabled, Next, Closer;
    var a := Own(s, c);
    if a.Load? || a.Lookup? || a.Enqueue? || a.Reply? {
      KeyedStepLowers(cap, s, a);
    } else if a.Check? || a.Spawn? || a.Publish? || a.Unpublish? {
      MapStepLowers(cap, s, a);
    } else {
      LockStepLowers(cap, s, a);
    }
  }

  lemma KeyedStepLowers(cap: nat, s: State, a: Action)
    requires Enabled(cap, s, a) && (a.Load? || a.Lookup? || a.Enqueue? || a.Reply?)
    ensures Closer(s, Next(cap, s, a), a.c)
  {
    hide Left, Ahead;
  }

  lemma LockStepLowers(cap: nat, s: State, a: Action)
    requires Enabled(cap, s, a) && (a.Acquire? || a.DropSender? || a.Notice? || a.RemoveFile? || a.Unlock?)
    ensures Closer(s, Next(cap, s, a), a.c)
  {
    hide Left, Ahead;
  }

  lemma MapStepLowers(cap: nat, s: State, a: Action)
    requires Enabled(cap, s, a) && (a.Check? || a.Spawn? || a.Publish? || a.Unpublish?)
    ensures Closer(s, Next(cap, s, a), a.c)
  {
    hide Replay, Left, Ahead, Published, Manager.Recovered, Enqueued, Dequeued, Finished, Exited;
  }

  // ---------- The queue ----------

  lemma {:induction false} PlaceKept(queue: seq<Message>, more: seq<Message>, id: nat)
    requires exists m :: m in queue && m.id == id
    ensures Place(queue + more, id) == Place(queue, id) && Place(queue, id) < |queue|
  {
    if queue[0].id == id {
      assert (queue + more)[0] == queue[0];
    } else {
      assert (queue + more)[1..] == queue[1..] + more;
      var m :| m in queue && m.id == id;
      assert m in queue[1..];
      PlaceKept(queue[1..], more, id);
    }
  }

  /** A query that was sent is in its worker's hands. */
  lemma SentIsPending(cap: nat, s: State, c: nat)
    requires Core(cap, s) && At(s, c) && PcOf(s, c).Sent?
    ensures var w, id := PcOf(s, c).w, s.clients[c].id;
            && Running(s, w) && |s.workers[w].queue| <= cap
            && ((s.workers[w].busy.Some? && s.workers[w].busy.value.id == id)
                || exists m :: m in s.workers[w].queue && m.id == id)
  {
    assert ClientOk(s, c);
    var w, m := PcOf(s, c).w, Message(c, s.clients[c].id, s.clients[c].op);
    assert WorkerOk(cap, s, w);
    assert m in s.workers[w].Pending();
    hide Core, Replay, LockHand, ClientOk, WorkerOk;
    if m !in s.workers[w].queue {
      assert s.workers[w].busy == Some(m);
    }
  }

  lemma DequeueNearer(x: Worker, y: Worker, id: nat)
    requires x.busy.None? && x.queue != [] && y == x.(busy := Some(x.queue[0]), queue := x.queue[1..])
    ensures Ahead(y, id) < Ahead(x, id)
  {
  }

  lemma FinishNearer(x: Worker, y: Worker, id: nat)
    requires x.busy.Some? && x.busy.value.id != id && y.busy.None? && y.queue == x.queue
    ensures Ahead(y, id) < Ahead(x, id)
  {
  }

  lemma AheadIsBounded(cap: nat, s: State, c: nat)
    requires Core(cap, s) && At(s, c) && PcOf(s, c).Sent?
    ensures Fine(s, c) <= 2 * cap + 1
  {
    SentIsPending(cap, s, c);
    hide Core, LockHand;
    var x, id := s.workers[PcOf(s, c).w], s.clients[c].id;
    if exists m :: m in x.queue && m.id == id {
      PlaceKept(x.queue, [], id);
    }
  }

  /** A step of the worker brings every query it has not answered closer. */
  lemma WorkerNearer(cap: nat, s: State, a: Action, c: nat)
    requires Core(cap, s) && At(s, c) && PcOf(s, c).Sent? && Enabled(cap, s, a) && (a.Dequeue? || a.Finish?)
    ensures NoFarther(s, Next(cap, s, a), c)
    ensures a.w == PcOf(s, c).w ==> Closer(s, Next(cap, s, a), c)
  {
    hide Core, LockHand, Ahead, Finished, KeyedReply, KeyedEffect, Left, Stage;
    SentIsPending(cap, s, c);
    var x, id := s.workers[a.w], s.clients[c].id;
    if a.Dequeue? {
      DequeueNearer(x, Next(cap, s, a).workers[a.w], id);
    } else {
      FinishShape(s, a.w);
      FinishesOther(cap, s, a.w, c);
      StageOfAnswered(PcOf(s, c));
      if x.busy.value.id != id {
        FinishNearer(x, Finished(s, a.w).workers[a.w], id);
      }
    }
  }

  lemma StageOfAnswered(pc: Pc)
    requires pc.Sent?
    ensures forall w, reply :: Stage(Answered(w, reply)) < Stage(pc)
  {
  }

  /** Only its own worker finishes a client's query, and it finishes that of no other. */
  lemma FinishesOther(cap: nat, s: State, w: nat, c: nat)
    requires Core(cap, s) && At(s, c) && CanFinish(s, w)
    ensures var m := s.workers[w].busy.value;
            && (m.client == c <==> m.id == s.clients[c].id)
            && s.clients[m.client].Busy? && PcOf(s, m.client) == Sent(w)
  {
    BusyIsReady(cap, s, w);
    assert ClientOk(s, c);
    hide Core, LockHand, PcOk;
    var m := s.workers[w].busy.value;
    if m.client != c {
      OtherCall(s, c, m.client);
    }
  }

  lemma SentMoves(cap: nat, s: State, c: nat) returns (a: Action)
    requires Core(cap, s) && At(s, c) && PcOf(s, c).Sent?
    ensures Advances(cap, s, a, c) && (a == Dequeue(PcOf(s, c).w) || a == Finish(PcOf(s, c).w))
  {
    SentIsPending(cap, s, c);
    var w := PcOf(s, c).w;
    if s.workers[w].busy.Some? {
      a := Finish(w);
      BusyIsReady(cap, s, w);
    } else {
      a := Dequeue(w);
    }
    hide Core, LockHand, Closer, NoFarther, Next, Held;
    WorkerNearer(cap, s, a, c);
  }

  // ---------- A drop that waits ----------

  lemma DropWaits(cap: nat, s: State, c: nat)
    requires Core(cap, s) && At(s, c) && (PcOf(s, c).Unpublished? || PcOf(s, c).Draining?)
    ensures s.lock == Some(c) && LockHand(s).OldWorker? && LockHand(s).w == PcOf(s, c).w < |s.workers|
    ensures Fine(s, c) == Left(s, PcOf(s, c).w)
  {
    assert ClientOk(s, c);
    OldIsUnpublished(cap, s);
  }

  /** What the holder of the lock may be doing after someone else's step: the same. */
  predicate Untouched(s: State, t: State, c: nat) {
    c < |s.clients| && c < |t.clients| && t.clients[c] == s.clients[c]
  }

  lemma DropMoves(cap: nat, s: State, c: nat) returns (a: Action)
    requires cap > 0 && Core(cap, s) && At(s, c) && PcOf(s, c).Draining? && !Stuck(s)
    ensures Advances(cap, s, a, c)
  {
    DropWaits(cap, s, c);
    a := WaitMovesOn(cap, s);
    ProgressAdvances(cap, s, a, c);
  }

  lemma ProgressAdvances(cap: nat, s: State, a: Action, c: nat)
    requires Core(cap, s) && At(s, c) && PcOf(s, c).Draining? && Progress(cap, s, a)
    ensures Advances(cap, s, a, c)
  {
    DropWaits(cap, s, c);
    hide Core, LockHand, Left, Next, Stuck;
    if OwnStep(s, a, c) {
      OwnIsNext(cap, s, a, c);
      OwnLowers(cap, s, c);
    } else {
      OthersLeaveAlone(cap, s, a, c);
    }
  }

  /** The step is taken by the connection's own task, or by the worker that answers its query. */
  predicate OwnStep(s: State, a: Action, c: nat) {
    match a
    case Connect => false
    case Dequeue(_) => false
    case Finish(w) => w < |s.workers| && s.workers[w].busy.Some? && s.workers[w].busy.value.client == c
    case Exit(_) => false
    case Stall(_) => false
    case Resume(_) => false
    case Shutdown => false
    case _ => a.c == c
  }

  lemma OthersLeaveAlone(cap: nat, s: State, a: Action, c: nat)
    requires c < |s.clients| && Enabled(cap, s, a) && !OwnStep(s, a, c)
    ensures Untouched(s, Next(cap, s, a), c)
  {
    hide Enabled, Next, Untouched;
    if a.Acquire? || a.Check? || a.Spawn? || a.Publish? || a.Unpublish? || a.DropSender? || a.Notice?
       || a.RemoveFile? || a.Unlock? {
      OthersUnderLock(cap, s, a, c);
    } else {
      OthersElsewhere(cap, s, a, c);
    }
  }

  lemma OthersUnderLock(cap: nat, s: State, a: Action, c: nat)
    requires a.Acquire? || a.Check? || a.Spawn? || a.Publish? || a.Unpublish? || a.DropSender? || a.Notice?
             || a.RemoveFile? || a.Unlock?
    requires c < |s.clients| && Enabled(cap, s, a) && !OwnStep(s, a, c)
    ensures Untouched(s, Next(cap, s, a), c)
  {
    hide Checked, Replay, Manager.Recovered;
    if a.Check? {
      CheckedShape(s, a.c);
    }
  }

  lemma OthersElsewhere(cap: nat, s: State, a: Action, c: nat)
    requires a.Connect? || a.Disconnect? || a.Invoke? || a.Load? || a.Lookup? || a.Enqueue? || a.Dequeue? || a.Finish?
             || a.Exit? || a.Reply? || a.Stall? || a.Resume? || a.Abort? || a.Shutdown?
    requires c < |s.clients| && Enabled(cap, s, a) && !OwnStep(s, a, c)
    ensures Untouched(s, Next(cap, s, a), c)
  {
    hide Finished, Unheld;
    if a.Finish? {
      FinishShape(s, a.w);
    }
  }

  /** A task takes no other step than the next one on its path. */
  lemma OwnIsNext(cap: nat, s: State, a: Action, c: nat)
    requires Core(cap, s) && At(s, c) && Enabled(cap, s, a) && OwnStep(s, a, c) && a.OfServer()
    ensures a == Own(s, c)
  {
    hide Core, Enabled, Own;
    if a.Finish? {
      OwnFinish(cap, s, a.w, c);
    } else {
      OwnElse(cap, s, a);
    }
  }

  lemma OwnFinish(cap: nat, s: State, w: nat, c: nat)
    requires Core(cap, s) && At(s, c) && Enabled(cap, s, Finish(w)) && OwnStep(s, Finish(w), c)
    ensures Finish(w) == Own(s, c)
  {
    hide Core;
    FinishesOther(cap, s, w, c);
  }

  lemma OwnElse(cap: nat, s: State, a: Action)
    requires a.OfServer() && !a.Finish? && !a.Dequeue? && !a.Exit? && Enabled(cap, s, a)
    ensures At(s, a.c) && a == Own(s, a.c)
  {
    hide Running;
  }

  // ---------- When a call can go on ----------

  /** For every call, in every reachable state: the server can take it on unless its peer takes no bytes, the lock is
      in other hands, the queue it enters is full, or it is a drop that is stuck. */
  lemma CallMovesIff(cap: nat, s: State, c: nat)
    requires cap > 0 && Core(cap, s) && At(s, c)
    ensures (exists a :: Advances(cap, s, a, c)) <==> !Held(cap, s, c)
  {
    hide Core, LockHand, Advances, Left, Stuck;
    if Held(cap, s, c) {
      forall a
        ensures !Advances(cap, s, a, c)
      {
        HeldStands(cap, s, a, c);
      }
    } else {
      var a := CallMoves(cap, s, c);
    }
  }

  lemma CallMoves(cap: nat, s: State, c: nat) returns (a: Action)
    requires cap > 0 && Core(cap, s) && At(s, c) && !Held(cap, s, c)
    ensures Advances(cap, s, a, c)
  {
    hide Core, LockHand, Left, Stuck;
    if PcOf(s, c).Sent? {
      a := SentMoves(cap, s, c);
    } else if PcOf(s, c).Draining? {
      a := DropMoves(cap, s, c);
    } else {
      a := Own(s, c);
      OwnIsEnabled(cap, s, c);
      OwnLowers(cap, s, c);
      hide Enabled, Next, Held, Closer;
    }
  }

  lemma HeldStands(cap: nat, s: State, a: Action, c: nat)
    requires Core(cap, s) && At(s, c) && Held(cap, s, c)
    ensures !Advances(cap, s, a, c)
  {
    hide Core, LockHand, Left, Next, Enabled, Own, Stuck;
    if a.OfServer() && Enabled(cap, s, a) {
      if OwnStep(s, a, c) {
        OwnIsNext(cap, s, a, c);
        HeldCannot(cap, s, c);
      } else if PcOf(s, c).Draining? {
        DropStands(cap, s, a, c);
      } else {
        OthersLeaveAlone(cap, s, a, c);
      }
    }
  }

  lemma HeldCannot(cap: nat, s: State, c: nat)
    requires Core(cap, s) && At(s, c) && Held(cap, s, c)
    ensures !Enabled(cap, s, Own(s, c))
  {
    hide Core, LockHand, Stuck, Running;
    if PcOf(s, c).Draining? {
      HolderStands(cap, s, Own(s, c));
    }
  }

  lemma DropStands(cap: nat, s: State, a: Action, c: nat)
    requires Core(cap, s) && At(s, c) && PcOf(s, c).Draining? && Stuck(s) && !OwnStep(s, a, c)
    ensures !Advances(cap, s, a, c)
  {
    DropWaits(cap, s, c);
    hide Core, LockHand, Left, Next, Enabled, Stuck;
    if Advances(cap, s, a, c) {
      OthersLeaveAlone(cap, s, a, c);
      LeftNeverGrows(cap, s, a);
      CanLower(cap, s, a);
      StuckStands(cap, s, a);
    }
  }

  // ---------- No step takes a call back ----------

  lemma QueueKept(cap: nat, s: State, a: Action, w: nat)
    requires w < |s.workers| && Enabled(cap, s, a) && !a.Dequeue? && !a.Finish?
    ensures var t := Next(cap, s, a);
            && w < |t.workers| && t.workers[w].busy == s.workers[w].busy && s.workers[w].queue <= t.workers[w].queue
  {
    hide Replay, Unheld, Manager.Recovered, Checked;
    if a.Check? {
      CheckedShape(s, a.c);
    }
  }

  lemma AheadKept(x: Worker, y: Worker, id: nat)
    requires y.busy == x.busy && x.queue <= y.queue
    requires (x.busy.Some? && x.busy.value.id == id) || exists m :: m in x.queue && m.id == id
    ensures Ahead(y, id) == Ahead(x, id)
  {
    if exists m :: m in x.queue && m.id == id {
      PlaceKept(x.queue, y.queue[|x.queue|..], id);
      assert y.queue == x.queue + y.queue[|x.queue|..];
    }
  }

  lemma SentNoFarther(cap: nat, s: State, a: Action, c: nat)
    requires Core(cap, s) && At(s, c) && PcOf(s, c).Sent? && Enabled(cap, s, a) && !OwnStep(s, a, c)
    ensures NoFarther(s, Next(cap, s, a), c)
  {
    if a.Dequeue? || a.Finish? {
      WorkerNearer(cap, s, a, c);
    } else {
      hide Core, LockHand, Ahead, Left, Next, Enabled;
      SentIsPending(cap, s, c);
      OthersLeaveAlone(cap, s, a, c);
      var w := PcOf(s, c).w;
      QueueKept(cap, s, a, w);
      AheadKept(s.workers[w], Next(cap, s, a).workers[w], s.clients[c].id);
    }
  }

  lemma DropNoFarther(cap: nat, s: State, a: Action, c: nat)
    requires Core(cap, s) && At(s, c) && (PcOf(s, c).Unpublished? || PcOf(s, c).Draining?) && Enabled(cap, s, a)
             && !OwnStep(s, a, c)
    ensures NoFarther(s, Next(cap, s, a), c)
  {
    DropWaits(cap, s, c);
    hide Core, LockHand, Left, Next, Enabled;
    OthersLeaveAlone(cap, s, a, c);
    LeftNeverGrows(cap, s, a);
  }

  /** Whatever anyone does, no call gets farther from its answer. */
  lemma NeverFarther(cap: nat, s: State, a: Action, c: nat)
    requires Core(cap, s) && At(s, c) && Enabled(cap, s, a)
    ensures NoFarther(s, Next(cap, s, a), c)
  {
    if OwnStep(s, a, c) {
      OwnNoFarther(cap, s, a, c);
    } else {
      hide Core, LockHand, Left, Next, Enabled;
      if PcOf(s, c).Sent? {
        SentNoFarther(cap, s, a, c);
      } else if PcOf(s, c).Unpublished? || PcOf(s, c).Draining? {
        DropNoFarther(cap, s, a, c);
      } else {
        OthersLeaveAlone(cap, s, a, c);
      }
    }
  }

  lemma OwnNoFarther(cap: nat, s: State, a: Action, c: nat)
    requires Core(cap, s) && At(s, c) && Enabled(cap, s, a) && OwnStep(s, a, c)
    ensures Closer(s, Next(cap, s, a), c)
  {
    hide Core, LockHand, Left, Ahead, Finished, Checked, Replay, Unheld, Manager.Recovered;
    if !a.OfServer() {
      assert a.Abort?;
    } else {
      OwnIsNext(cap, s, a, c);
      hide Closer, Next, Enabled, OwnStep;
      if PcOf(s, c).Sent? {
        WorkerNearer(cap, s, a, c);
      } else {
        OwnLowers(cap, s, c);
      }
    }
  }

  // ---------- Over runs ----------

  /** The stages and queries left, in one number; a drop waits for more than that. */
  function Rank(cap: nat, s: State, c: nat): nat
    requires At(s, c)
  {
    Stage(PcOf(s, c)) * (2 * cap + 2) + Fine(s, c)
  }

  /** From state `i` to state `j` of a run, client `c` waits for the answer to call `id`. */
  ghost predicate Serving(tr: seq<State>, c: nat, id: nat, i: nat, j: nat) {
    i <= j < |tr| && forall k | i <= k <= j :: InHand(tr[k], c, id)
  }

  /** How many steps between `i` and `j` brought the answer closer. */
  ghost function Gained(tr: seq<State>, c: nat, id: nat, i: nat, j: nat): nat
    requires Serving(tr, c, id, i, j)
    decreases j - i
  {
    if i == j then 0
    else Gained(tr, c, id, i, j - 1) + if Closer(tr[j - 1], tr[j], c) then 1 else 0
  }

  /** The stages of a call that waits for no worker to end. */
  lemma FineIsBounded(cap: nat, s: State, c: nat)
    requires Core(cap, s) && At(s, c) && !s.clients[c].op.Drop?
    ensures Fine(s, c) <= 2 * cap + 1
  {
    assert ClientOk(s, c);
    hide Core, LockHand, Left, Ahead;
    if PcOf(s, c).Sent? {
      AheadIsBounded(cap, s, c);
    }
  }

  lemma SameCall(cap: nat, s: State, t: State, c: nat)
    requires Core(cap, s) && Core(cap, t) && At(s, c) && InHand(t, c, s.clients[c].id) && s.hist <= t.hist
    ensures t.clients[c].op == s.clients[c].op
  {
    assert ClientOk(s, c) && ClientOk(t, c);
    hide PcOk, LockHand;
  }

  lemma FewerStages(n: nat, j: nat, f: nat, k: nat, g: nat)
    requires j < k && f < n
    ensures j * n + f < k * n + g
  {
    assert (k - j - 1) * n >= 0;
    assert k * n == j * n + n + (k - j - 1) * n;
  }

  lemma CloserRanks(cap: nat, s: State, t: State, c: nat)
    requires At(s, c) && InHand(t, c, s.clients[c].id) && Fine(t, c) <= 2 * cap + 1 && NoFarther(s, t, c)
    ensures if Closer(s, t, c) then Rank(cap, t, c) < Rank(cap, s, c) else Rank(cap, t, c) <= Rank(cap, s, c)
  {
    hide Fine, Stage;
    if Stage(PcOf(t, c)) < Stage(PcOf(s, c)) {
      FewerStages(2 * cap + 2, Stage(PcOf(t, c)), Fine(t, c), Stage(PcOf(s, c)), Fine(s, c));
    }
  }

  lemma HistoryGrows(cap: nat, s: State, a: Action)
    requires Enabled(cap, s, a)
    ensures s.hist <= Next(cap, s, a).hist
  {
    hide Replay, Unheld, Manager.Recovered, Checked, Finished;
    if a.Check? {
      CheckedShape(s, a.c);
    } else if a.Finish? {
      FinishShape(s, a.w);
    }
  }

  /** However the steps of a run interleave, a call other than a drop is over after at most `Rank` steps that bring its
      answer closer, and at every point the server can take such a step unless the call is held. */
  lemma {:induction false} CallEnds(cap: nat, tr: seq<State>, c: nat, id: nat, i: nat, j: nat)
    requires cap > 0 && Run(cap, tr) && Serving(tr, c, id, i, j)
    ensures !tr[i].clients[c].op.Drop? ==> Gained(tr, c, id, i, j) + Rank(cap, tr[j], c) <= Rank(cap, tr[i], c)
    ensures (exists a :: Advances(cap, tr[j], a, c)) <==> !Held(cap, tr[j], c)
    ensures tr[j].clients[c].op == tr[i].clients[c].op
    decreases j - i
  {
    hide Core, LockHand, LinInv, Enabled, Next, Stuck, Advances, Rank, Closer, NoFarther, Fine, Held;
    RunInv(cap, tr, j);
    CallMovesIff(cap, tr[j], c);
    if i < j {
      CallEnds(cap, tr, c, id, i, j - 1);
      RunInv(cap, tr, j - 1);
      assert Moves(cap, tr[j - 1], tr[j - 1 + 1]);
      var a :| Enabled(cap, tr[j - 1], a) && tr[j] == Next(cap, tr[j - 1], a);
      HistoryGrows(cap, tr[j - 1], a);
      SameCall(cap, tr[j - 1], tr[j], c);
      NeverFarther(cap, tr[j - 1], a, c);
      if !tr[i].clients[c].op.Drop? {
        FineIsBounded(cap, tr[j], c);
        CloserRanks(cap, tr[j - 1], tr[j], c);
      }
    }
  }

  // ---------- Nothing waits for nothing ----------

  /** Whoever has the lock can go on, unless it is a drop that waits for its worker. */
  lemma HolderMoves(cap: nat, s: State)
    requires cap > 0 && Core(cap, s) && s.lock.Some?
    ensures At(s, s.lock.value)
    ensures !PcOf(s, s.lock.value).Draining? ==> Advances(cap, s, Own(s, s.lock.value), s.lock.value)
  {
    CoreMap(cap, s);
    hide Core, LockHand, Left, Stuck;
    var h := s.lock.value;
    if !PcOf(s, h).Draining? {
      OwnIsEnabled(cap, s, h);
      OwnLowers(cap, s, h);
    }
  }

  /** A full queue empties: its worker can take a step, and that step answers or advances somebody's call. */
  lemma FullQueueMoves(cap: nat, s: State, c: nat) returns (a: Action, d: nat)
    requires cap > 0 && Core(cap, s) && At(s, c) && PcOf(s, c).Holding? && Held(cap, s, c)
    ensures Advances(cap, s, a, d) && (a == Dequeue(PcOf(s, c).w) || a == Finish(PcOf(s, c).w))
  {
    HolderAlive(cap, s, c);
    var w := PcOf(s, c).w;
    assert WorkerOk(cap, s, w);
    var x := s.workers[w];
    var m := x.Pending()[0];
    assert MessageOk(s, w, x.Pending()[0]);
    d := m.client;
    hide Core, LockHand, Left, Stuck, Advances, Held;
    a := SentMoves(cap, s, d);
  }

  /** A call that nothing will answer as things stand: its peer takes no bytes, or it stands behind a stuck drop. */
  predicate Rests(cap: nat, s: State, c: nat)
    requires At(s, c)
  {
    Held(cap, s, c) && (PcOf(s, c).Answered? || PcOf(s, c).Leaving? || Stuck(s)) && !PcOf(s, c).Holding?
  }

  /** The server comes to a halt only at rest: some call can be taken on exactly unless every call in hand waits for a
      peer to take bytes, its own or one that keeps a drop from ending. */
  lemma HaltsIff(cap: nat, s: State)
    requires cap > 0 && Core(cap, s)
    ensures (exists a, c :: Advances(cap, s, a, c)) <==> exists c :: At(s, c) && !Rests(cap, s, c)
  {
    hide Core, LockHand, Left, Stuck, Advances, Held;
    if a, c :| Advances(cap, s, a, c) {
      AdvancingIsBusy(cap, s, a, c);
      if Held(cap, s, c) {
        HeldStands(cap, s, a, c);
      }
    } else if c: nat :| At(s, c) && !Rests(cap, s, c) {
      var a, d := SomethingMoves(cap, s, c);
    }
  }

  lemma AdvancingIsBusy(cap: nat, s: State, a: Action, c: nat)
    requires Advances(cap, s, a, c)
    ensures At(s, c)
  {
  }

  lemma SomethingMoves(cap: nat, s: State, c: nat) returns (a: Action, d: nat)
    requires cap > 0 && Core(cap, s) && At(s, c) && !Rests(cap, s, c)
    ensures Advances(cap, s, a, d)
  {
    hide Core, LockHand, Left, Stuck, Advances;
    d := c;
    if !Held(cap, s, c) {
      a := CallMoves(cap, s, c);
    } else if PcOf(s, c).Holding? {
      a, d := FullQueueMoves(cap, s, c);
    } else {
      d := s.lock.value;
      HolderMoves(cap, s);
      if PcOf(s, d).Draining? {
        a := CallMoves(cap, s, d);
      } else {
        a := Own(s, d);
      }
    }
  }

  // ---------- Clients, operators and the end ----------

  /** Between requests a client may ask for anything or leave, and a peer may always start taking bytes or go away. */
  lemma PeersAreFree(cap: nat, s: State, c: nat)
    requires c < |s.clients|
    ensures s.clients[c].Ready? ==> Enabled(cap, s, Disconnect(c)) && forall op :: Enabled(cap, s, Invoke(c, op))
    ensures Responding(s, c) ==> Enabled(cap, s, Abort(c))
    ensures Responding(s, c) && c in s.stalled ==>
              Enabled(cap, s, Resume(c)) && Enabled(cap, Next(cap, s, Resume(c)), Reply(c))
    ensures c !in s.stalled ==> Enabled(cap, s, Stall(c))
  {
  }

  /** Once every client is gone the server can be shut down, and then every worker still running can exit, with every
      query answered and its log in agreement with its index. */
  lemma ShutdownEnds(cap: nat, s: State, w: nat)
    requires Core(cap, s) && (forall c | 0 <= c < |s.clients| :: s.clients[c].Gone?)
    ensures !s.down ==> Enabled(cap, s, Shutdown)
    ensures s.down && Running(s, w) ==> Enabled(cap, s, Exit(w))
    ensures Running(s, w) ==>
              var x := s.workers[w];
              x.answered == x.accepted && x.name in s.files && Replay(s.files[x.name]) == x.index
  {
    if Running(s, w) {
      IdleWorker(cap, s, w);
    }
    hide Core, Replay, LockHand;
  }

  lemma IdleWorker(cap: nat, s: State, w: nat)
    requires Core(cap, s) && Running(s, w) && forall c | 0 <= c < |s.clients| :: s.clients[c].Gone?
    ensures var x := s.workers[w];
            && x.Pending() == [] && x.answered == x.accepted && x.name in s.files && Replay(s.files[x.name]) == x.index
  {
    assert WorkerOk(cap, s, w);
    hide Core, Replay, LockHand, ClientOk;
    var x := s.workers[w];
    assert x.Pending() != [] ==> MessageOk(s, w, x.Pending()[0]);
    assert Ids([]) == [];
  }

  // ---------- It happens ----------

  const MAKE: Op := Create([0x62])

  /** On a fresh server the first connection creates a new database and has got as far as `pc`. */
  ghost predicate Making(cap: nat, s: State, pc: Pc) {
    && Reachable(cap, s) && s.clients == [Busy(0, MAKE, pc), Ready] && s.stalled == {} && !s.down
    && s.hist == [Call(0, MAKE)]
  }

  lemma MakeChecks(cap: nat) returns (s: State)
    ensures Making(cap, s, Copied(s.dbMap)) && s.lock == Some(0) && s.dbMap == Fresh().dbMap
    ensures [0x62] !in s.files && |s.workers| == 2
  {
    hide Reachable;
    FreshIsReachable(cap);
    ReachMore(cap, Fresh(), Invoke(0, MAKE));
    s := Next(cap, Fresh(), Invoke(0, MAKE));
    assert s.clients == [Busy(0, MAKE, Start), Ready];
    ReachMore(cap, s, Acquire(0));
    s := Next(cap, s, Acquire(0));
    assert s.clients == [Busy(0, MAKE, Locked), Ready];
    ReachMore(cap, s, Check(0));
    s := Next(cap, s, Check(0));
    assert s.clients == [Busy(0, MAKE, Copied(s.dbMap)), Ready];
  }

  lemma MakePublishes(cap: nat) returns (s: State)
    ensures Making(cap, s, Unlocking(Done)) && s.lock == Some(0)
    ensures s.dbMap == Fresh().dbMap[[0x62] := 2] && |s.workers| == 3
            && s.workers[2] == Worker([0x62], map[], [], None, true, false, [], [])
    ensures [0x62] in s.files && s.files[[0x62]] == []
  {
    hide Reachable;
    s := MakeChecks(cap);
    SpawnShape(s, 0);
    ReachMore(cap, s, Spawn(0));
    hide SpawnedWorker;
    s := Next(cap, s, Spawn(0));
    ReachMore(cap, s, Publish(0));
    s := Next(cap, s, Publish(0));
    assert s.clients == [Busy(0, MAKE, Unlocking(Done)), Ready];
  }

  /** It happens: a create of a new name is answered `Done`, and the name is there, empty, with its own log. */
  lemma CreateHappens(cap: nat) returns (s: State)
    ensures Reachable(cap, s) && s.hist == [Call(0, Create([0x62])), Return(0, Done)] && s.lock.None?
    ensures s.clients == [Ready, Ready] && [0x62] in Contents(s) && Contents(s)[[0x62]] == map[]
    ensures [0x62] in s.files && s.files[[0x62]] == []
  {
    hide Reachable, Fresh;
    s := MakePublishes(cap);
    ReachMore(cap, s, Unlock(0));
    s := Next(cap, s, Unlock(0));
    assert s.clients == [Busy(0, MAKE, Leaving(Done)), Ready];
    ReachMore(cap, s, Reply(0));
    s := Next(cap, s, Reply(0));
    assert s.clients == [Ready, Ready];
  }

  const UNMAKE: Op := Drop([0x61])

  /** On a fresh server the first connection drops a database and has got as far as `pc`. */
  ghost predicate Unmaking(cap: nat, s: State, pc: Pc) {
    && Reachable(cap, s) && s.clients == [Busy(0, UNMAKE, pc), Ready] && s.stalled == {} && !s.down
    && s.hist == [Call(0, UNMAKE)] && s.lock == Some(0) && |s.workers| == 2
    && s.workers[1].Pending() == [] && s.workers[1].name == [0x61]
  }

  lemma UnmakeChecks(cap: nat) returns (s: State)
    ensures Unmaking(cap, s, Removed(s.dbMap - {[0x61]}, 1)) && s.dbMap == Fresh().dbMap && s.workers[1].alive
  {
    hide Reachable;
    FreshIsReachable(cap);
    ReachMore(cap, Fresh(), Invoke(0, UNMAKE));
    s := Next(cap, Fresh(), Invoke(0, UNMAKE));
    assert s.clients == [Busy(0, UNMAKE, Start), Ready];
    ReachMore(cap, s, Acquire(0));
    s := Next(cap, s, Acquire(0));
    assert s.clients == [Busy(0, UNMAKE, Locked), Ready];
    ReachMore(cap, s, Check(0));
    s := Next(cap, s, Check(0));
    assert s.clients == [Busy(0, UNMAKE, Removed(s.dbMap - {[0x61]}, 1)), Ready];
  }

  lemma UnmakeWaits(cap: nat) returns (s: State)
    ensures Unmaking(cap, s, Draining(1)) && s.workers[1].alive && Unheld(s, 1) && s.dbMap == map[DEFAULT := 0]
  {
    hide Reachable;
    s := UnmakeChecks(cap);
    ReachMore(cap, s, Unpublish(0));
    s := Next(cap, s, Unpublish(0));
    assert s.clients == [Busy(0, UNMAKE, Unpublished(1)), Ready];
    ReachMore(cap, s, DropSender(0));
    s := Next(cap, s, DropSender(0));
    assert s.clients == [Busy(0, UNMAKE, Draining(1)), Ready];
    assert s.dbMap == map[DEFAULT := 0];
  }

  lemma UnmakeRemoves(cap: nat) returns (s: State)
    ensures Unmaking(cap, s, Unlocking(Done)) && !s.workers[1].alive && s.dbMap == map[DEFAULT := 0]
    ensures [0x61] !in s.files
  {
    hide Reachable;
    s := UnmakeWaits(cap);
    ReachMore(cap, s, Exit(1));
    s := Next(cap, s, Exit(1));
    ReachMore(cap, s, Notice(0));
    s := Next(cap, s, Notice(0));
    assert s.clients == [Busy(0, UNMAKE, Drained(1)), Ready];
    ReachMore(cap, s, RemoveFile(0));
    s := Next(cap, s, RemoveFile(0));
    assert s.clients == [Busy(0, UNMAKE, Unlocking(Done)), Ready];
  }

  /** It happens: a drop is answered `Done`, and name, log and worker are gone. */
  lemma DropHappens(cap: nat) returns (s: State)
    ensures Reachable(cap, s) && s.hist == [Call(0, Drop([0x61])), Return(0, Done)] && s.lock.None?
    ensures s.clients == [Ready, Ready] && [0x61] !in s.dbMap && [0x61] !in s.files && !Running(s, 1)
  {
    hide Reachable;
    s := UnmakeRemoves(cap);
    ReachMore(cap, s, Unlock(0));
    s := Next(cap, s, Unlock(0));
    assert s.clients == [Busy(0, UNMAKE, Leaving(Done)), Ready];
    ReachMore(cap, s, Reply(0));
    s := Next(cap, s, Reply(0));
    assert s.clients == [Ready, Ready];
  }
}
