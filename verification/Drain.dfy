/** A drop that waits for its worker: a measure no step raises, and exactly when some step of the server lowers it. */
module Drain {
  import opened Bytes
  import opened Log
  import opened Service
  import opened Manager
  import opened ManagerInv
  import opened Linear

  /** Steps client `x` still has before it is done with worker `w`; a query to be queued counts its dequeue too. */
  function ClientWork(x: Client, w: nat): nat {
    if !x.Busy? then 0
    else match x.pc
      case Viewing(view) => if w in view.Values then 5 else 0
      case Holding(v) => if v == w then 4 else 0
      case Sent(v) => if v == w then 2 else 0
      case Answered(v, _) => if v == w then 1 else 0
      case Unpublished(v) => if v == w then 2 else 0
      case Draining(v) => if v == w then 1 else 0
      case _ => 0
  }

  function Work(xs: seq<Client>, w: nat): nat {
    if xs == [] then 0 else ClientWork(xs[0], w) + Work(xs[1..], w)
  }

  /** What is left of the wait: clients not done with `w`, queries in its queue, and its exit. */
  function Left(s: State, w: nat): nat
    requires w < |s.workers|
  {
    Work(s.clients, w) + |s.workers[w].queue| + if s.workers[w].alive then 1 else 0
  }

  lemma {:induction false} WorkMoves(xs: seq<Client>, c: nat, x: Client, w: nat)
    requires c < |xs|
    ensures Work(xs[c := x], w) + ClientWork(xs[c], w) == Work(xs, w) + ClientWork(x, w)
    decreases c
  {
    hide ClientWork;
    var ys := xs[c := x];
    if c == 0 {
      assert ys[1..] == xs[1..];
    } else {
      assert ys[1..] == xs[1..][c - 1 := x];
      WorkMoves(xs[1..], c - 1, x, w);
    }
  }

  lemma {:induction false} WorkGrows(xs: seq<Client>, x: Client, w: nat)
    ensures Work(xs + [x], w) == Work(xs, w) + ClientWork(x, w)
    decreases |xs|
  {
    hide ClientWork;
    if xs == [] {
      assert xs + [x] == [x] && [x][1..] == [];
    } else {
      assert (xs + [x])[1..] == xs[1..] + [x];
      WorkGrows(xs[1..], x, w);
    }
  }

  // ---------- No step raises what is left ----------

  /** The drop in progress holds the lock, so no other create or drop is past its start. */
  lemma OthersWait(cap: nat, s: State, c: nat)
    requires Core(cap, s) && LockHand(s).OldWorker? && At(s, c) && PcOf(s, c).HoldsLock()
    ensures s.lock == Some(c) && (PcOf(s, c).Unpublished? || PcOf(s, c).Draining?) && PcOf(s, c).w == LockHand(s).w
  {
    assert ClientOk(s, c);
  }

  /** One client moves and `w`'s queue stays. */
  lemma ClientStep(s: State, t: State, c: nat, w: nat)
    requires w < |s.workers| && w < |t.workers| && t.workers[w].queue == s.workers[w].queue
             && t.workers[w].alive == s.workers[w].alive
    requires c < |s.clients| && c < |t.clients| && t.clients == s.clients[c := t.clients[c]]
    ensures Left(t, w) + ClientWork(s.clients[c], w) == Left(s, w) + ClientWork(t.clients[c], w)
  {
    hide ClientWork;
    WorkMoves(s.clients, c, t.clients[c], w);
  }

  lemma KeyedSteps(cap: nat, s: State, a: Action, w: nat)
    requires Core(cap, s) && LockHand(s).OldWorker? && LockHand(s).w == w && w < |s.workers| && Enabled(cap, s, a)
    requires a.Load? || a.Lookup? || a.Reply?
    ensures w < |Next(cap, s, a).workers| && Left(Next(cap, s, a), w) <= Left(s, w)
    ensures PcOf(s, a.c).Owns(w) ==> Left(Next(cap, s, a), w) < Left(s, w)
  {
    OldIsUnpublished(cap, s);
    hide Core, LockHand, Left, Work;
    ClientStep(s, Next(cap, s, a), a.c, w);
  }

  /** What clients do by themselves. */
  lemma PeerSteps(cap: nat, s: State, a: Action, w: nat)
    requires w < |s.workers| && Enabled(cap, s, a)
    requires a.Connect? || a.Invoke? || a.Disconnect? || a.Abort? || a.Stall? || a.Resume?
    ensures w < |Next(cap, s, a).workers| && Left(Next(cap, s, a), w) <= Left(s, w)
  {
    hide Work;
    if a.Connect? {
      WorkGrows(s.clients, Ready, w);
    } else if a.Invoke? || a.Disconnect? || a.Abort? {
      WorkMoves(s.clients, a.c, Next(cap, s, a).clients[a.c], w);
    }
  }

  lemma EnqueueStep(cap: nat, s: State, c: nat, w: nat)
    requires CanEnqueue(cap, s, c) && w < |s.workers|
    ensures var t := Enqueued(cap, s, c);
            && w < |t.workers| && Left(t, w) <= Left(s, w)
            && (PcOf(s, c).w == w ==> Left(t, w) < Left(s, w))
  {
    hide Work;
    WorkMoves(s.clients, c, Enqueued(cap, s, c).clients[c], w);
  }

  lemma DequeueStep(s: State, v: nat, w: nat)
    requires CanDequeue(s, v) && w < |s.workers|
    ensures var t := Dequeued(s, v); w < |t.workers| && Left(t, w) <= Left(s, w) && (v == w ==> Left(t, w) < Left(s, w))
  {
    hide Work;
  }

  lemma FinishStep(cap: nat, s: State, v: nat, w: nat)
    requires CanFinish(s, v) && Core(cap, s) && w < |s.workers|
    ensures var t := Finished(s, v); w < |t.workers| && Left(t, w) <= Left(s, w) && (v == w ==> Left(t, w) < Left(s, w))
  {
    hide Core, Work, Finished, KeyedReply, KeyedEffect, LockHand, ClientOk;
    BusyIsReady(cap, s, v);
    FinishShape(s, v);
    var t, c := Finished(s, v), s.workers[v].busy.value.client;
    ClientStep(s, t, c, w);
  }

  /** What the waiting drop itself may do. */
  lemma HolderStep(cap: nat, s: State, a: Action, w: nat)
    requires Core(cap, s) && LockHand(s).OldWorker? && LockHand(s).w == w && w < |s.workers| && Enabled(cap, s, a)
    requires a.DropSender? || a.Notice?
    ensures w < |Next(cap, s, a).workers| && Left(Next(cap, s, a), w) < Left(s, w)
  {
    hide Core, LockHand, Left, Work, ClientOk, NoNewOwner;
    OthersWait(cap, s, a.c);
    ClientStep(s, Next(cap, s, a), a.c, w);
  }

  lemma LockTaken(cap: nat, s: State)
    requires Core(cap, s) && LockHand(s).OldWorker?
    ensures s.lock.Some? && At(s, s.lock.value)
  {
  }

  /** Creates and drops other than the waiting one stand still. */
  lemma Blocked(cap: nat, s: State, a: Action)
    requires Core(cap, s) && LockHand(s).OldWorker?
    requires a.Acquire? || a.Check? || a.Spawn? || a.Publish? || a.Unpublish? || a.RemoveFile?
             || a.Unlock? || a.Shutdown?
    ensures !Enabled(cap, s, a)
  {
    hide Core, LockHand;
    LockTaken(cap, s);
    if !a.Shutdown? && !a.Acquire? && At(s, a.c) && PcOf(s, a.c).HoldsLock() {
      OthersWait(cap, s, a.c);
    }
  }

  lemma ExitStep(cap: nat, s: State, v: nat, w: nat)
    requires w < |s.workers| && Enabled(cap, s, Exit(v))
    ensures var t := Next(cap, s, Exit(v)); w < |t.workers| && Left(t, w) <= Left(s, w)
    ensures v == w ==> Left(Next(cap, s, Exit(v)), w) < Left(s, w)
  {
    hide Work, Unheld;
  }

  /** While a drop waits for its worker, no step of anyone raises what is left to wait for. */
  lemma LeftNeverGrows(cap: nat, s: State, a: Action)
    requires Core(cap, s) && LockHand(s).OldWorker? && Enabled(cap, s, a)
    ensures var w := LockHand(s).w;
            w < |s.workers| && w < |Next(cap, s, a).workers| && Left(Next(cap, s, a), w) <= Left(s, w)
  {
    OldIsUnpublished(cap, s);
    hide Core, LockHand, Left, Enabled, Next;
    var w := LockHand(s).w;
    match a
    case Connect => PeerSteps(cap, s, a, w);
    case Invoke(_, _) => PeerSteps(cap, s, a, w);
    case Disconnect(_) => PeerSteps(cap, s, a, w);
    case Abort(_) => PeerSteps(cap, s, a, w);
    case Stall(_) => PeerSteps(cap, s, a, w);
    case Resume(_) => PeerSteps(cap, s, a, w);
    case Load(_) => KeyedSteps(cap, s, a, w);
    case Lookup(_) => KeyedSteps(cap, s, a, w);
    case Reply(_) => KeyedSteps(cap, s, a, w);
    case Exit(v) => ExitStep(cap, s, v, w);
    case Enqueue(c) => EnqueueLeft(cap, s, c, w);
    case Dequeue(v) => DequeueLeft(cap, s, v, w);
    case Finish(v) => FinishLeft(cap, s, v, w);
    case DropSender(_) => HolderStep(cap, s, a, w);
    case Notice(_) => HolderStep(cap, s, a, w);
    case _ => Blocked(cap, s, a);
  }

  lemma EnqueueLeft(cap: nat, s: State, c: nat, w: nat)
    requires Enabled(cap, s, Enqueue(c)) && w < |s.workers|
    ensures var t := Next(cap, s, Enqueue(c)); w < |t.workers| && Left(t, w) <= Left(s, w)
    ensures PcOf(s, c).w == w ==> Left(Next(cap, s, Enqueue(c)), w) < Left(s, w)
  {
    hide Left;
    EnqueueStep(cap, s, c, w);
  }

  lemma DequeueLeft(cap: nat, s: State, v: nat, w: nat)
    requires Enabled(cap, s, Dequeue(v)) && w < |s.workers|
    ensures var t := Next(cap, s, Dequeue(v));
            w < |t.workers| && Left(t, w) <= Left(s, w) && (v == w ==> Left(t, w) < Left(s, w))
  {
    hide Left;
    DequeueStep(s, v, w);
  }

  lemma FinishLeft(cap: nat, s: State, v: nat, w: nat)
    requires Enabled(cap, s, Finish(v)) && Core(cap, s) && w < |s.workers|
    ensures var t := Next(cap, s, Finish(v));
            w < |t.workers| && Left(t, w) <= Left(s, w) && (v == w ==> Left(t, w) < Left(s, w))
  {
    hide Left, Core, Finished;
    FinishStep(cap, s, v, w);
  }

  // ---------- When some step lowers it ----------

  /** A step the server can take now that brings the end of the wait closer. */
  ghost predicate Progress(cap: nat, s: State, a: Action) {
    && LockHand(s).OldWorker? && LockHand(s).w < |s.workers| && Enabled(cap, s, a) && a.OfServer()
    && LockHand(s).w < |Next(cap, s, a).workers| && Left(Next(cap, s, a), LockHand(s).w) < Left(s, LockHand(s).w)
  }

  /** The drop waits for a worker that has nothing to do, and every sender that keeps the worker from exiting is with a
      connection whose peer does not take its response. */
  predicate Stuck(s: State) {
    && LockHand(s).OldWorker? && PcOf(s, s.lock.value).Draining?
    && Running(s, LockHand(s).w) && s.workers[LockHand(s).w].Pending() == [] && !Unheld(s, LockHand(s).w)
    && forall c | 0 <= c < |s.clients| :: s.clients[c].Busy? && s.clients[c].pc.Owns(LockHand(s).w) ==>
         s.clients[c].pc.Answered? && c in s.stalled
  }

  lemma CanLower(cap: nat, s: State, a: Action)
    requires LockHand(s).OldWorker? && LockHand(s).w < |s.workers| && Enabled(cap, s, a) && a.OfServer()
    requires LockHand(s).w < |Next(cap, s, a).workers| && Left(Next(cap, s, a), LockHand(s).w) < Left(s, LockHand(s).w)
    ensures Progress(cap, s, a)
  {
  }

  lemma OwnerProgress(cap: nat, s: State, a: Action)
    requires Core(cap, s) && LockHand(s).OldWorker? && LockHand(s).w < |s.workers| && Enabled(cap, s, a)
    requires (a.Lookup? || a.Reply? || a.Enqueue?) && PcOf(s, a.c).Owns(LockHand(s).w)
    ensures Progress(cap, s, a)
  {
    hide Core, LockHand, Left, Progress, Next;
    if a.Enqueue? {
      EnqueueLeft(cap, s, a.c, LockHand(s).w);
    } else {
      KeyedSteps(cap, s, a, LockHand(s).w);
    }
    CanLower(cap, s, a);
  }

  /** A client that still owns a sender of the idle worker can move, unless its peer keeps it from responding. */
  lemma OwnerMoves(cap: nat, s: State, c: nat) returns (a: Action)
    requires cap > 0 && Core(cap, s) && LockHand(s).OldWorker? && LockHand(s).w < |s.workers|
    requires s.workers[LockHand(s).w].alive && s.workers[LockHand(s).w].Pending() == []
    requires At(s, c) && PcOf(s, c).Owns(LockHand(s).w) && !PcOf(s, c).HoldsLock()
    requires !(PcOf(s, c).Answered? && c in s.stalled)
    ensures Progress(cap, s, a)
  {
    assert ClientOk(s, c);
    hide Core, LockHand, Progress, Next;
    a := if PcOf(s, c).Viewing? then Lookup(c) else if PcOf(s, c).Holding? then Enqueue(c) else Reply(c);
    OwnerProgress(cap, s, a);
  }

  lemma HolderProgress(cap: nat, s: State, a: Action)
    requires Core(cap, s) && LockHand(s).OldWorker? && LockHand(s).w < |s.workers| && Enabled(cap, s, a)
    requires a.DropSender? || a.Notice?
    ensures Progress(cap, s, a)
  {
    hide Core, LockHand, Left, Progress, Next;
    HolderStep(cap, s, a, LockHand(s).w);
    CanLower(cap, s, a);
  }

  lemma WorkerProgress(cap: nat, s: State, a: Action)
    requires Core(cap, s) && LockHand(s).OldWorker? && LockHand(s).w < |s.workers| && Enabled(cap, s, a)
    requires (a.Dequeue? || a.Finish? || a.Exit?) && a.w == LockHand(s).w
    ensures Progress(cap, s, a)
  {
    hide Core, LockHand, Left, Progress, Next, Enabled;
    match a {
      case Dequeue(w) => DequeueLeft(cap, s, w, w);
      case Finish(w) => FinishLeft(cap, s, w, w);
      case Exit(w) => ExitStep(cap, s, w, w);
    }
    CanLower(cap, s, a);
  }

  /** Unless it is stuck, the waiting drop is held up by nothing: not the queue, not a client, not a lost
      notification. */
  lemma WaitMovesOn(cap: nat, s: State) returns (a: Action)
    requires cap > 0 && Core(cap, s) && LockHand(s).OldWorker? && !Stuck(s)
    ensures Progress(cap, s, a)
  {
    OldIsUnpublished(cap, s);
    var w, h := LockHand(s).w, s.lock.value;
    assert ClientOk(s, h) && WorkerOk(cap, s, w);
    hide Core, WorkerOk, MapOk, Stuck, Progress, Next;
    if PcOf(s, h).Unpublished? {
      a := DropSender(h);
      HolderProgress(cap, s, a);
    } else if !s.workers[w].alive {
      a := Notice(h);
      HolderProgress(cap, s, a);
    } else {
      a := WorkerMovesOn(cap, s);
    }
  }

  lemma StuckFacts(cap: nat, s: State)
    requires Core(cap, s) && Stuck(s)
    ensures var w := LockHand(s).w; w < |s.workers| && !s.workers[w].permit && w !in s.dbMap.Values
    ensures s.lock.Some? && At(s, s.lock.value) && PcOf(s, s.lock.value) == Draining(LockHand(s).w)
  {
    OldIsUnpublished(cap, s);
    assert WorkerOk(cap, s, LockHand(s).w) && ClientOk(s, s.lock.value);
  }

  /** In a stuck state a moving client has nothing to do with the worker. */
  lemma MoverStands(cap: nat, s: State, a: Action, w: nat)
    requires Stuck(s) && LockHand(s).w == w && w < |s.workers| && w !in s.dbMap.Values && Enabled(cap, s, a)
    requires a.Load? || a.Lookup? || a.Reply?
    ensures w < |Next(cap, s, a).workers| && Left(Next(cap, s, a), w) == Left(s, w)
  {
    hide LockHand, Left, Work, Unheld;
    assert !PcOf(s, a.c).Owns(w);
    ClientStep(s, Next(cap, s, a), a.c, w);
  }

  lemma EnqueueStands(cap: nat, s: State, c: nat, w: nat)
    requires CanEnqueue(cap, s, c) && w < |s.workers| && PcOf(s, c).w != w
    ensures var t := Enqueued(cap, s, c); w < |t.workers| && Left(t, w) == Left(s, w)
  {
    hide Left, Work;
    ClientStep(s, Enqueued(cap, s, c), c, w);
  }

  /** In a stuck state other workers go on, and this one cannot. */
  lemma WorkerStands(cap: nat, s: State, a: Action, w: nat)
    requires Core(cap, s) && Stuck(s) && LockHand(s).w == w && w < |s.workers| && Enabled(cap, s, a)
    requires a.Dequeue? || a.Exit?
    ensures w < |Next(cap, s, a).workers| && Left(Next(cap, s, a), w) == Left(s, w)
  {
    hide Core, LockHand, Work;
  }

  lemma FinishStands(cap: nat, s: State, v: nat, w: nat)
    requires Core(cap, s) && Stuck(s) && LockHand(s).w == w && w < |s.workers| && Enabled(cap, s, Finish(v))
    ensures var t := Next(cap, s, Finish(v)); w < |t.workers| && Left(t, w) == Left(s, w)
  {
    hide Core, LockHand, Left, Work, Finished, ClientOk, KeyedReply, KeyedEffect, Reached, Unheld;
    BusyIsReady(cap, s, v);
    FinishShape(s, v);
    assert s.workers[w].busy.None? && v != w;
    ClientStep(s, Finished(s, v), s.workers[v].busy.value.client, w);
  }

  /** In a stuck state no step of the server brings the end closer. */
  lemma StuckStands(cap: nat, s: State, a: Action)
    requires Core(cap, s) && Stuck(s)
    ensures !Progress(cap, s, a)
  {
    StuckFacts(cap, s);
    hide Core, LockHand, Left, Work, Next, Enabled;
    var w := LockHand(s).w;
    if Enabled(cap, s, a) && a.OfServer() {
      match a
      case Dequeue(_) => WorkerStands(cap, s, a, w);
      case Finish(v) => FinishStands(cap, s, v, w);
      case Exit(_) => WorkerStands(cap, s, a, w);
      case Load(_) => MoverStands(cap, s, a, w);
      case Lookup(_) => MoverStands(cap, s, a, w);
      case Reply(_) => MoverStands(cap, s, a, w);
      case Enqueue(c) => SenderStands(cap, s, c, w);
      case DropSender(_) => HolderStands(cap, s, a);
      case Notice(_) => HolderStands(cap, s, a);
      case _ => Blocked(cap, s, a);
    }
  }

  lemma SenderStands(cap: nat, s: State, c: nat, w: nat)
    requires Stuck(s) && LockHand(s).w == w && w < |s.workers| && Enabled(cap, s, Enqueue(c))
    ensures var t := Next(cap, s, Enqueue(c)); w < |t.workers| && Left(t, w) == Left(s, w)
  {
    hide LockHand, Left, Unheld;
    assert !PcOf(s, c).Owns(w);
    EnqueueStands(cap, s, c, w);
  }

  lemma HolderStands(cap: nat, s: State, a: Action)
    requires Core(cap, s) && Stuck(s) && (a.DropSender? || a.Notice?)
    ensures !Enabled(cap, s, a)
  {
    StuckFacts(cap, s);
    hide Core, LockHand, Unheld;
    if At(s, a.c) && PcOf(s, a.c).HoldsLock() {
      OthersWait(cap, s, a.c);
    }
  }

  /** A waiting drop is held up exactly when it is stuck; with every peer taking its responses it never is. */
  lemma WaitIff(cap: nat, s: State)
    requires cap > 0 && Core(cap, s) && LockHand(s).OldWorker?
    ensures (exists a :: Progress(cap, s, a)) <==> !Stuck(s)
    ensures s.stalled == {} ==> !Stuck(s)
  {
    hide Core, LockHand, Progress;
    if Stuck(s) {
      forall a
        ensures !Progress(cap, s, a)
      {
        StuckStands(cap, s, a);
      }
      StuckFacts(cap, s);
      SomeOwner(s);
    } else {
      var a := WaitMovesOn(cap, s);
    }
  }

  lemma SomeOwner(s: State)
    requires Stuck(s)
    ensures LockHand(s).w !in s.dbMap.Values ==> s.stalled != {}
  {
  }

  lemma WorkerMovesOn(cap: nat, s: State) returns (a: Action)
    requires cap > 0 && Core(cap, s) && LockHand(s).OldWorker? && LockHand(s).w < |s.workers|
             && s.workers[LockHand(s).w].alive
    requires PcOf(s, s.lock.value).Draining? && !Stuck(s)
    ensures Progress(cap, s, a)
  {
    hide Core, LockHand, Left, Progress, Next, ClientOk;
    var w := LockHand(s).w;
    if s.workers[w].busy.Some? {
      BusyIsReady(cap, s, w);
      a := Finish(w);
      WorkerProgress(cap, s, a);
    } else if s.workers[w].queue != [] {
      a := Dequeue(w);
      WorkerProgress(cap, s, a);
    } else if Unheld(s, w) {
      a := Exit(w);
      WorkerProgress(cap, s, a);
    } else {
      a := SenderMovesOn(cap, s);
    }
  }

  /** The worker has nothing to do but someone still owns a sender. */
  lemma SenderMovesOn(cap: nat, s: State) returns (a: Action)
    requires cap > 0 && Core(cap, s) && LockHand(s).OldWorker? && Running(s, LockHand(s).w)
    requires s.workers[LockHand(s).w].Pending() == [] && !Unheld(s, LockHand(s).w)
    requires PcOf(s, s.lock.value).Draining? && !Stuck(s)
    ensures Progress(cap, s, a)
  {
    OldIsUnpublished(cap, s);
    hide Core, LockHand, Progress;
    var c :| 0 <= c < |s.clients| && s.clients[c].Busy? && s.clients[c].pc.Owns(LockHand(s).w)
             && !(s.clients[c].pc.Answered? && c in s.stalled);
    if s.clients[c].pc.HoldsLock() {
      OthersWait(cap, s, c);
    }
    a := OwnerMoves(cap, s, c);
  }

  // ---------- Over runs ----------

  /** From state `i` to state `j` of a run, one drop waits for worker `w`. */
  ghost predicate Waiting(tr: seq<State>, w: nat, i: nat, j: nat) {
    i <= j < |tr| &&
    forall k | i <= k <= j :: LockHand(tr[k]).OldWorker? && LockHand(tr[k]).w == w && w < |tr[k].workers|
  }

  /** How many steps between `i` and `j` brought the end closer. */
  ghost function Closer(tr: seq<State>, w: nat, i: nat, j: nat): nat
    requires Waiting(tr, w, i, j)
    decreases j - i
  {
    if i == j then 0
    else Closer(tr, w, i, j - 1) + if Left(tr[j], w) < Left(tr[j - 1], w) then 1 else 0
  }

  /** However the steps interleave, a wait takes at most `Left` steps that bring it closer, and at every point of it
      the server can take such a step unless the wait is stuck. */
  lemma {:induction false} WaitEnds(cap: nat, tr: seq<State>, w: nat, i: nat, j: nat)
    requires cap > 0 && Run(cap, tr) && Waiting(tr, w, i, j)
    ensures Closer(tr, w, i, j) + Left(tr[j], w) <= Left(tr[i], w)
    ensures (exists a :: Progress(cap, tr[j], a)) <==> !Stuck(tr[j])
    decreases j - i
  {
    hide Left, Core, LockHand, LinInv, Enabled, Next, Stuck, Progress;
    RunInv(cap, tr, j);
    WaitIff(cap, tr[j]);
    if i < j {
      WaitEnds(cap, tr, w, i, j - 1);
      RunInv(cap, tr, j - 1);
      assert Moves(cap, tr[j - 1], tr[j - 1 + 1]);
      var b :| Enabled(cap, tr[j - 1], b) && tr[j] == Next(cap, tr[j - 1], b);
      LeftNeverGrows(cap, tr[j - 1], b);
    }
  }

  /** If client `d` owns a sender of `w` in `t`, it did in `s`, for the same call. */
  predicate OwnedBefore(s: State, t: State, d: nat, w: nat) {
    At(t, d) && PcOf(t, d).Owns(w) ==> At(s, d) && PcOf(s, d).Owns(w) && s.clients[d].id == t.clients[d].id
  }

  lemma MoverOwnedBefore(cap: nat, s: State, a: Action, d: nat, w: nat)
    requires w !in s.dbMap.Values && Enabled(cap, s, a)
    requires a.Disconnect? || a.Invoke? || a.Load? || a.Lookup? || a.Reply? || a.Abort? || a.Connect?
             || a.Stall? || a.Resume?
    ensures OwnedBefore(s, Next(cap, s, a), d, w)
  {
  }

  lemma SenderOwnedBefore(cap: nat, s: State, a: Action, d: nat, w: nat)
    requires Enabled(cap, s, a)
    requires a.Enqueue? || a.Dequeue? || a.Exit? || a.DropSender? || a.Notice?
    ensures OwnedBefore(s, Next(cap, s, a), d, w)
  {
    hide Unheld;
  }

  lemma FinishOwnedBefore(cap: nat, s: State, v: nat, d: nat, w: nat)
    requires Core(cap, s) && Enabled(cap, s, Finish(v))
    ensures OwnedBefore(s, Next(cap, s, Finish(v)), d, w)
  {
    hide Core, LockHand, Finished, KeyedReply, KeyedEffect, ClientOk, Reached;
    BusyIsReady(cap, s, v);
    FinishShape(s, v);
  }

  /** No client comes to own a sender of the dropped database once its map is stored. */
  lemma NoNewSenders(cap: nat, s: State, a: Action, d: nat)
    requires Core(cap, s) && LockHand(s).OldWorker? && Enabled(cap, s, a)
    ensures OwnedBefore(s, Next(cap, s, a), d, LockHand(s).w)
  {
    OldIsUnpublished(cap, s);
    hide Core, LockHand, OwnedBefore, Next, Enabled;
    var w := LockHand(s).w;
    match a
    case Connect => MoverOwnedBefore(cap, s, a, d, w);
    case Disconnect(_) => MoverOwnedBefore(cap, s, a, d, w);
    case Invoke(_, _) => MoverOwnedBefore(cap, s, a, d, w);
    case Load(_) => MoverOwnedBefore(cap, s, a, d, w);
    case Lookup(_) => MoverOwnedBefore(cap, s, a, d, w);
    case Reply(_) => MoverOwnedBefore(cap, s, a, d, w);
    case Abort(_) => MoverOwnedBefore(cap, s, a, d, w);
    case Stall(_) => MoverOwnedBefore(cap, s, a, d, w);
    case Resume(_) => MoverOwnedBefore(cap, s, a, d, w);
    case Finish(v) => FinishOwnedBefore(cap, s, v, d, w);
    case Enqueue(_) => SenderOwnedBefore(cap, s, a, d, w);
    case Dequeue(_) => SenderOwnedBefore(cap, s, a, d, w);
    case Exit(_) => SenderOwnedBefore(cap, s, a, d, w);
    case DropSender(_) => SenderOwnedBefore(cap, s, a, d, w);
    case Notice(_) => SenderOwnedBefore(cap, s, a, d, w);
    case _ => Blocked(cap, s, a);
  }

  // ---------- A stuck wait stays stuck ----------

  /** Lock, worker, the waiting drop and every owner of a sender of `w` are as they were. */
  predicate Frozen(s: State, t: State, w: nat) {
    && t.lock == s.lock && s.lock.Some? && At(s, s.lock.value)
    && s.lock.value < |t.clients| && t.clients[s.lock.value] == s.clients[s.lock.value]
    && w < |s.workers| && w < |t.workers| && t.workers[w] == s.workers[w] && s.stalled <= t.stalled
    && forall d | 0 <= d < |s.clients| :: s.clients[d].Busy? && s.clients[d].pc.Owns(w) ==>
         d < |t.clients| && t.clients[d] == s.clients[d]
  }

  lemma FrozenMovers(cap: nat, s: State, a: Action, w: nat)
    requires Stuck(s) && LockHand(s).w == w && w < |s.workers| && Enabled(cap, s, a)
    requires s.lock.Some? && At(s, s.lock.value) && PcOf(s, s.lock.value).Draining?
    requires a.Connect? || a.Disconnect? || a.Invoke? || a.Stall? || a.Load? || a.Lookup? || a.Reply? || a.Enqueue?
    ensures Frozen(s, Next(cap, s, a), w)
  {
    hide LockHand, Unheld;
    if a.Load? || a.Lookup? || a.Reply? || a.Enqueue? {
      assert !PcOf(s, a.c).Owns(w) && a.c != s.lock.value;
    }
  }

  lemma FrozenWorkers(cap: nat, s: State, a: Action, w: nat)
    requires Core(cap, s) && Stuck(s) && LockHand(s).w == w && w < |s.workers| && Enabled(cap, s, a)
    requires s.lock.Some? && At(s, s.lock.value) && PcOf(s, s.lock.value).Draining?
    requires a.Dequeue? || a.Exit?
    ensures Frozen(s, Next(cap, s, a), w)
  {
    hide Core, LockHand;
  }

  lemma FrozenFinish(cap: nat, s: State, v: nat, w: nat)
    requires Core(cap, s) && Stuck(s) && LockHand(s).w == w && w < |s.workers| && Enabled(cap, s, Finish(v))
    requires s.lock.Some? && At(s, s.lock.value) && PcOf(s, s.lock.value).Draining?
    ensures Frozen(s, Next(cap, s, Finish(v)), w)
  {
    hide Core, LockHand, Finished, ClientOk, KeyedReply, KeyedEffect, Reached, Unheld;
    BusyIsReady(cap, s, v);
    FinishShape(s, v);
    assert s.workers[w].busy.None? && v != w;
    assert !PcOf(s, s.workers[v].busy.value.client).Owns(w);
    assert s.workers[v].busy.value.client != s.lock.value;
  }

  lemma FrozenIsStuck(s: State, t: State, w: nat)
    requires Stuck(s) && LockHand(s).w == w && Frozen(s, t, w) && w !in s.dbMap.Values
    requires forall d | 0 <= d < |t.clients| :: OwnedBefore(s, t, d, w)
    ensures Stuck(t) && LockHand(t) == LockHand(s)
  {
    assert LockHand(t) == LockHand(s);
    hide LockHand;
    var c :| 0 <= c < |s.clients| && s.clients[c].Busy? && s.clients[c].pc.Owns(w);
    assert t.clients[c].Busy? && t.clients[c].pc.Owns(w);
    forall d | 0 <= d < |t.clients| && t.clients[d].Busy? && t.clients[d].pc.Owns(w)
      ensures t.clients[d].pc.Answered? && d in t.stalled
    {
      assert OwnedBefore(s, t, d, w);
    }
  }

  /** Once stuck, the drop stays stuck with the lock in its hands, so no create and no other drop gets anywhere, until
      one of the peers takes its response or goes away. */
  lemma StuckStays(cap: nat, s: State, a: Action)
    requires Core(cap, s) && Stuck(s) && Enabled(cap, s, a) && !a.Resume? && !a.Abort?
    ensures Stuck(Next(cap, s, a)) && LockHand(Next(cap, s, a)) == LockHand(s)
  {
    StuckFacts(cap, s);
    hide Core, LockHand, Next, Enabled, Stuck, Frozen, OwnedBefore;
    var w := LockHand(s).w;
    forall d: nat
      ensures OwnedBefore(s, Next(cap, s, a), d, w)
    {
      StuckIsWaiting(s);
      NoNewSenders(cap, s, a, d);
    }
    match a {
      case Dequeue(_) => FrozenWorkers(cap, s, a, w);
      case Finish(v) => FrozenFinish(cap, s, v, w);
      case Exit(_) => FrozenWorkers(cap, s, a, w);
      case Connect => FrozenMovers(cap, s, a, w);
      case Disconnect(_) => FrozenMovers(cap, s, a, w);
      case Invoke(_, _) => FrozenMovers(cap, s, a, w);
      case Stall(_) => FrozenMovers(cap, s, a, w);
      case Load(_) => FrozenMovers(cap, s, a, w);
      case Lookup(_) => FrozenMovers(cap, s, a, w);
      case Reply(_) => FrozenMovers(cap, s, a, w);
      case Enqueue(_) => FrozenMovers(cap, s, a, w);
      case DropSender(_) => HolderStands(cap, s, a);
      case Notice(_) => HolderStands(cap, s, a);
      case _ =>
        StuckIsWaiting(s);
        Blocked(cap, s, a);
    }
    FrozenIsStuck(s, Next(cap, s, a), w);
  }

  lemma StuckIsWaiting(s: State)
    requires Stuck(s)
    ensures LockHand(s).OldWorker?
  {
  }

  // ---------- It happens ----------

  ghost predicate Reachable(cap: nat, s: State) {
    exists tr :: Run(cap, tr) && tr[|tr| - 1] == s
  }

  lemma ReachMore(cap: nat, s: State, a: Action)
    requires Reachable(cap, s) && Enabled(cap, s, a)
    ensures Reachable(cap, Next(cap, s, a))
  {
    hide Enabled, Next, Initial;
    var tr :| Run(cap, tr) && tr[|tr| - 1] == s;
    var more := tr + [Next(cap, s, a)];
    assert more[0] == tr[0];
    forall i | 0 <= i < |more| - 1
      ensures Moves(cap, more[i], more[i + 1])
    {
      if i < |tr| - 1 {
        assert Moves(cap, tr[i], tr[i + 1]);
      }
    }
    assert Run(cap, more) && more[|more| - 1] == Next(cap, s, a);
  }

  /** A server with the default database and one more, both empty, and two connections. */
  function Fresh(): State {
    var idle := n => Worker(n, map[], [], None, true, false, [], []);
    State(map[DEFAULT := 0, [0x61] := 1], None, map[DEFAULT := [], [0x61] := []], [idle(DEFAULT), idle([0x61])],
          [Ready, Ready], {}, false, [], [], 0, 0)
  }

  lemma FreshStarts()
    ensures Initial(Fresh().(clients := []))
  {
    assert Replay([]) == map[];
    hide Replay;
    var s := Fresh().(clients := []);
    assert s.dbMap.Keys == {DEFAULT, [0x61]} == s.files.Keys;
  }

  lemma FreshIsReachable(cap: nat)
    ensures Reachable(cap, Fresh())
  {
    hide Initial, Reachable;
    var s := Fresh().(clients := []);
    FreshStarts();
    StartIsReachable(cap, s);
    ReachMore(cap, s, Connect);
    var one := Next(cap, s, Connect);
    ReachMore(cap, one, Connect);
    assert Next(cap, one, Connect).clients == [Ready, Ready];
    assert Next(cap, one, Connect) == Fresh();
  }

  lemma StartIsReachable(cap: nat, s: State)
    requires Initial(s)
    ensures Reachable(cap, s)
  {
    hide Initial;
    assert Run(cap, [s]) && [s][|[s]| - 1] == s;
  }

  const ASK: Op := Get([0x61], [0])

  /** The first connection's request has got as far as `pc`; the second connection is idle. */
  ghost predicate Asking(cap: nat, s: State, pc: Pc, queue: seq<Message>, busy: Option<Message>) {
    && Reachable(cap, s) && s.clients == [Busy(0, ASK, pc), Ready] && s.dbMap == Fresh().dbMap && s.lock.None?
    && s.stalled == {} && |s.workers| == 2 && s.workers[1].alive && [0x61] in s.files
    && s.workers[1].name == [0x61] && s.workers[1].index == map[]
    && s.workers[1].queue == queue && s.workers[1].busy == busy
  }

  lemma AskInvoke(cap: nat) returns (s: State)
    ensures Asking(cap, s, Start, [], None)
  {
    hide Reachable;
    FreshIsReachable(cap);
    ReachMore(cap, Fresh(), Invoke(0, ASK));
    s := Next(cap, Fresh(), Invoke(0, ASK));
    assert s.clients == [Busy(0, ASK, Start), Ready];
  }

  lemma AskLookup(cap: nat) returns (s: State)
    ensures Asking(cap, s, Holding(1), [], None)
  {
    hide Reachable;
    s := AskInvoke(cap);
    ReachMore(cap, s, Load(0));
    s := Next(cap, s, Load(0));
    assert s.clients == [Busy(0, ASK, Viewing(s.dbMap)), Ready];
    ReachMore(cap, s, Lookup(0));
    s := Next(cap, s, Lookup(0));
    assert s.clients == [Busy(0, ASK, Holding(1)), Ready];
  }

  lemma AskDequeue(cap: nat) returns (s: State)
    requires cap > 0
    ensures Asking(cap, s, Sent(1), [], Some(Message(0, 0, ASK)))
  {
    hide Reachable, Fresh;
    s := AskLookup(cap);
    ReachMore(cap, s, Enqueue(0));
    s := Next(cap, s, Enqueue(0));
    assert s.clients == [Busy(0, ASK, Sent(1)), Ready] && s.workers[1].queue == [Message(0, 0, ASK)];
    ReachMore(cap, s, Dequeue(1));
    s := Next(cap, s, Dequeue(1));
  }

  /** The first connection's answer is ready, but it takes no bytes. */
  lemma AnswerWaits(cap: nat) returns (s: State)
    requires cap > 0
    ensures Reachable(cap, s) && s.clients == [Busy(0, ASK, Answered(1, KeyNotFound)), Ready]
    ensures s.dbMap == Fresh().dbMap && s.lock.None? && s.stalled == {0} && |s.workers| == 2
    ensures s.workers[1].name == [0x61] && s.workers[1].alive && s.workers[1].Pending() == []
  {
    hide Reachable, Fresh;
    s := AskDequeue(cap);
    ReachMore(cap, s, Finish(1));
    s := Next(cap, s, Finish(1));
    assert s.clients == [Busy(0, ASK, Answered(1, KeyNotFound)), Ready];
    ReachMore(cap, s, Stall(0));
    s := Next(cap, s, Stall(0));
  }

  /** The second connection drops the database and has got as far as `pc`. */
  ghost predicate Removing(cap: nat, s: State, id: nat, pc: Pc) {
    && Reachable(cap, s) && s.clients == [Busy(0, ASK, Answered(1, KeyNotFound)), Busy(id, Drop([0x61]), pc)]
    && s.stalled == {0} && |s.workers| == 2
    && s.workers[1].name == [0x61] && s.workers[1].alive && s.workers[1].Pending() == []
  }

  lemma DropLocks(cap: nat) returns (s: State, id: nat)
    requires cap > 0
    ensures Removing(cap, s, id, Locked) && s.lock == Some(1) && s.dbMap == Fresh().dbMap
  {
    hide Reachable, Fresh, ASK;
    s := AnswerWaits(cap);
    id := |s.hist|;
    ReachMore(cap, s, Invoke(1, Drop([0x61])));
    s := Next(cap, s, Invoke(1, Drop([0x61])));
    assert s.clients[1] == Busy(id, Drop([0x61]), Start);
    ReachMore(cap, s, Acquire(1));
    s := Next(cap, s, Acquire(1));
  }

  lemma DropRemoves(cap: nat) returns (s: State, id: nat)
    requires cap > 0
    ensures Removing(cap, s, id, Removed(s.dbMap - {[0x61]}, 1)) && s.lock == Some(1) && s.dbMap == Fresh().dbMap
  {
    hide Reachable;
    s, id := DropLocks(cap);
    ReachMore(cap, s, Check(1));
    s := Next(cap, s, Check(1));
  }

  /** It happens: one connection takes no bytes, and another's drop of the same database cannot end. */
  lemma StuckHappens(cap: nat) returns (s: State)
    requires cap > 0
    ensures Reachable(cap, s) && Stuck(s)
  {
    hide Reachable;
    var id;
    s, id := DropRemoves(cap);
    ReachMore(cap, s, Unpublish(1));
    s := Next(cap, s, Unpublish(1));
    assert s.clients[1] == Busy(id, Drop([0x61]), Unpublished(1));
    ReachMore(cap, s, DropSender(1));
    s := Next(cap, s, DropSender(1));
    assert s.clients[1] == Busy(id, Drop([0x61]), Draining(1)) && s.clients[0].pc.Owns(1);
    assert s.workers[1].Pending() == [];
  }
}
