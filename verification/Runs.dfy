/** What holds at every moment of every run of the manager. */
module Runs {
  import opened Bytes
  import opened Log
  import opened Service
  import opened Manager
  import opened ManagerInv
  import opened Linear

  // ---------- Workers, queues and files ----------

  /** No two running workers ever own the same log, through concurrent creates, drops and re-creates of one name. */
  lemma OneWriterPerLog(cap: nat, tr: seq<State>, i: nat)
    requires Run(cap, tr) && i < |tr|
    ensures SingleWriter(tr[i])
  {
    hide SingleWriter, LinInv, Run, WorkerOk, ClientOk, MapOk, FilesOk;
    RunInv(cap, tr, i);
  }

  /** Queries are answered in the order they were queued, each once; a worker that has exited has answered them all. */
  lemma AnsweredInOrder(cap: nat, tr: seq<State>, i: nat, w: nat)
    requires Run(cap, tr) && i < |tr| && w < |tr[i].workers|
    ensures var x := tr[i].workers[w];
            && x.answered <= x.accepted && Distinct(x.accepted) && |x.queue| <= cap
            && (!x.alive ==> x.answered == x.accepted)
  {
    hide LinInv, Run, ClientOk, MapOk, FilesOk, Replay;
    RunInv(cap, tr, i);
    assert WorkerOk(cap, tr[i], w);
    hide Core;
  }

  /** Nobody owns a sender of a worker that has exited. */
  lemma ExitedIsUnheld(cap: nat, s: State, w: nat)
    requires Core(cap, s) && w < |s.workers| && !s.workers[w].alive
    ensures Unheld(s, w)
  {
    hide WorkerOk, Replay, LockHand;
    forall c | 0 <= c < |s.clients| && s.clients[c].Busy?
      ensures !s.clients[c].pc.Owns(w)
    {
      assert ClientOk(s, c);
    }
  }

  /** Before a drop removes the file, its worker has exited, has answered every query it accepted, and nobody is left
      who could send another. */
  lemma FileGoesLast(cap: nat, tr: seq<State>, i: nat, c: nat)
    requires Run(cap, tr) && i < |tr| && Enabled(cap, tr[i], RemoveFile(c))
    ensures var s, w := tr[i], PcOf(tr[i], c).w;
            && w < |s.workers| && s.workers[w].name == s.clients[c].op.db && !s.workers[w].alive
            && s.workers[w].answered == s.workers[w].accepted && Unheld(s, w) && s.clients[c].op.db !in s.dbMap
  {
    hide LinInv, Run, WorkerOk, MapOk, FilesOk, Unheld;
    RunInv(cap, tr, i);
    assert ClientOk(tr[i], c);
    hide Core;
    AnsweredInOrder(cap, tr, i, PcOf(tr[i], c).w);
    ExitedIsUnheld(cap, tr[i], PcOf(tr[i], c).w);
  }

  /** Whoever owns a sender to queue a query finds the worker running, even when its database was dropped meanwhile. */
  lemma SendNeverFails(cap: nat, tr: seq<State>, i: nat, c: nat)
    requires Run(cap, tr) && i < |tr| && At(tr[i], c) && (PcOf(tr[i], c).Holding? || PcOf(tr[i], c).Sent?)
    ensures RunsAs(tr[i], PcOf(tr[i], c).w, tr[i].clients[c].op.db)
    ensures PcOf(tr[i], c).Sent? ==>
              Message(c, tr[i].clients[c].id, tr[i].clients[c].op) in tr[i].workers[PcOf(tr[i], c).w].Pending()
  {
    hide LinInv, Run, WorkerOk, MapOk, FilesOk;
    RunInv(cap, tr, i);
    assert ClientOk(tr[i], c);
    hide Core;
  }

  /** A running worker's index is the replay of its log, and the log is there. */
  lemma IndexAgreesWithLog(cap: nat, tr: seq<State>, i: nat, w: nat)
    requires Run(cap, tr) && i < |tr| && Running(tr[i], w)
    ensures var x := tr[i].workers[w]; x.name in tr[i].files && Replay(tr[i].files[x.name]) == x.index
  {
    hide LinInv, Run, ClientOk, MapOk, FilesOk, Replay;
    RunInv(cap, tr, i);
    assert WorkerOk(cap, tr[i], w);
    hide Core;
  }

  /** A create always finds no log left under its name, so a re-created database starts empty. */
  lemma RecreatedStartsEmpty(cap: nat, tr: seq<State>, i: nat, c: nat)
    requires Run(cap, tr) && i < |tr| && CanSpawn(tr[i], c)
    ensures var t := SpawnedWorker(tr[i], c);
            && tr[i].clients[c].op.db !in tr[i].files
            && |t.workers| == |tr[i].workers| + 1 && t.workers[|tr[i].workers|].index == map[]
  {
    hide LinInv, Run, Core;
    RunInv(cap, tr, i);
    SpawnFresh(cap, tr[i], c);
  }

  /** A server may start on any logs at all, the default database's and any other's among them. */
  lemma AnyLogsStart(cap: nat, db: Name, records: seq<Record>, others: seq<Record>) returns (s: State)
    requires db != DEFAULT
    ensures Initial(s) && Run(cap, [s]) && s.files == map[DEFAULT := others, db := records]
    ensures Contents(s) == map[DEFAULT := Replay(others), db := Replay(records)]
  {
    hide Replay;
    var a := Worker(DEFAULT, Replay(others), [], None, true, false, [], []);
    var b := Worker(db, Replay(records), [], None, true, false, [], []);
    s := State(map[DEFAULT := 0, db := 1], None, map[DEFAULT := others, db := records], [a, b],
               [], {}, false, [], [], 0, 0);
    assert s.dbMap.Keys == {DEFAULT, db} == s.files.Keys;
  }

  // ---------- The published map ----------

  /** What each step does to the published map: a create adds one name, a drop takes one away, and both start from
      the map as it is published at that moment. */
  lemma MapSteps(cap: nat, s: State, a: Action)
    requires Core(cap, s) && Enabled(cap, s, a)
    ensures var t := Next(cap, s, a);
            match a
            case Publish(c) =>
              && s.clients[c].op.Create? && s.clients[c].op.db !in s.dbMap
              && t.dbMap == s.dbMap[s.clients[c].op.db := PcOf(s, c).w] && RunsAs(s, PcOf(s, c).w, s.clients[c].op.db)
            case Unpublish(c) =>
              && s.clients[c].op.Drop? && s.clients[c].op.db in s.dbMap && s.clients[c].op.db != DEFAULT
              && t.dbMap == s.dbMap - {s.clients[c].op.db}
            case Shutdown => t.dbMap == map[]
            case _ => t.dbMap == s.dbMap
  {
    hide Core, LockHand, ClientOk, MapOk;
    if a.Publish? {
      hide Finished, Replied, Enqueued, Dequeued, Checked, SpawnedWorker, UnpublishedMap, Loaded, LookedUp, Called;
      PublishFacts(cap, s, a.c);
      SpawnedIsEmpty(cap, s, a.c);
    } else if a.Unpublish? {
      hide Finished, Replied, Enqueued, Dequeued, Checked, SpawnedWorker, PublishedMap, Loaded, LookedUp, Called;
      UnpublishFacts(cap, s, a.c);
      RemovedIsDrop(cap, s, a.c);
    } else {
      OtherMapSteps(cap, s, a);
    }
  }

  lemma OtherMapSteps(cap: nat, s: State, a: Action)
    requires Enabled(cap, s, a) && !a.Publish? && !a.Unpublish?
    ensures Next(cap, s, a).dbMap == if a.Shutdown? then map[] else s.dbMap
  {
    hide Finished, Checked, Replay, Unheld, Manager.Recovered;
    if a.Finish? {
      FinishShape(s, a.w);
    } else if a.Check? {
      CheckedShape(s, a.c);
    }
  }

  /** The names left by the successful creates and drops of a sequential run. */
  function NamesAfter(names: set<Name>, run: seq<Entry>): set<Name>
    decreases |run|
  {
    if run == [] then names
    else
      var e := run[0];
      var next := if e.reply != Done then names
                  else if e.op.Create? then names + {e.op.db}
                  else if e.op.Drop? then names - {e.op.db}
                  else names;
      NamesAfter(next, run[1..])
  }

  lemma EffectNames(st: Store, e: Entry)
    requires e.reply == Respond(st, e.op)
    ensures Effect(st, e.op).Keys ==
            if e.reply != Done then st.Keys
            else if e.op.Create? then st.Keys + {e.op.db}
            else if e.op.Drop? then st.Keys - {e.op.db}
            else st.Keys
  {
    hide KeyedEffect;
  }

  lemma {:induction false} NamesFollow(st: Store, run: seq<Entry>)
    requires Legal(st, run)
    ensures After(st, run).Keys == NamesAfter(st.Keys, run)
    decreases |run|
  {
    hide Effect, Respond;
    if run != [] {
      EffectNames(st, run[0]);
      NamesFollow(Effect(st, run[0].op), run[1..]);
    }
  }

  /** No create or drop is ever lost: until shutdown, what clients can reach is the result of running the recorded calls
      one by one, and its names are those the successful creates and drops leave. */
  lemma NoLostUpdates(cap: nat, tr: seq<State>, i: nat)
    requires Run(cap, tr) && i < |tr| && !tr[i].down
    ensures Contents(tr[i]) == After(Contents(tr[0]), tr[i].lin)
    ensures tr[i].dbMap.Keys == NamesAfter(tr[0].dbMap.Keys, tr[i].lin) && DEFAULT in tr[i].dbMap
  {
    hide Run, Core, Contents, Matches, Status, DropOk, After, Legal, NamesAfter;
    RunInv(cap, tr, i);
    RunInv(cap, tr, 0);
    MapsExist(cap, tr[i]);
    MapsExist(cap, tr[0]);
    NamesFollow(Contents(tr[0]), tr[i].lin);
    DefaultStays(cap, tr[i]);
  }

  lemma DefaultStays(cap: nat, s: State)
    requires Core(cap, s) && !s.down
    ensures DEFAULT in s.dbMap
  {
  }

  /** What a lock-free reader looks at is a map that was published, whole, at some moment. */
  lemma {:induction false} ViewsWerePublished(cap: nat, tr: seq<State>, i: nat, c: nat)
    requires Run(cap, tr) && i < |tr| && At(tr[i], c) && PcOf(tr[i], c).Viewing?
    ensures exists k :: 0 <= k <= i && tr[k].dbMap == PcOf(tr[i], c).view
    decreases i
  {
    hide Enabled, Next, Replay, Published, PcOf;
    if i > 0 {
      assert Moves(cap, tr[i - 1], tr[i - 1 + 1]);
      var a :| Enabled(cap, tr[i - 1], a) && tr[i] == Next(cap, tr[i - 1], a);
      ViewStep(cap, tr[i - 1], a, c);
      if tr[i - 1].dbMap != PcOf(tr[i], c).view {
        ViewsWerePublished(cap, tr, i - 1, c);
      }
    }
  }

  /** A view is what it was, or the map as it was published before the step. */
  predicate ViewKept(s: State, t: State, c: nat) {
    At(t, c) && PcOf(t, c).Viewing? ==>
      PcOf(t, c).view == s.dbMap || (At(s, c) && PcOf(s, c) == Viewing(PcOf(t, c).view))
  }

  lemma ViewAfterMove(cap: nat, s: State, a: Action, c: nat)
    requires Enabled(cap, s, a)
    requires a.Connect? || a.Disconnect? || a.Invoke? || a.Load? || a.Lookup? || a.Enqueue? || a.Reply? || a.Stall?
             || a.Resume? || a.Abort? || a.Shutdown?
    ensures ViewKept(s, Next(cap, s, a), c)
  {
  }

  lemma ViewUnderLock(cap: nat, s: State, a: Action, c: nat)
    requires Enabled(cap, s, a)
    requires a.Acquire? || a.Check? || a.Spawn? || a.Publish? || a.Unpublish? || a.DropSender? || a.Notice?
             || a.RemoveFile? || a.Unlock?
    ensures ViewKept(s, Next(cap, s, a), c)
  {
    hide Replay, Manager.Recovered;
  }

  lemma ViewAfterWork(cap: nat, s: State, a: Action, c: nat)
    requires Enabled(cap, s, a)
    requires a.Dequeue? || a.Finish? || a.Exit?
    ensures ViewKept(s, Next(cap, s, a), c)
  {
    hide KeyedReply, KeyedEffect, Finished, Unheld;
    if a.Finish? {
      FinishShape(s, a.w);
    }
  }

  lemma ViewStep(cap: nat, s: State, a: Action, c: nat)
    requires Enabled(cap, s, a)
    ensures ViewKept(s, Next(cap, s, a), c)
  {
    hide Enabled, Next, ViewKept;
    if a.Dequeue? || a.Finish? || a.Exit? {
      ViewAfterWork(cap, s, a, c);
    } else if a.Acquire? || a.Check? || a.Spawn? || a.Publish? || a.Unpublish? || a.DropSender? || a.Notice?
              || a.RemoveFile? || a.Unlock? {
      ViewUnderLock(cap, s, a, c);
    } else {
      ViewAfterMove(cap, s, a, c);
    }
  }
}
