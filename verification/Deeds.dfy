/** What each step of the server does to databases and logs, said of the request it works for; and that a server that
    waits for a request can always go on. */
module Deeds {
  import opened Bytes
  import opened Service
  import opened Wire
  import opened Server
  import Layers
  import Linear
  import Log
  import Manager
  import ManagerInv

  /** The request that connection `c` waits for. */
  predicate WaitsFor(w: State, c: nat, r: Request) {
    c < |w.conns| && |w.conns[c].told| < |w.conns[c].asked| && w.conns[c].asked[|w.conns[c].told|] == r
  }

  lemma BusyWaits(cap: nat, lim: Limits, st: Store, w: State, c: nat) returns (r: Request)
    requires Inv(cap, lim, st, w) && Manager.At(w.m, c)
    ensures WaitsFor(w, c, r) && Layers.OpOf(r) == Some(w.m.clients[c].op)
  {
    hide ManagerInv.Core, Linear.LinInv, Conversation, Layers.OpOf;
    assert InStep(w.m.clients[c], w.conns[c]);
    r := w.conns[c].asked[|w.conns[c].told|];
  }

  lemma FinishFor(cap: nat, lim: Limits, st: Store, w: State, v: nat) returns (r: Request)
    requires Inv(cap, lim, st, w) && Manager.CanFinish(w.m, v)
    ensures WaitsFor(w, w.m.workers[v].busy.value.client, r)
    ensures Layers.OpOf(r) == Some(w.m.workers[v].busy.value.op) && w.m.workers[v].name == r.db
  {
    Invariants(cap, lim, st, w);
    ManagerInv.BusyIsReady(cap, w.m, v);
    hide Inv, ManagerInv.Core, Layers.OpOf, ManagerInv.ClientOk;
    r := BusyWaits(cap, lim, st, w, w.m.workers[v].busy.value.client);
    Layers.OpNames(r);
  }

  lemma Invariants(cap: nat, lim: Limits, st: Store, w: State)
    requires Inv(cap, lim, st, w)
    ensures ManagerInv.Core(cap, w.m) && Linear.LinInv(st, w.m) && |w.conns| == |w.m.clients|
  {
  }

  /** When a worker finishes a query, a get has changed no database and logged nothing, a set has put its pair there and
      logged it, and a delete has taken its key away and logged that. */
  lemma WorkIsAsAsked(cap: nat, lim: Limits, st: Store, w: State, v: nat) returns (r: Request)
    requires Inv(cap, lim, st, w) && Enabled(cap, lim, w, Inner(Manager.Finish(v)))
    ensures WaitsFor(w, w.m.workers[v].busy.value.client, r)
    ensures w.m.workers[v].name in w.m.files && v < |Next(cap, lim, w, Inner(Manager.Finish(v))).m.workers|
    ensures var t := Next(cap, lim, w, Inner(Manager.Finish(v))).m;
            var was, now, log := w.m.workers[v].index, t.workers[v].index, w.m.files[w.m.workers[v].name];
            match r
            case Get(db, key) => now == was && t.files == w.m.files
            case Set(db, key, value) =>
              now == was[key := value] && t.files == w.m.files[db := log + [Log.Set(key, value)]]
            case Delete(db, key) => now == was - {key} && t.files == w.m.files[db := log + [Log.Delete(key)]]
            case _ => false
    ensures var t := Next(cap, lim, w, Inner(Manager.Finish(v))).m;
            Manager.Contents(t) ==
              if Manager.Published(w.m, v) then Manager.Contents(w.m)[r.db := t.workers[v].index]
              else Manager.Contents(w.m)
  {
    hide Inv, Manager.Finished, Manager.Contents, ManagerInv.Core, Linear.LinInv, KeyedEffect, KeyedReply;
    r := FinishFor(cap, lim, st, w, v);
    Invariants(cap, lim, st, w);
    ManagerInv.FinishShape(w.m, v);
    var m := w.m.workers[v].busy.value;
    EffectOf(w.m.workers[v].index, m.op);
    Linear.MapsExist(cap, w.m);
    Linear.OneIndexChanges(w.m, Manager.Finished(w.m, v), v);
    var log := w.m.files[w.m.workers[v].name];
    assert log + [] == log;
    assert w.m.files[w.m.workers[v].name := log] == w.m.files;
  }

  /** When a map is published, the waiting request is a create, and its name comes in with an empty database. */
  lemma PublishIsAsAsked(cap: nat, lim: Limits, st: Store, w: State, c: nat) returns (r: Request)
    requires Inv(cap, lim, st, w) && Enabled(cap, lim, w, Inner(Manager.Publish(c)))
    ensures WaitsFor(w, c, r) && r.Create? && r.db !in Manager.Contents(w.m)
    ensures var t := Next(cap, lim, w, Inner(Manager.Publish(c))).m;
            Manager.Contents(t) == Manager.Contents(w.m)[r.db := map[]] && t.files == w.m.files
  {
    hide Inv, Manager.Contents, ManagerInv.Core, Linear.LinInv, Effect;
    r := BusyWaits(cap, lim, st, w, c);
    Invariants(cap, lim, st, w);
    ManagerInv.PublishFacts(cap, w.m, c);
    Linear.SpawnedIsEmpty(cap, w.m, c);
    Linear.MapsExist(cap, w.m);
    hide ManagerInv.ClientOk, ManagerInv.MapOk, ManagerInv.LockHand;
    Linear.PublishedContents(w.m, Manager.PublishedMap(w.m, c), r.db, Manager.PcOf(w.m, c).w);
    CreateEffect(Manager.Contents(w.m), r.db);
  }

  lemma CreateEffect(st: Store, db: Name)
    requires db !in st
    ensures Effect(st, Service.Create(db)) == st[db := map[]]
  {
  }

  /** When a name is unpublished, the waiting request is a drop of it. */
  lemma UnpublishIsAsAsked(cap: nat, lim: Limits, st: Store, w: State, c: nat) returns (r: Request)
    requires Inv(cap, lim, st, w) && Enabled(cap, lim, w, Inner(Manager.Unpublish(c)))
    ensures WaitsFor(w, c, r) && r.Drop? && r.db in Manager.Contents(w.m) && r.db != DEFAULT
    ensures var t := Next(cap, lim, w, Inner(Manager.Unpublish(c))).m;
            Manager.Contents(t) == Manager.Contents(w.m) - {r.db} && t.files == w.m.files
  {
    hide Inv, Manager.Contents, ManagerInv.Core, Linear.LinInv, Effect;
    r := BusyWaits(cap, lim, st, w, c);
    Invariants(cap, lim, st, w);
    ManagerInv.UnpublishFacts(cap, w.m, c);
    Linear.RemovedIsDrop(cap, w.m, c);
    Linear.MapsExist(cap, w.m);
    hide ManagerInv.ClientOk, ManagerInv.MapOk, ManagerInv.LockHand;
    Linear.UnpublishedContents(w.m, Manager.UnpublishedMap(w.m, c), r.db);
    DropEffect(Manager.Contents(w.m), r.db);
  }

  lemma DropEffect(st: Store, db: Name)
    requires db != DEFAULT
    ensures Effect(st, Service.Drop(db)) == st - {db}
  {
  }

  /** A log appears only for a waiting create, empty, and goes only for a waiting drop of its name. */
  lemma LogsComeAndGo(cap: nat, lim: Limits, st: Store, w: State, a: Manager.Action) returns (r: Request)
    requires Inv(cap, lim, st, w) && Enabled(cap, lim, w, Inner(a)) && (a.Spawn? || a.RemoveFile?)
    ensures WaitsFor(w, a.c, r)
    ensures var t := Next(cap, lim, w, Inner(a)).m;
            && Manager.Contents(t) == Manager.Contents(w.m)
            && (a.Spawn? ==> r.Create? && r.db !in w.m.files && t.files == w.m.files[r.db := []])
            && (a.RemoveFile? ==> r.Drop? && r.db != DEFAULT && t.files == w.m.files - {r.db})
  {
    hide Inv, Manager.Contents, ManagerInv.Core, Linear.LinInv, Manager.SpawnedWorker;
    r := BusyWaits(cap, lim, st, w, a.c);
    Invariants(cap, lim, st, w);
    Linear.MapsExist(cap, w.m);
    LogOwner(cap, w.m, a);
    if a.Spawn? {
      ManagerInv.SpawnFresh(cap, w.m, a.c);
      ManagerInv.SpawnShape(w.m, a.c);
    }
    hide ManagerInv.ClientOk, ManagerInv.MapOk, ManagerInv.LockHand;
    Linear.SameContents(w.m, Manager.Next(cap, w.m, a));
  }

  lemma LogOwner(cap: nat, s: Manager.State, a: Manager.Action)
    requires ManagerInv.Core(cap, s) && Manager.Enabled(cap, s, a) && (a.Spawn? || a.RemoveFile?)
    ensures a.Spawn? ==> s.clients[a.c].op.Create?
    ensures a.RemoveFile? ==> s.clients[a.c].op.Drop? && s.clients[a.c].op.db != DEFAULT
  {
    assert ManagerInv.ClientOk(s, a.c);
  }

  /** No other step, of the server or of any client, changes a database or a log. */
  lemma NothingElse(cap: nat, lim: Limits, st: Store, w: State, step: Step)
    requires Inv(cap, lim, st, w) && Enabled(cap, lim, w, step)
    requires step.Inner? ==> !step.a.Finish? && !step.a.Publish? && !step.a.Unpublish? && !step.a.Spawn?
                             && !step.a.RemoveFile? && !step.a.Shutdown?
    ensures var t := Next(cap, lim, w, step).m; Manager.Contents(t) == Manager.Contents(w.m) && t.files == w.m.files
  {
    hide Inv, Manager.Contents, ManagerInv.Core, Next, Enabled;
    Invariants(cap, lim, st, w);
    Linear.MapsExist(cap, w.m);
    if step.Inner? {
      InnerElse(cap, lim, w, step.a);
    } else {
      OuterElse(cap, lim, w, step);
    }
    Linear.SameContents(w.m, Next(cap, lim, w, step).m);
  }

  /** Same databases, same logs. */
  predicate Untouched(s: Manager.State, t: Manager.State) {
    && t.dbMap == s.dbMap && t.files == s.files && |t.workers| == |s.workers|
    && forall v | 0 <= v < |s.workers| :: t.workers[v].index == s.workers[v].index
  }

  lemma OuterElse(cap: nat, lim: Limits, w: State, step: Step)
    requires Enabled(cap, lim, w, step) && !step.Inner?
    ensures Untouched(w.m, Next(cap, lim, w, step).m)
  {
    hide ParseRequest, EncodeRequest, EncodeResponse, Layers.OpOf, Layers.AnswerOf;
  }

  lemma InnerElse(cap: nat, lim: Limits, w: State, a: Manager.Action)
    requires Enabled(cap, lim, w, Inner(a)) && !a.Finish? && !a.Publish? && !a.Unpublish? && !a.Spawn?
             && !a.RemoveFile? && !a.Shutdown?
    ensures Untouched(w.m, Next(cap, lim, w, Inner(a)).m)
  {
    hide Manager.Enabled, Manager.Next;
    ActionElse(cap, w.m, a);
  }

  lemma ActionElse(cap: nat, s: Manager.State, a: Manager.Action)
    requires Manager.Enabled(cap, s, a) && !a.Finish? && !a.Publish? && !a.Unpublish? && !a.Spawn? && !a.RemoveFile?
             && !a.Shutdown?
    ensures Untouched(s, Manager.Next(cap, s, a))
  {
    hide Manager.Unheld, Manager.Checked;
    if a.Check? {
      ManagerInv.CheckedShape(s, a.c);
    }
  }

  // ---------- A server that listens ----------

  /** Whatever bytes come next, a server that waits for a request has a step to take: serve it, answer it on the spot,
      refuse it, or end the connection. Only the last two responses wait for a peer that takes no bytes, and info
      requests are left out. */
  lemma ListensMeansMoves(cap: nat, lim: Limits, w: State, c: nat)
    requires Listens(w, c) && forall db :: !Hears(lim, w, c, Info(db))
    ensures Enabled(cap, lim, w, Take(c)) || Enabled(cap, lim, w, End(c)) || c in w.m.stalled
            || Enabled(cap, lim, w, Refuse(c)) || exists rsp :: Enabled(cap, lim, w, Local(c, rsp))
  {
    hide ParseRequest, Layers.OpOf;
    if Rest(w, c) != [] && ParseRequest(lim, Rest(w, c)).Accepted? {
      var r := ParseRequest(lim, Rest(w, c)).request;
      assert Hears(lim, w, c, r);
      Layers.OpNames(r);
      if r.Ping? && c !in w.m.stalled {
        assert OnTheSpot(r, Pong(Ascii("PONG")));
        assert Enabled(cap, lim, w, Local(c, Pong(Ascii("PONG"))));
      } else if r.Stats? && c !in w.m.stalled {
        assert OnTheSpot(r, Wire.Ok([]));
        assert Enabled(cap, lim, w, Local(c, Wire.Ok([])));
      }
    }
  }
}
