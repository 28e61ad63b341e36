/** It happens: a run in which one connection sends any list of requests and every one is served. */
module Happens {
  import opened Bytes
  import opened Service
  import opened Wire
  import opened Server
  import Layers
  import Log
  import Manager
  import Sessions

  /** A started server with nothing but the default database, empty. */
  function Started(): State {
    var idle := Manager.Worker(DEFAULT, map[], [], None, true, false, [], []);
    State(Manager.State(map[DEFAULT := 0], None, map[DEFAULT := []], [idle], [], {}, false, [], [], 0, 0), [])
  }

  lemma StartedIsInitial()
    ensures Initial(Started())
  {
    assert Log.Replay([]) == map[];
    hide Log.Replay;
    assert Started().m.dbMap.Keys == {DEFAULT} == Started().m.files.Keys;
  }

  /** One connection sends `bytes`, of which `taken` have been read, and its task has got as far as `x`. */
  predicate Alone(w: State, bytes: Data, taken: nat, x: Manager.Client) {
    && w.m.clients == [x] && w.m.dbMap == map[DEFAULT := 0] && w.m.stalled == {} && DEFAULT in w.m.files
    && |w.m.workers| == 1 && w.m.workers[0].name == DEFAULT && w.m.workers[0].alive
    && |w.conns| == 1 && w.conns[0].bytes == bytes && w.conns[0].taken == taken <= |bytes|
  }

  predicate Queued(w: State, queue: seq<Manager.Message>, busy: Option<Manager.Message>) {
    |w.m.workers| == 1 && w.m.workers[0].queue == queue && w.m.workers[0].busy == busy
  }

  /** The run `tr` ends in `w`. */
  ghost predicate EndsIn(cap: nat, lim: Limits, tr: seq<State>, w: State) {
    Run(cap, lim, tr) && tr[0] == Started() && tr[|tr| - 1] == w
  }

  lemma OneStep(cap: nat, lim: Limits, tr: seq<State>, w: State, step: Step) returns (more: seq<State>)
    requires EndsIn(cap, lim, tr, w) && Enabled(cap, lim, w, step)
    ensures EndsIn(cap, lim, more, Next(cap, lim, w, step))
  {
    hide Enabled, Next, Initial, Started;
    more := tr + [Next(cap, lim, w, step)];
    assert more[0] == tr[0];
    forall i | 0 <= i < |more| - 1
      ensures Moves(cap, lim, more[i], more[i + 1])
    {
      if i < |tr| - 1 {
        assert Moves(cap, lim, tr[i], tr[i + 1]);
      }
    }
  }

  lemma Arrives(cap: nat, lim: Limits, bytes: Data) returns (tr: seq<State>, w: State)
    ensures EndsIn(cap, lim, tr, w) && Alone(w, bytes, 0, Manager.Ready) && Queued(w, [], None)
  {
    hide Initial, EndsIn;
    var s := Started();
    StartedIsInitial();
    assert EndsIn(cap, lim, [s], s) by { StartsRun(cap, lim, s); }
    tr := OneStep(cap, lim, [s], s, Accept(bytes));
    w := Next(cap, lim, s, Accept(bytes));
  }

  lemma StartsRun(cap: nat, lim: Limits, s: State)
    requires Initial(s) && s == Started()
    ensures EndsIn(cap, lim, [s], s)
  {
    hide Initial, Started;
  }

  /** The next bytes are a request for the default database. */
  predicate Sends(lim: Limits, bytes: Data, taken: nat, r: Request) {
    && taken <= |bytes| && bytes[taken..] != [] && ParseRequest(lim, bytes[taken..]) == Accepted(r)
    && Layers.OpOf(r).Some? && Layers.OpOf(r).value.Keyed() && r.db == DEFAULT
    && taken + |EncodeRequest(r)| <= |bytes|
  }

  lemma Asks(cap: nat, lim: Limits, tr: seq<State>, w: State, bytes: Data, taken: nat, r: Request)
    returns (more: seq<State>, v: State, id: nat)
    requires EndsIn(cap, lim, tr, w) && Alone(w, bytes, taken, Manager.Ready) && Queued(w, [], None)
    requires Sends(lim, bytes, taken, r)
    ensures EndsIn(cap, lim, more, v) && Queued(v, [], None)
    ensures Alone(v, bytes, taken + |EncodeRequest(r)|, Manager.Busy(id, Layers.OpOf(r).value, Manager.Start))
  {
    hide EndsIn, ParseRequest, EncodeRequest, Layers.OpOf;
    id := |w.m.hist|;
    assert Hears(lim, w, 0, r);
    more := OneStep(cap, lim, tr, w, Take(0));
    v := Next(cap, lim, w, Take(0));
  }

  lemma FindsWorker(cap: nat, lim: Limits, tr: seq<State>, w: State, bytes: Data, taken: nat, id: nat, op: Op)
    returns (more: seq<State>, v: State)
    requires EndsIn(cap, lim, tr, w) && Alone(w, bytes, taken, Manager.Busy(id, op, Manager.Start))
    requires Queued(w, [], None) && op.Keyed() && op.db == DEFAULT
    ensures EndsIn(cap, lim, more, v) && Alone(v, bytes, taken, Manager.Busy(id, op, Manager.Holding(0)))
    ensures Queued(v, [], None)
  {
    hide EndsIn;
    more := OneStep(cap, lim, tr, w, Inner(Manager.Load(0)));
    v := Next(cap, lim, w, Inner(Manager.Load(0)));
    assert v.m.clients == [Manager.Busy(id, op, Manager.Viewing(w.m.dbMap))];
    var u := v;
    more := OneStep(cap, lim, more, u, Inner(Manager.Lookup(0)));
    v := Next(cap, lim, u, Inner(Manager.Lookup(0)));
    assert v.m.clients == [Manager.Busy(id, op, Manager.Holding(0))];
  }

  lemma IsWorkedOn(cap: nat, lim: Limits, tr: seq<State>, w: State, bytes: Data, taken: nat, id: nat, op: Op)
    returns (more: seq<State>, v: State)
    requires EndsIn(cap, lim, tr, w) && Alone(w, bytes, taken, Manager.Busy(id, op, Manager.Holding(0)))
    requires Queued(w, [], None) && op.Keyed() && cap > 0
    ensures EndsIn(cap, lim, more, v) && Alone(v, bytes, taken, Manager.Busy(id, op, Manager.Sent(0)))
    ensures Queued(v, [], Some(Manager.Message(0, id, op)))
  {
    hide EndsIn;
    more := OneStep(cap, lim, tr, w, Inner(Manager.Enqueue(0)));
    v := Next(cap, lim, w, Inner(Manager.Enqueue(0)));
    assert v.m.clients == [Manager.Busy(id, op, Manager.Sent(0))];
    var u := v;
    assert u.m.workers[0].queue == [Manager.Message(0, id, op)];
    more := OneStep(cap, lim, more, u, Inner(Manager.Dequeue(0)));
    v := Next(cap, lim, u, Inner(Manager.Dequeue(0)));
  }

  lemma IsAnswered(cap: nat, lim: Limits, tr: seq<State>, w: State, bytes: Data, taken: nat, id: nat, op: Op)
    returns (more: seq<State>, v: State)
    requires EndsIn(cap, lim, tr, w) && Alone(w, bytes, taken, Manager.Busy(id, op, Manager.Sent(0)))
    requires Queued(w, [], Some(Manager.Message(0, id, op))) && op.Keyed()
    ensures EndsIn(cap, lim, more, v) && Alone(v, bytes, taken, Manager.Ready) && Queued(v, [], None)
  {
    hide EndsIn, KeyedEffect, EncodeResponse;
    more := OneStep(cap, lim, tr, w, Inner(Manager.Finish(0)));
    v := Next(cap, lim, w, Inner(Manager.Finish(0)));
    var u := v;
    assert u.m.clients == [Manager.Busy(id, op, Manager.Answered(0, KeyedReply(w.m.workers[0].index, op)))];
    more := OneStep(cap, lim, more, u, Respond(0));
    v := Next(cap, lim, u, Respond(0));
  }

  lemma OneRequest(cap: nat, lim: Limits, tr: seq<State>, w: State, bytes: Data, taken: nat, r: Request)
    returns (more: seq<State>, v: State)
    requires EndsIn(cap, lim, tr, w) && Alone(w, bytes, taken, Manager.Ready) && Queued(w, [], None)
    requires Sends(lim, bytes, taken, r) && cap > 0
    ensures EndsIn(cap, lim, more, v) && Queued(v, [], None)
    ensures Alone(v, bytes, taken + |EncodeRequest(r)|, Manager.Ready)
  {
    hide EndsIn, ParseRequest, EncodeRequest, Layers.OpOf, Alone, Queued;
    var id;
    more, v, id := Asks(cap, lim, tr, w, bytes, taken, r);
    var op, to := Layers.OpOf(r).value, taken + |EncodeRequest(r)|;
    Layers.OpNames(r);
    more, v := FindsWorker(cap, lim, more, v, bytes, to, id, op);
    more, v := IsWorkedOn(cap, lim, more, v, bytes, to, id, op);
    more, v := IsAnswered(cap, lim, more, v, bytes, to, id, op);
  }

  /** Faultless gets, sets and deletes on the default database. */
  predicate Simple(lim: Limits, rs: seq<Request>) {
    forall k | 0 <= k < |rs| ::
      && (rs[k].Get? || rs[k].Set? || rs[k].Delete?) && rs[k].db == DEFAULT
      && rs[k].Fits() && FirstFault(lim, rs[k]).None?
  }

  lemma {:induction false} RequestsAppend(a: seq<Request>, b: seq<Request>)
    ensures EncodeRequests(a + b) == EncodeRequests(a) + EncodeRequests(b)
    decreases |a|
  {
    hide EncodeRequest;
    if a == [] {
      assert a + b == b;
    } else {
      assert (a + b)[1..] == a[1..] + b;
      RequestsAppend(a[1..], b);
    }
  }

  lemma NextRequest(lim: Limits, rs: seq<Request>, n: nat)
    requires Simple(lim, rs) && n < |rs|
    ensures Sends(lim, EncodeRequests(rs), |EncodeRequests(rs[..n])|, rs[n])
    ensures EncodeRequests(rs[..n + 1]) == EncodeRequests(rs[..n]) + EncodeRequest(rs[n])
    ensures EncodeRequests(rs[..n + 1]) <= EncodeRequests(rs)
  {
    hide EncodeRequests, EncodeRequest, ParseRequest, FirstFault, Request.Fits;
    var rest := EncodeRequests(rs[n + 1..]);
    RequestsAppend(rs[..n + 1], rs[n + 1..]);
    RequestsSnoc(rs[..n], rs[n]);
    assert rs == rs[..n + 1] + rs[n + 1..] && rs[..n + 1] == rs[..n] + [rs[n]];
    assert EncodeRequests(rs)[|EncodeRequests(rs[..n])|..] == EncodeRequest(rs[n]) + rest;
    RequestVerdict(lim, rs[n], rest);
  }

  /** For any such list there is a run in which one connection sends it and the server has served its first `n`. */
  lemma {:induction false} ListHappens(cap: nat, lim: Limits, rs: seq<Request>, n: nat)
    returns (tr: seq<State>, w: State)
    requires cap > 0 && Simple(lim, rs) && n <= |rs|
    ensures EndsIn(cap, lim, tr, w) && Queued(w, [], None)
    ensures Alone(w, EncodeRequests(rs), |EncodeRequests(rs[..n])|, Manager.Ready)
    decreases n
  {
    hide EndsIn, EncodeRequest, ParseRequest, Alone, Queued, Sends;
    if n == 0 {
      tr, w := Arrives(cap, lim, EncodeRequests(rs));
      assert EncodeRequests(rs[..0]) == [];
    } else {
      tr, w := ListHappens(cap, lim, rs, n - 1);
      NextRequest(lim, rs, n - 1);
      tr, w := OneRequest(cap, lim, tr, w, EncodeRequests(rs), |EncodeRequests(rs[..n - 1])|, rs[n - 1]);
    }
  }

  /** So the responses of a visit are not said of nothing: some run reads all its bytes and stands ready for more. */
  lemma VisitHappens(cap: nat, lim: Limits, key: Data, value: Data) returns (tr: seq<State>)
    requires cap > 0
    requires Wire.Set(DEFAULT, key, value).Fits() && FirstFault(lim, Wire.Set(DEFAULT, key, value)).None?
    ensures tr != [] && DEFAULT in tr[0].m.dbMap && Sessions.Inside(cap, lim, tr, |tr| - 1, 0, DEFAULT)
    ensures Sessions.HasRead(tr[|tr| - 1], 0, Sessions.Visit(DEFAULT, key, value))
            && tr[|tr| - 1].m.clients[0].Ready?
  {
    hide EncodeRequests, Run;
    var rs := Sessions.Visit(DEFAULT, key, value);
    var w;
    tr, w := ListHappens(cap, lim, rs, 4);
    assert rs[..4] == rs;
    RunNotEmpty(cap, lim, tr);
  }

  lemma RunNotEmpty(cap: nat, lim: Limits, tr: seq<State>)
    requires Run(cap, lim, tr)
    ensures tr != []
  {
  }
}
