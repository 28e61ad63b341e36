/** What one connection gets back: if nobody else names its database, the responses of a sequential service. */
module Sessions {
  import opened Bytes
  import opened Service
  import opened Wire
  import opened Server
  import opened InTurn
  import Layers
  import Linear
  import Log
  import Manager
  import ManagerInv

  // ---------- One request at a time ----------

  ghost predicate Returned(hist: seq<Event>, id: nat) {
    exists j :: 0 <= j < |hist| && hist[j].Return? && hist[j].call == id
  }

  /** The calls of one client never overlap. */
  ghost predicate TakesTurns(hist: seq<Event>) {
    forall i, j | 0 <= i < j < |hist| && hist[i].Call? && hist[j].Call? && hist[i].client == hist[j].client ::
      Precedes(hist, i, j)
  }

  /** A client between requests has all its answers, and one inside a request all but that one's. */
  ghost predicate Settled(m: Manager.State, id: nat)
    requires id < |m.hist| && m.hist[id].Call? && m.hist[id].client < |m.clients|
  {
    match m.clients[m.hist[id].client]
    case Ready => Returned(m.hist, id)
    case Busy(k, _, _) => id == k || Returned(m.hist, id)
    case Gone => true
  }

  ghost predicate Turns(m: Manager.State) {
    && TakesTurns(m.hist)
    && forall id | 0 <= id < |m.hist| && m.hist[id].Call? :: m.hist[id].client < |m.clients| && Settled(m, id)
  }

  lemma ReturnedStays(hist: seq<Event>, e: Event, id: nat)
    ensures Returned(hist, id) ==> Returned(hist + [e], id)
    ensures e.Return? ==> Returned(hist + [e], e.call)
  {
    var more := hist + [e];
    assert more[|hist|] == e;
    if Returned(hist, id) {
      var j :| 0 <= j < |hist| && hist[j].Return? && hist[j].call == id;
      assert more[j] == hist[j];
    }
  }

  lemma ReturnedPrecedes(hist: seq<Event>, e: Event, id: nat)
    requires Returned(hist, id)
    ensures Precedes(hist + [e], id, |hist|)
  {
    var j :| 0 <= j < |hist| && hist[j].Return? && hist[j].call == id;
    assert (hist + [e])[j] == hist[j];
  }

  lemma QuietTurns(m: Manager.State, t: Manager.State)
    requires Turns(m) && Server.Quiet(m, t)
    ensures Turns(t)
  {
    hide TakesTurns, Returned;
    forall id | 0 <= id < |t.hist| && t.hist[id].Call?
      ensures t.hist[id].client < |t.clients| && Settled(t, id)
    {
      assert Settled(m, id);
    }
  }

  lemma ConnectTurns(m: Manager.State)
    requires Turns(m)
    ensures Turns(m.(clients := m.clients + [Manager.Ready]))
  {
    hide TakesTurns, Returned;
    var t := m.(clients := m.clients + [Manager.Ready]);
    forall id | 0 <= id < |t.hist| && t.hist[id].Call?
      ensures t.hist[id].client < |t.clients| && Settled(t, id)
    {
      assert Settled(m, id);
    }
  }

  /** A longer history keeps the turns it had. */
  lemma TurnsGrow(hist: seq<Event>, e: Event)
    requires TakesTurns(hist)
    requires e.Call? ==> forall i | 0 <= i < |hist| && hist[i].Call? && hist[i].client == e.client :: Returned(hist, i)
    ensures TakesTurns(hist + [e])
  {
    hide Precedes, Returned;
    var more := hist + [e];
    forall i, j | 0 <= i < j < |more| && more[i].Call? && more[j].Call? && more[i].client == more[j].client
      ensures Precedes(more, i, j)
    {
      assert more[i] == hist[i];
      if j < |hist| {
        assert more[j] == hist[j];
        assert Precedes(hist, i, j);
        Linear.PrecedesBefore(hist, e, i, j);
      } else {
        ReturnedPrecedes(hist, e, i);
      }
    }
  }

  lemma CalledTurns(m: Manager.State, c: nat, op: Op)
    requires Turns(m) && c < |m.clients| && m.clients[c].Ready?
    ensures Turns(Manager.Called(m, c, op))
  {
    hide TakesTurns, Returned;
    var t, e := Manager.Called(m, c, op), Call(c, op);
    forall id | 0 <= id < |m.hist| && m.hist[id].Call?
      ensures m.hist[id].client < |m.clients| && Settled(m, id) && (m.hist[id].client == c ==> Returned(m.hist, id))
    {
    }
    TurnsGrow(m.hist, e);
    forall id | 0 <= id < |t.hist| && t.hist[id].Call?
      ensures t.hist[id].client < |t.clients| && Settled(t, id)
    {
      if id < |m.hist| {
        assert t.hist[id] == m.hist[id];
        ReturnedStays(m.hist, e, id);
      }
    }
  }

  lemma RepliedTurns(m: Manager.State, c: nat)
    requires Turns(m) && Manager.CanReply(m, c)
    ensures Turns(Manager.Replied(m, c))
  {
    hide TakesTurns, Returned;
    var t, e := Manager.Replied(m, c), Return(m.clients[c].id, Manager.PcOf(m, c).reply);
    TurnsGrow(m.hist, e);
    forall id | 0 <= id < |t.hist| && t.hist[id].Call?
      ensures t.hist[id].client < |t.clients| && Settled(t, id)
    {
      assert t.hist[id] == m.hist[id] && Settled(m, id);
      ReturnedStays(m.hist, e, id);
    }
  }

  lemma StepTurns(cap: nat, lim: Limits, w: State, step: Step)
    requires Turns(w.m) && Enabled(cap, lim, w, step)
    ensures Turns(Next(cap, lim, w, step).m)
  {
    hide Turns, ParseRequest, EncodeRequest, Layers.OpOf, Layers.AnswerOf;
    match step
    case Accept(_) => ConnectTurns(w.m);
    case Take(c) => CalledTurns(w.m, c, Layers.OpOf(ParseRequest(lim, Rest(w, c)).request).value);
    case Local(_, _) =>
    case Refuse(c) => QuietTurns(w.m, w.m.(clients := w.m.clients[c := Manager.Gone]));
    case End(c) => QuietTurns(w.m, w.m.(clients := w.m.clients[c := Manager.Gone]));
    case Respond(c) => RepliedTurns(w.m, c);
    case Inner(a) =>
      QuietInner(cap, w.m, a);
      QuietTurns(w.m, Manager.Next(cap, w.m, a));
  }

  /** In every run each client has at most one call in hand. */
  lemma {:induction false} RunTurns(cap: nat, lim: Limits, tr: seq<State>, i: nat)
    requires Run(cap, lim, tr) && i < |tr|
    ensures Turns(tr[i].m)
  {
    hide Enabled, Next;
    if i > 0 {
      RunTurns(cap, lim, tr, i - 1);
      hide Turns;
      assert Moves(cap, lim, tr[i - 1], tr[i - 1 + 1]);
      var step :| Enabled(cap, lim, tr[i - 1], step) && tr[i] == Next(cap, lim, tr[i - 1], step);
      StepTurns(cap, lim, tr[i - 1], step);
    }
  }

  // ---------- A database only one connection names ----------

  /** No connection but `c` has asked for anything on `db`. */
  predicate OnlyOne(w: State, c: nat, db: Name) {
    forall d, k | 0 <= d < |w.conns| && d != c && 0 <= k < |w.conns[d].asked| ::
      w.conns[d].asked[k].Bare() || w.conns[d].asked[k].db != db
  }

  /** Every request of `rs` is an operation on `db`. */
  predicate AllOn(rs: seq<Request>, db: Name) {
    forall k | 0 <= k < |rs| :: Layers.OpOf(rs[k]).Some? && Layers.OpOf(rs[k]).value.db == db
  }

  function OpsOf(rs: seq<Request>): seq<Op>
    requires forall k | 0 <= k < |rs| :: Layers.OpOf(rs[k]).Some?
  {
    seq(|rs|, k requires 0 <= k < |rs| => Layers.OpOf(rs[k]).value)
  }

  lemma OnlyOneCalls(cap: nat, lim: Limits, st: Store, w: State, c: nat, db: Name)
    requires Inv(cap, lim, st, w) && OnlyOne(w, c, db)
    ensures forall id | 0 <= id < |w.m.hist| && NamesDb(w.m.hist[id], db) :: w.m.hist[id].client == c
  {
    hide ManagerInv.Core, Linear.LinInv, BytesMatch, AnswersMatch, Layers.OpOf, InStep;
    forall id | 0 <= id < |w.m.hist| && NamesDb(w.m.hist[id], db)
      ensures w.m.hist[id].client == c
    {
      var d := w.m.hist[id].client;
      assert Conversation(lim, w.m.hist, d, w.conns[d]);
      assert Some(id) in w.conns[d].calls;
      var k :| 0 <= k < |w.conns[d].calls| && w.conns[d].calls[k] == Some(id);
      Layers.OpNames(w.conns[d].asked[k]);
    }
  }

  lemma OnlyOneTurns(hist: seq<Event>, c: nat, db: Name)
    requires TakesTurns(hist)
    requires forall id | 0 <= id < |hist| && NamesDb(hist[id], db) :: hist[id].client == c
    ensures NoOverlap(hist, db)
  {
    hide Precedes;
    forall i, j | 0 <= i < j < |hist| && NamesDb(hist[i], db) && NamesDb(hist[j], db)
      ensures Precedes(hist, i, j)
    {
      assert hist[i].client == hist[j].client;
    }
  }

  /** The first `n` calls of a connection, as entries of a run. */
  function Entries(x: Conn, n: nat): seq<Entry>
    requires n <= |x.asked| && n <= |x.calls|
    requires forall k | 0 <= k < n :: x.calls[k].Some? && Layers.OpOf(x.asked[k]).Some?
  {
    seq(n, k requires 0 <= k < n => Entry(x.calls[k].value, Layers.OpOf(x.asked[k]).value, Done))
  }

  /** What was asked of `db` before the `k`-th call is what the connection asked before. */
  lemma AskedBefore(hist: seq<Event>, c: nat, x: Conn, db: Name, k: nat)
    requires CallsMatch(hist, c, x) && k < |x.asked| && AllOn(x.asked[..k + 1], db)
    requires forall id | 0 <= id < |hist| && NamesDb(hist[id], db) :: hist[id].client == c
    ensures x.calls[k].Some? && x.calls[k].value < |hist|
    ensures forall j | 0 <= j < k :: Layers.OpOf(x.asked[..k][j]).Some?
    ensures Before(hist, x.calls[k].value, db) == OpsOf(x.asked[..k])
  {
    hide Layers.OpOf, Before;
    forall j | 0 <= j <= k
      ensures x.calls[j].Some? && Layers.OpOf(x.asked[j]).Some? && Layers.OpOf(x.asked[j]).value.db == db
    {
      assert x.asked[..k + 1][j] == x.asked[j];
    }
    var run, n := Entries(x, k + 1), x.calls[k].value;
    forall i: nat | i < n && NamesDb(hist[i], db)
      ensures HasId(run, i)
    {
      assert Some(i) in x.calls;
      var j :| 0 <= j < |x.calls| && x.calls[j] == Some(i);
      assert run[j].id == i;
    }
    var p := EntriesBefore(hist, run, db, n);
    SplitsNext(run, p, n, k);
    assert Ops(run[..k]) == OpsOf(x.asked[..k]);
  }

  /** The response a sequential service gives to `op` after `ops`. */
  function SequentialAnswer(st: Store, ops: seq<Op>, op: Op): Answer {
    Layers.AnswerOf(op, Service.Respond(Play(st, ops), op))
  }

  ghost predicate Inside(cap: nat, lim: Limits, tr: seq<State>, i: nat, c: nat, db: Name) {
    Run(cap, lim, tr) && i < |tr| && c < |tr[i].conns| && OnlyOne(tr[i], c, db)
  }

  lemma InsideFacts(cap: nat, lim: Limits, tr: seq<State>, i: nat, c: nat, db: Name)
    requires Inside(cap, lim, tr, i, c, db)
    ensures var w, st := tr[i], Manager.Contents(tr[0].m);
            && Explains(st, w.m.hist, w.m.lin) && NoOverlap(w.m.hist, db) && Conversation(lim, w.m.hist, c, w.conns[c])
            && c < |w.m.clients| && InStep(w.m.clients[c], w.conns[c])
            && forall id | 0 <= id < |w.m.hist| && NamesDb(w.m.hist[id], db) :: w.m.hist[id].client == c
  {
    hide Manager.Contents, Run, ManagerInv.Core, Conversation, InStep, OnlyOne, TakesTurns, NoOverlap, Explains,
         Linear.LinInv;
    var w, st := tr[i], Manager.Contents(tr[0].m);
    RunInv(cap, lim, tr, i);
    RunTurns(cap, lim, tr, i);
    Linear.LinExplains(st, w.m);
    OnlyOneCalls(cap, lim, st, w, c, db);
    OnlyOneTurns(w.m.hist, c, db);
  }

  lemma AnswersFound(hist: seq<Event>, x: Conn, k: nat)
    requires AnswersMatch(hist, x) && k < |x.told| && k < |x.asked| && k < |x.calls|
    ensures RightAnswer(hist, x.asked[k], x.calls[k], x.told[k])
  {
    hide RightAnswer;
  }

  lemma ReplyFound(hist: seq<Event>, c: nat, x: Conn, k: nat) returns (reply: Reply)
    requires CallsMatch(hist, c, x) && k < |x.asked| && k < |x.told| && x.calls[k].Some?
    requires RightAnswer(hist, x.asked[k], x.calls[k], x.told[k])
    ensures Return(x.calls[k].value, reply) in hist && Layers.OpOf(x.asked[k]).Some?
    ensures hist[x.calls[k].value] == Call(c, Layers.OpOf(x.asked[k]).value)
    ensures var answer := Layers.AnswerOf(Layers.OpOf(x.asked[k]).value, reply);
            !answer.Hangup? && answer.response == x.told[k]
  {
    hide Layers.OpOf, Layers.AnswerOf;
    reply :| Return(x.calls[k].value, reply) in hist
      && var answer := Layers.AnswerOf(Layers.OpOf(x.asked[k]).value, reply);
      !answer.Hangup? && answer.response == x.told[k];
  }

  /** On a database that no other connection names, each response is the one a sequential service gives after the
      earlier requests of this connection, starting from what the database held at first. */
  lemma AloneIsSequential(cap: nat, lim: Limits, tr: seq<State>, i: nat, c: nat, db: Name, k: nat)
    requires Inside(cap, lim, tr, i, c, db)
    requires var x := tr[i].conns[c]; k < |x.told| && k < |x.asked| && AllOn(x.asked[..k + 1], db)
    ensures AllOn(tr[i].conns[c].asked[..k], db) && Layers.OpOf(tr[i].conns[c].asked[k]).Some?
    ensures var x, st := tr[i].conns[c], Only(Manager.Contents(tr[0].m), db);
            var answer := SequentialAnswer(st, OpsOf(x.asked[..k]), Layers.OpOf(x.asked[k]).value);
            !answer.Hangup? && answer.response == x.told[k]
  {
    hide Manager.Contents, Run, InStep, OnlyOne, NoOverlap, Explains, Layers.OpOf, Layers.AnswerOf, Before,
         Only, Service.Respond, Play, CallsMatch, AnswersMatch, BytesMatch, RightAnswer;
    var x, hist, st := tr[i].conns[c], tr[i].m.hist, Manager.Contents(tr[0].m);
    InsideFacts(cap, lim, tr, i, c, db);
    assert x.asked[..k + 1][k] == x.asked[k];
    forall j | 0 <= j < k
      ensures Layers.OpOf(x.asked[..k][j]).Some? && Layers.OpOf(x.asked[..k][j]).value.db == db
    {
      assert x.asked[..k + 1][j] == x.asked[..k][j];
    }
    AskedBefore(hist, c, x, db, k);
    CallsCount(lim, hist, c, x);
    AnswersFound(hist, x, k);
    var reply := ReplyFound(hist, c, x, k);
    RepliesInTurn(st, hist, tr[i].m.lin, db, x.calls[k].value, reply);
  }

  // ---------- In bytes ----------

  /** Set, get, delete and get again. */
  function Visit(db: Name, key: Data, value: Data): seq<Request> {
    [Wire.Set(db, key, value), Wire.Get(db, key), Wire.Delete(db, key), Wire.Get(db, key)]
  }

  /** What the server has read from `c` are the bytes of `rs`. */
  ghost predicate HasRead(w: State, c: nat, rs: seq<Request>) {
    && c < |w.conns| && c < |w.m.clients| && w.conns[c].taken <= |w.conns[c].bytes|
    && w.conns[c].bytes[..w.conns[c].taken] == EncodeRequests(rs)
  }

  lemma PlaySnoc(st: Store, ops: seq<Op>, op: Op)
    ensures Play(st, ops + [op]) == Effect(Play(st, ops), op)
    decreases |ops|
  {
    hide Effect;
    if ops == [] {
      assert [] + [op] == [op] && [op][1..] == [];
      assert Play(Effect(st, op), []) == Effect(st, op);
    } else {
      assert (ops + [op])[1..] == ops[1..] + [op] && (ops + [op])[0] == ops[0];
      PlaySnoc(Effect(st, ops[0]), ops[1..], op);
    }
  }

  /** What the service makes of a visit. */
  lemma VisitPlayed(st: Store, db: Name, key: Data, value: Data)
    requires db in st
    ensures var put, get, del: Op := Service.Put(db, key, value), Service.Get(db, key), Service.Del(db, key);
            && SequentialAnswer(st, [], put) == More(Wire.Ok(Ascii("OK")))
            && SequentialAnswer(st, [put], get) == More(Wire.KeyValue(value))
            && SequentialAnswer(st, [put, get], del) == More(Wire.Ok(Ascii("OK")))
            && SequentialAnswer(st, [put, get, del], get) == More(Wire.KeyNotFound(Ascii("Key not found")))
  {
    var put, get, del: Op := Service.Put(db, key, value), Service.Get(db, key), Service.Del(db, key);
    hide Play;
    PlaySnoc(st, [], put);
    PlaySnoc(st, [put], get);
    PlaySnoc(st, [put, get], del);
    assert [] + [put] == [put] && [put] + [get] == [put, get] && [put, get] + [del] == [put, get, del];
    NothingPlayed(st);
    var m := st[db];
    EffectOf(m, put);
    EffectOf(m[key := value], get);
    EffectOf(m[key := value], del);
    hide KeyedEffect;
  }

  lemma NothingPlayed(st: Store)
    ensures Play(st, []) == st
  {
  }

  /** The connection has asked exactly what its bytes say, and if it is between requests it has an answer to each. */
  lemma ReadFacts(cap: nat, lim: Limits, tr: seq<State>, i: nat, c: nat, db: Name, rs: seq<Request>)
    requires Inside(cap, lim, tr, i, c, db) && HasRead(tr[i], c, rs)
    requires forall k | 0 <= k < |rs| :: rs[k].Fits() && FirstFault(lim, rs[k]).None?
    ensures var x := tr[i].conns[c];
            && x.asked == rs && x.output == EncodeResponses(x.told)
            && (tr[i].m.clients[c].Ready? ==> |x.told| == |rs|)
  {
    hide Manager.Contents, Run, OnlyOne, NoOverlap, Explains, FirstFault, Request.Fits, EncodeRequests,
         EncodeResponses, CallsMatch, AnswersMatch;
    InsideFacts(cap, lim, tr, i, c, db);
    EncodeRequestsInjective(lim, tr[i].conns[c].asked, rs);
  }

  lemma VisitOps(db: Name, key: Data, value: Data)
    ensures var rs := Visit(db, key, value);
            && AllOn(rs, db) && OpsOf(rs[..0]) == []
            && OpsOf(rs[..1]) == [Service.Put(db, key, value)]
            && OpsOf(rs[..2]) == [Service.Put(db, key, value), Service.Get(db, key)]
            && OpsOf(rs[..3]) == [Service.Put(db, key, value), Service.Get(db, key), Service.Del(db, key)]
            && Layers.OpOf(rs[0]) == Some(Service.Put(db, key, value))
            && Layers.OpOf(rs[1]) == Some(Service.Get(db, key))
            && Layers.OpOf(rs[2]) == Some(Service.Del(db, key))
            && Layers.OpOf(rs[3]) == Some(Service.Get(db, key))
  {
    var rs := Visit(db, key, value);
    assert |rs| == 4;
  }

  /** A database that exists at the start is among the contents. */
  lemma ThereAtFirst(cap: nat, lim: Limits, tr: seq<State>, db: Name)
    requires Run(cap, lim, tr) && db in tr[0].m.dbMap
    ensures db in Only(Manager.Contents(tr[0].m), db)
  {
    hide Manager.Contents, ManagerInv.Core, Linear.LinInv, Conversation, InStep;
    RunInv(cap, lim, tr, 0);
    Linear.MapsExist(cap, tr[0].m);
  }

  lemma AllOnFront(rs: seq<Request>, db: Name, k: nat)
    requires AllOn(rs, db) && k <= |rs|
    ensures AllOn(rs[..k], db)
  {
    hide Layers.OpOf;
  }

  /** What a connection that has the database to itself was told about its `k`-th request. */
  lemma ToldAt(cap: nat, lim: Limits, tr: seq<State>, i: nat, c: nat, db: Name, rs: seq<Request>, k: nat)
    requires Inside(cap, lim, tr, i, c, db) && tr[i].conns[c].asked == rs && |tr[i].conns[c].told| == |rs|
    requires AllOn(rs, db) && k < |rs|
    ensures AllOn(rs[..k], db)
    ensures var st := Only(Manager.Contents(tr[0].m), db);
            var answer := SequentialAnswer(st, OpsOf(rs[..k]), Layers.OpOf(rs[k]).value);
            !answer.Hangup? && tr[i].conns[c].told[k] == answer.response
  {
    hide Inside, Manager.Contents, Only, Layers.OpOf, OpsOf, SequentialAnswer, Run;
    AllOnFront(rs, db, k);
    AllOnFront(rs, db, k + 1);
    AloneIsSequential(cap, lim, tr, i, c, db, k);
  }

  /** In bytes: a connection that sets a key, gets it, deletes it and gets it again, in a database nobody else names,
      reads back that the set succeeded, the value, that the delete succeeded, and that the key is not there, whatever
      the key held before and whatever everybody else does meanwhile. */
  lemma VisitAnswered(cap: nat, lim: Limits, tr: seq<State>, i: nat, c: nat, db: Name, key: Data, value: Data)
    requires Inside(cap, lim, tr, i, c, db) && HasRead(tr[i], c, Visit(db, key, value))
             && tr[i].m.clients[c].Ready?
    requires db in tr[0].m.dbMap
    requires Wire.Set(db, key, value).Fits() && FirstFault(lim, Wire.Set(db, key, value)).None?
    ensures var told := [Wire.Ok(Ascii("OK")), Wire.KeyValue(value), Wire.Ok(Ascii("OK")),
                         Wire.KeyNotFound(Ascii("Key not found"))];
            tr[i].conns[c].output == EncodeResponses(told) && ReadMany(tr[i].conns[c].output, 4) == Some(told)
  {
    hide Inside, Run, Manager.Contents, Only, HasRead, OpsOf, SequentialAnswer, EncodeResponses, Ascii, ReadMany,
         EncodeRequests, AllOn, Layers.OpOf;
    InsideRuns(cap, lim, tr, i, c, db);
    var rs, st := Visit(db, key, value), Only(Manager.Contents(tr[0].m), db);
    ReadFacts(cap, lim, tr, i, c, db, rs);
    ThereAtFirst(cap, lim, tr, db);
    VisitOps(db, key, value);
    VisitPlayed(st, db, key, value);
    ToldAt(cap, lim, tr, i, c, db, rs, 0);
    ToldAt(cap, lim, tr, i, c, db, rs, 1);
    ToldAt(cap, lim, tr, i, c, db, rs, 2);
    ToldAt(cap, lim, tr, i, c, db, rs, 3);
    VisitRead(tr[i].conns[c].told, value);
  }

  lemma VisitRead(told: seq<Response>, value: Data)
    requires |told| == 4 && told[0] == Wire.Ok(Ascii("OK")) && told[1] == Wire.KeyValue(value)
    requires told[2] == told[0] && told[3] == Wire.KeyNotFound(Ascii("Key not found")) && |value| < U32_LIMIT
    ensures told == [Wire.Ok(Ascii("OK")), Wire.KeyValue(value), Wire.Ok(Ascii("OK")),
                     Wire.KeyNotFound(Ascii("Key not found"))]
    ensures ReadMany(EncodeResponses(told), 4) == Some(told)
  {
    hide Ascii, ReadMany, EncodeResponses;
    Layers.AsciiLength("OK");
    Layers.AsciiLength("Key not found");
    ToldRead(told);
  }

  lemma InsideRuns(cap: nat, lim: Limits, tr: seq<State>, i: nat, c: nat, db: Name)
    requires Inside(cap, lim, tr, i, c, db)
    ensures Run(cap, lim, tr) && i < |tr| && c < |tr[i].conns|
  {
  }

  lemma ToldRead(told: seq<Response>)
    requires forall k | 0 <= k < |told| :: |told[k].payload| < U32_LIMIT
    ensures ReadMany(EncodeResponses(told), |told|) == Some(told)
  {
    ResponsesRoundTrip(told, []);
    assert EncodeResponses(told) + [] == EncodeResponses(told);
  }

  /** Create, create once more, set, get, drop, and get again. */
  function Lifetime(db: Name, key: Data, value: Data): seq<Request> {
    [Wire.Create(db), Wire.Create(db), Wire.Set(db, key, value), Wire.Get(db, key), Wire.Drop(db), Wire.Get(db, key)]
  }

  lemma LifetimeOps(db: Name, key: Data, value: Data)
    ensures var rs, create, put, get := Lifetime(db, key, value), Service.Create(db), Service.Put(db, key, value),
                                        Service.Get(db, key);
            && AllOn(rs, db) && OpsOf(rs[..0]) == [] && OpsOf(rs[..1]) == [create] && OpsOf(rs[..2]) == [create, create]
            && OpsOf(rs[..3]) == [create, create, put] && OpsOf(rs[..4]) == [create, create, put, get]
            && OpsOf(rs[..5]) == [create, create, put, get, Service.Drop(db)]
            && Layers.OpOf(rs[0]) == Some(create) && Layers.OpOf(rs[1]) == Some(create)
            && Layers.OpOf(rs[2]) == Some(put) && Layers.OpOf(rs[3]) == Some(get)
            && Layers.OpOf(rs[4]) == Some(Service.Drop(db)) && Layers.OpOf(rs[5]) == Some(get)
  {
    var rs := Lifetime(db, key, value);
    assert |rs| == 6;
  }

  lemma LifetimeStores(st: Store, db: Name, key: Data, value: Data)
    requires db !in st && db != DEFAULT
    ensures var create, put, get: Op := Service.Create(db), Service.Put(db, key, value), Service.Get(db, key);
            && Play(st, []) == st && Play(st, [create]) == st[db := map[]]
            && Play(st, [create, create]) == st[db := map[]]
            && Play(st, [create, create, put]) == st[db := map[key := value]]
            && Play(st, [create, create, put, get]) == st[db := map[key := value]]
            && Play(st, [create, create, put, get, Service.Drop(db)]) == st
  {
    hide Play;
    var create, put, get: Op := Service.Create(db), Service.Put(db, key, value), Service.Get(db, key);
    NothingPlayed(st);
    PlaySnoc(st, [], create);
    PlaySnoc(st, [create], create);
    PlaySnoc(st, [create, create], put);
    PlaySnoc(st, [create, create, put], get);
    PlaySnoc(st, [create, create, put, get], Service.Drop(db));
    assert [] + [create] == [create] && [create] + [create] == [create, create];
    assert [create, create] + [put] == [create, create, put];
    assert [create, create, put] + [get] == [create, create, put, get];
    assert [create, create, put, get] + [Service.Drop(db)] == [create, create, put, get, Service.Drop(db)];
    EffectOf(map[], put);
    EffectOf(map[key := value], get);
    hide KeyedEffect;
  }

  lemma LifetimePlayed(st: Store, db: Name, key: Data, value: Data)
    requires db !in st && db != DEFAULT
    ensures var create, put, get: Op := Service.Create(db), Service.Put(db, key, value), Service.Get(db, key);
            && SequentialAnswer(st, [], create) == More(Wire.Ok(Ascii("Database created successfully")))
            && SequentialAnswer(st, [create], create) == More(Wire.DbAlreadyExists(Ascii("Database already exists")))
            && SequentialAnswer(st, [create, create], put) == More(Wire.Ok(Ascii("OK")))
            && SequentialAnswer(st, [create, create, put], get) == More(Wire.KeyValue(value))
            && SequentialAnswer(st, [create, create, put, get], Service.Drop(db))
                 == More(Wire.Ok(Ascii("Database dropped successfully")))
            && SequentialAnswer(st, [create, create, put, get, Service.Drop(db)], get)
                 == Last(Wire.DbNotFound(Ascii("Database not found")))
  {
    hide Play, KeyedEffect, Effect, Ascii;
    LifetimeStores(st, db, key, value);
  }

  lemma NotThereAtFirst(cap: nat, lim: Limits, tr: seq<State>, db: Name)
    requires Run(cap, lim, tr) && db !in tr[0].m.dbMap
    ensures db !in Only(Manager.Contents(tr[0].m), db) && db != DEFAULT
  {
    hide Run;
    assert Initial(tr[0]) by { RunStarts(cap, lim, tr); }
  }

  lemma RunStarts(cap: nat, lim: Limits, tr: seq<State>)
    requires Run(cap, lim, tr)
    ensures tr != [] && Initial(tr[0])
  {
    hide Initial;
  }

  /** In bytes: a connection that creates a new database, creates it again, sets and gets a key, drops the database and
      gets the key once more, nobody else naming it, reads these six responses. */
  lemma LifetimeAnswered(cap: nat, lim: Limits, tr: seq<State>, i: nat, c: nat, db: Name, key: Data, value: Data)
    requires Inside(cap, lim, tr, i, c, db) && HasRead(tr[i], c, Lifetime(db, key, value))
             && |tr[i].conns[c].told| == 6
    requires db !in tr[0].m.dbMap
    requires Wire.Set(db, key, value).Fits() && FirstFault(lim, Wire.Set(db, key, value)).None?
    ensures var told := [Wire.Ok(Ascii("Database created successfully")),
                         Wire.DbAlreadyExists(Ascii("Database already exists")), Wire.Ok(Ascii("OK")),
                         Wire.KeyValue(value), Wire.Ok(Ascii("Database dropped successfully")),
                         Wire.DbNotFound(Ascii("Database not found"))];
            tr[i].conns[c].output == EncodeResponses(told) && ReadMany(tr[i].conns[c].output, 6) == Some(told)
  {
    hide Inside, Run, Manager.Contents, Only, HasRead, OpsOf, SequentialAnswer, EncodeResponses, Ascii, ReadMany,
         EncodeRequests, AllOn, Layers.OpOf;
    InsideRuns(cap, lim, tr, i, c, db);
    var rs, st := Lifetime(db, key, value), Only(Manager.Contents(tr[0].m), db);
    ReadFacts(cap, lim, tr, i, c, db, rs);
    NotThereAtFirst(cap, lim, tr, db);
    LifetimeOps(db, key, value);
    LifetimePlayed(st, db, key, value);
    ToldAt(cap, lim, tr, i, c, db, rs, 0);
    ToldAt(cap, lim, tr, i, c, db, rs, 1);
    ToldAt(cap, lim, tr, i, c, db, rs, 2);
    ToldAt(cap, lim, tr, i, c, db, rs, 3);
    ToldAt(cap, lim, tr, i, c, db, rs, 4);
    ToldAt(cap, lim, tr, i, c, db, rs, 5);
    LifetimeRead(tr[i].conns[c].told, value);
  }

  lemma LifetimeRead(told: seq<Response>, value: Data)
    requires |told| == 6 && told[0] == Wire.Ok(Ascii("Database created successfully"))
    requires told[1] == Wire.DbAlreadyExists(Ascii("Database already exists")) && told[2] == Wire.Ok(Ascii("OK"))
    requires told[3] == Wire.KeyValue(value) && told[4] == Wire.Ok(Ascii("Database dropped successfully"))
    requires told[5] == Wire.DbNotFound(Ascii("Database not found")) && |value| < U32_LIMIT
    ensures told == [Wire.Ok(Ascii("Database created successfully")),
                     Wire.DbAlreadyExists(Ascii("Database already exists")), Wire.Ok(Ascii("OK")),
                     Wire.KeyValue(value), Wire.Ok(Ascii("Database dropped successfully")),
                     Wire.DbNotFound(Ascii("Database not found"))]
    ensures ReadMany(EncodeResponses(told), 6) == Some(told)
  {
    hide Ascii, ReadMany, EncodeResponses;
    Layers.AsciiLength("Database created successfully");
    Layers.AsciiLength("Database already exists");
    Layers.AsciiLength("OK");
    Layers.AsciiLength("Database dropped successfully");
    Layers.AsciiLength("Database not found");
    ToldRead(told);
  }
}
