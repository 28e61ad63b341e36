/** The whole server: connections that carry bytes, in front of the manager and its workers. */
module Server {
  import opened Bytes
  import opened Service
  import opened Wire
  import Layers
  import Linear
  import Log
  import Manager
  import ManagerInv

  /** One connection; a connection and its client in the manager machine have the same number. */
  datatype Conn = Conn(
    bytes: Data,              // all its peer will ever send
    taken: nat,               // how many of them the server has read as requests
    output: Data,             // what the server has written to it
    asked: seq<Request>,      // history: the requests read
    calls: seq<Option<nat>>,  // history: for each of them its call, unless it was answered on the spot
    told: seq<Response>)      // history: the responses written

  datatype State = State(m: Manager.State, conns: seq<Conn>)

  datatype Step =
    | Accept(bytes: Data)
    | Take(c: nat)
    | Local(c: nat, rsp: Response)
    | Refuse(c: nat)
    | End(c: nat)
    | Respond(c: nat)
    | Inner(a: Manager.Action)

  /** The server waits for the next request of `c`. */
  predicate Listens(w: State, c: nat) {
    c < |w.conns| && c < |w.m.clients| && w.m.clients[c].Ready? && w.conns[c].taken <= |w.conns[c].bytes|
  }

  function Rest(w: State, c: nat): Data
    requires Listens(w, c)
  {
    w.conns[c].bytes[w.conns[c].taken..]
  }

  /** The next bytes of `c` are request `r`. */
  predicate Hears(lim: Limits, w: State, c: nat, r: Request) {
    Listens(w, c) && Rest(w, c) != [] && ParseRequest(lim, Rest(w, c)) == Accepted(r)
  }

  /** Requests that no database has to answer. */
  predicate OnTheSpot(r: Request, rsp: Response) {
    (r.Ping? && rsp == Pong(Ascii("PONG"))) || (r.Stats? && rsp.Ok?)
  }

  predicate IsInner(a: Manager.Action) {
    !a.Connect? && !a.Invoke? && !a.Reply?
  }

  ghost predicate Enabled(cap: nat, lim: Limits, w: State, step: Step) {
    match step
    case Accept(_) => !w.m.down
    case Take(c) => exists r :: Hears(lim, w, c, r) && Layers.OpOf(r).Some?
    case Local(c, rsp) => c !in w.m.stalled && exists r :: Hears(lim, w, c, r) && OnTheSpot(r, rsp)
    case Refuse(c) =>
      c !in w.m.stalled && Listens(w, c) && Rest(w, c) != [] && ParseRequest(lim, Rest(w, c)).Rejected?
    case End(c) =>
      Listens(w, c) && (Rest(w, c) == [] || ParseRequest(lim, Rest(w, c)).Truncated? || Hears(lim, w, c, Close))
    case Respond(c) => c < |w.conns| && Manager.CanReply(w.m, c)
    case Inner(a) => IsInner(a) && Manager.Enabled(cap, w.m, a)
  }

  function Told(x: Conn, rsp: Response): Conn {
    x.(output := x.output + EncodeResponse(rsp), told := x.told + [rsp])
  }

  function Asked(x: Conn, r: Request, call: Option<nat>): Conn {
    x.(taken := x.taken + |EncodeRequest(r)|, asked := x.asked + [r], calls := x.calls + [call])
  }

  ghost function Next(cap: nat, lim: Limits, w: State, step: Step): State
    requires Enabled(cap, lim, w, step)
  {
    match step
    case Accept(bytes) =>
      State(w.m.(clients := w.m.clients + [Manager.Ready]), w.conns + [Conn(bytes, 0, [], [], [], [])])
    case Take(c) =>
      var r := ParseRequest(lim, Rest(w, c)).request;
      State(Manager.Called(w.m, c, Layers.OpOf(r).value), w.conns[c := Asked(w.conns[c], r, Some(|w.m.hist|))])
    case Local(c, rsp) =>
      var r := ParseRequest(lim, Rest(w, c)).request;
      State(w.m, w.conns[c := Told(Asked(w.conns[c], r, None), rsp)])
    case Refuse(c) =>
      var rsp := ParseRequest(lim, Rest(w, c)).fault.Announced();
      State(w.m.(clients := w.m.clients[c := Manager.Gone]), w.conns[c := Told(w.conns[c], rsp)])
    case End(c) => State(w.m.(clients := w.m.clients[c := Manager.Gone]), w.conns)
    case Respond(c) =>
      var answer := Layers.AnswerOf(w.m.clients[c].op, Manager.PcOf(w.m, c).reply);
      State(Manager.Replied(w.m, c),
            if answer.Hangup? then w.conns else w.conns[c := Told(w.conns[c], answer.response)])
    case Inner(a) => State(Manager.Next(cap, w.m, a), w.conns)
  }

  ghost predicate Initial(w: State) {
    Manager.Initial(w.m) && w.conns == []
  }

  ghost predicate Moves(cap: nat, lim: Limits, w: State, v: State) {
    exists step :: Enabled(cap, lim, w, step) && v == Next(cap, lim, w, step)
  }

  ghost predicate Run(cap: nat, lim: Limits, tr: seq<State>) {
    tr != [] && Initial(tr[0]) && forall i | 0 <= i < |tr| - 1 :: Moves(cap, lim, tr[i], tr[i + 1])
  }

  // ---------- What was said on a connection ----------

  /** The calls of `c` in the history are its requests, in order. */
  predicate CallsMatch(hist: seq<Event>, c: nat, x: Conn) {
    && |x.calls| == |x.asked|
    && (forall k | 0 <= k < |x.calls| :: x.calls[k].None? ==> Layers.OpOf(x.asked[k]).None?)
    && (forall k | 0 <= k < |x.calls| :: x.calls[k].Some? ==>
          && x.calls[k].value < |hist| && Layers.OpOf(x.asked[k]).Some?
          && hist[x.calls[k].value] == Call(c, Layers.OpOf(x.asked[k]).value))
    && (forall j, k | 0 <= j < k < |x.calls| ::
          x.calls[j].Some? && x.calls[k].Some? ==> x.calls[j].value < x.calls[k].value)
    && (forall id | 0 <= id < |hist| :: hist[id].Call? && hist[id].client == c ==> Some(id) in x.calls)
  }

  /** A response is the reply the history has for the call, put into bytes, or was given on the spot. */
  ghost predicate RightAnswer(hist: seq<Event>, r: Request, call: Option<nat>, rsp: Response) {
    match call
    case None => OnTheSpot(r, rsp)
    case Some(id) =>
      exists reply :: Return(id, reply) in hist && Layers.OpOf(r).Some?
        && var answer := Layers.AnswerOf(Layers.OpOf(r).value, reply); !answer.Hangup? && answer.response == rsp
  }

  ghost predicate AnswersMatch(hist: seq<Event>, x: Conn) {
    forall k | 0 <= k < |x.told| && k < |x.asked| && k < |x.calls| ::
      RightAnswer(hist, x.asked[k], x.calls[k], x.told[k])
  }

  /** The next bytes cannot be accepted, and `rsp` says why. */
  predicate Refuses(lim: Limits, x: Conn, rsp: Response) {
    && x.taken < |x.bytes|
    && var frame := ParseRequest(lim, x.bytes[x.taken..]);
       frame.Rejected? && rsp == frame.fault.Announced()
  }

  /** The bytes read are the encodings of the requests, the bytes written those of the responses; a response more than
      there are requests announces the fault of the bytes after them. */
  ghost predicate BytesMatch(lim: Limits, x: Conn) {
    && x.taken <= |x.bytes| && x.bytes[..x.taken] == EncodeRequests(x.asked)
    && (forall k | 0 <= k < |x.asked| :: x.asked[k].Fits() && FirstFault(lim, x.asked[k]).None?)
    && x.output == EncodeResponses(x.told) && |x.told| <= |x.asked| + 1
    && (|x.told| == |x.asked| + 1 ==> Refuses(lim, x, x.told[|x.asked|]))
  }

  /** The bytes of a connection and the history tell the same story: its requests are its calls, and its `k`-th response
      answers its `k`-th request. */
  ghost predicate Conversation(lim: Limits, hist: seq<Event>, c: nat, x: Conn) {
    BytesMatch(lim, x) && CallsMatch(hist, c, x) && AnswersMatch(hist, x)
  }

  /** Where the conversation stands: one answer is due exactly while the client's request is being served. */
  predicate InStep(y: Manager.Client, x: Conn) {
    match y
    case Ready => |x.told| == |x.asked|
    case Busy(id, op, _) =>
      && |x.asked| == |x.told| + 1 && |x.calls| == |x.asked| && x.calls[|x.told|] == Some(id)
      && Layers.OpOf(x.asked[|x.told|]) == Some(op)
    case Gone => true
  }

  ghost predicate Inv(cap: nat, lim: Limits, st: Store, w: State) {
    && ManagerInv.Core(cap, w.m) && Linear.LinInv(st, w.m) && |w.conns| == |w.m.clients|
    && (forall id | 0 <= id < |w.m.hist| :: w.m.hist[id].Call? ==> w.m.hist[id].client < |w.conns|)
    && (forall c | 0 <= c < |w.conns| ::
          Conversation(lim, w.m.hist, c, w.conns[c]) && InStep(w.m.clients[c], w.conns[c]))
  }

  // ---------- A longer history ----------

  lemma AnswersGrow(hist: seq<Event>, x: Conn, more: seq<Event>)
    requires AnswersMatch(hist, x) && hist <= more
    ensures AnswersMatch(more, x)
  {
    hide Layers.AnswerOf, Layers.OpOf, OnTheSpot;
    assert forall f | f in hist :: f in more;
    forall k | 0 <= k < |x.told| && k < |x.asked| && k < |x.calls|
      ensures RightAnswer(more, x.asked[k], x.calls[k], x.told[k])
    {
      assert RightAnswer(hist, x.asked[k], x.calls[k], x.told[k]);
    }
  }

  lemma CallsStay(hist: seq<Event>, e: Event, c: nat, x: Conn)
    requires CallsMatch(hist, c, x) && (e.Call? ==> e.client != c)
    ensures CallsMatch(hist + [e], c, x)
  {
    hide Layers.OpOf;
    assert forall id | 0 <= id < |hist| :: (hist + [e])[id] == hist[id];
  }

  lemma OthersTalk(lim: Limits, hist: seq<Event>, e: Event, c: nat, x: Conn)
    requires Conversation(lim, hist, c, x) && (e.Call? ==> e.client != c)
    ensures Conversation(lim, hist + [e], c, x)
  {
    hide BytesMatch, CallsMatch, AnswersMatch;
    CallsStay(hist, e, c, x);
    AnswersGrow(hist, x, hist + [e]);
  }

  // ---------- One more request, one more response ----------

  lemma AskedBytes(lim: Limits, x: Conn, r: Request, call: Option<nat>)
    requires BytesMatch(lim, x) && |x.told| == |x.asked|
    requires x.bytes[x.taken..] != [] && ParseRequest(lim, x.bytes[x.taken..]) == Accepted(r)
    ensures BytesMatch(lim, Asked(x, r, call))
  {
    hide ParseRequest, EncodeRequest, EncodeRequests, EncodeResponses, FirstFault, Request.Fits;
    EncodeOfAccepted(lim, x.bytes[x.taken..], r);
    RequestsSnoc(x.asked, r);
    var n := x.taken + |EncodeRequest(r)|;
    assert x.bytes[..n] == x.bytes[..x.taken] + x.bytes[x.taken..][..|EncodeRequest(r)|];
  }

  lemma AskedOnTheSpot(lim: Limits, hist: seq<Event>, c: nat, x: Conn, r: Request)
    requires Conversation(lim, hist, c, x) && |x.told| == |x.asked| && Layers.OpOf(r).None?
    requires x.bytes[x.taken..] != [] && ParseRequest(lim, x.bytes[x.taken..]) == Accepted(r)
    ensures Conversation(lim, hist, c, Asked(x, r, None))
  {
    AskedBytes(lim, x, r, None);
    hide EncodeRequest, BytesMatch, RightAnswer, ParseRequest, Layers.OpOf;
    assert forall call | call in x.calls :: call in x.calls + [None];
  }

  lemma CallsGrow(hist: seq<Event>, c: nat, x: Conn, r: Request)
    requires CallsMatch(hist, c, x) && Layers.OpOf(r).Some?
    ensures CallsMatch(hist + [Call(c, Layers.OpOf(r).value)], c, Asked(x, r, Some(|hist|)))
  {
    hide EncodeRequest, Layers.OpOf;
    var more, y := hist + [Call(c, Layers.OpOf(r).value)], Asked(x, r, Some(|hist|));
    assert forall id | 0 <= id < |hist| :: more[id] == hist[id];
    assert y.calls[|x.calls|] == Some(|hist|);
    forall id | 0 <= id < |more| && more[id].Call? && more[id].client == c
      ensures Some(id) in y.calls
    {
      if id < |hist| {
        assert Some(id) in x.calls;
      }
    }
  }

  lemma AskedCall(lim: Limits, hist: seq<Event>, c: nat, x: Conn, r: Request)
    requires Conversation(lim, hist, c, x) && |x.told| == |x.asked| && Layers.OpOf(r).Some?
    requires x.bytes[x.taken..] != [] && ParseRequest(lim, x.bytes[x.taken..]) == Accepted(r)
    ensures Conversation(lim, hist + [Call(c, Layers.OpOf(r).value)], c, Asked(x, r, Some(|hist|)))
  {
    var more := hist + [Call(c, Layers.OpOf(r).value)];
    AskedBytes(lim, x, r, Some(|hist|));
    CallsGrow(hist, c, x, r);
    AnswersGrow(hist, x, more);
    hide EncodeRequest, BytesMatch, RightAnswer, ParseRequest, Layers.OpOf, CallsMatch;
  }

  lemma ToldMore(lim: Limits, hist: seq<Event>, c: nat, x: Conn, rsp: Response)
    requires Conversation(lim, hist, c, x) && |x.told| <= |x.asked|
    requires |x.told| < |x.asked| && |x.told| < |x.calls| ==>
               RightAnswer(hist, x.asked[|x.told|], x.calls[|x.told|], rsp)
    requires |x.told| == |x.asked| ==> Refuses(lim, x, rsp)
    ensures Conversation(lim, hist, c, Told(x, rsp))
  {
    hide EncodeRequests, EncodeResponses, EncodeResponse, FirstFault, Request.Fits, RightAnswer, Layers.OpOf;
    ResponsesSnoc(x.told, rsp);
  }

  // ---------- Steps ----------

  lemma AcceptInv(cap: nat, lim: Limits, st: Store, w: State, bytes: Data)
    requires Inv(cap, lim, st, w) && !w.m.down
    ensures Inv(cap, lim, st, Next(cap, lim, w, Accept(bytes)))
  {
    ManagerInv.ConnectCore(cap, w.m);
    Linear.ConnectLin(st, w.m);
    var x := Conn(bytes, 0, [], [], [], []);
    NothingSaid(lim, w, |w.conns|, x);
    hide ManagerInv.Core, Linear.LinInv, Conversation;
  }

  /** A new connection has no calls yet. */
  lemma NothingSaid(lim: Limits, w: State, c: nat, x: Conn)
    requires x == Conn(x.bytes, 0, [], [], [], [])
    requires forall id | 0 <= id < |w.m.hist| :: w.m.hist[id].Call? ==> w.m.hist[id].client != c
    ensures Conversation(lim, w.m.hist, c, x)
  {
  }

  /** Only connection `c` speaks or is spoken to, and at most one event is added to the history. */
  lemma OneSpeaks(cap: nat, lim: Limits, st: Store, w: State, v: State, c: nat, e: Option<Event>)
    requires Inv(cap, lim, st, w) && c < |w.conns| == |v.conns| == |v.m.clients|
    requires v.conns == w.conns[c := v.conns[c]] && v.m.clients == w.m.clients[c := v.m.clients[c]]
    requires v.m.hist == w.m.hist + (if e.Some? then [e.value] else [])
    requires (e.Some? && e.value.Call? ==> e.value.client == c)
    requires ManagerInv.Core(cap, v.m) && Linear.LinInv(st, v.m)
    requires Conversation(lim, v.m.hist, c, v.conns[c]) && InStep(v.m.clients[c], v.conns[c])
    ensures Inv(cap, lim, st, v)
  {
    hide ManagerInv.Core, Linear.LinInv, Conversation, InStep;
    forall d | 0 <= d < |v.conns| && d != c
      ensures Conversation(lim, v.m.hist, d, v.conns[d]) && InStep(v.m.clients[d], v.conns[d])
    {
      assert Conversation(lim, w.m.hist, d, w.conns[d]) && InStep(w.m.clients[d], w.conns[d]);
      if e.Some? {
        OthersTalk(lim, w.m.hist, e.value, d, w.conns[d]);
      } else {
        assert v.m.hist == w.m.hist;
      }
    }
  }

  lemma Talking(cap: nat, lim: Limits, st: Store, w: State, c: nat)
    requires Inv(cap, lim, st, w) && c < |w.conns|
    ensures c < |w.m.clients| && Conversation(lim, w.m.hist, c, w.conns[c]) && InStep(w.m.clients[c], w.conns[c])
    ensures ManagerInv.Core(cap, w.m) && Linear.LinInv(st, w.m)
  {
  }

  lemma TakeInv(cap: nat, lim: Limits, st: Store, w: State, c: nat)
    requires Inv(cap, lim, st, w) && Enabled(cap, lim, w, Take(c))
    ensures Inv(cap, lim, st, Next(cap, lim, w, Take(c)))
  {
    hide Inv, ManagerInv.Core, Linear.LinInv, Conversation, ParseRequest, EncodeRequest, Layers.OpOf;
    Talking(cap, lim, st, w, c);
    var r, v := ParseRequest(lim, Rest(w, c)).request, Next(cap, lim, w, Take(c));
    var op := Layers.OpOf(r).value;
    ManagerInv.CalledCore(cap, w.m, c, op);
    Linear.CalledLin(cap, st, w.m, c, op);
    AskedCall(lim, w.m.hist, c, w.conns[c], r);
    CallsCount(lim, w.m.hist, c, w.conns[c]);
    ConnsMatch(cap, lim, st, w);
    OneSpeaks(cap, lim, st, w, v, c, Some(Call(c, op)));
  }

  lemma CallsCount(lim: Limits, hist: seq<Event>, c: nat, x: Conn)
    requires Conversation(lim, hist, c, x)
    ensures |x.calls| == |x.asked|
  {
  }

  lemma ConnsMatch(cap: nat, lim: Limits, st: Store, w: State)
    requires Inv(cap, lim, st, w)
    ensures |w.conns| == |w.m.clients|
  {
  }

  lemma LocalInv(cap: nat, lim: Limits, st: Store, w: State, c: nat, rsp: Response)
    requires Inv(cap, lim, st, w) && Enabled(cap, lim, w, Local(c, rsp))
    ensures Inv(cap, lim, st, Next(cap, lim, w, Local(c, rsp)))
  {
    hide Inv, ManagerInv.Core, Linear.LinInv, Conversation, ParseRequest, EncodeRequest, EncodeResponse;
    Talking(cap, lim, st, w, c);
    ConnsMatch(cap, lim, st, w);
    var x, r, v := w.conns[c], ParseRequest(lim, Rest(w, c)).request, Next(cap, lim, w, Local(c, rsp));
    var y := Asked(x, r, None);
    CallsCount(lim, w.m.hist, c, x);
    AskedOnTheSpot(lim, w.m.hist, c, x, r);
    ToldMore(lim, w.m.hist, c, y, rsp);
    OneSpeaks(cap, lim, st, w, v, c, None);
  }

  lemma LeaveInv(cap: nat, lim: Limits, st: Store, w: State, c: nat, x: Conn)
    requires Inv(cap, lim, st, w) && c < |w.conns| && c < |w.m.clients| && w.m.clients[c].Ready?
    requires Conversation(lim, w.m.hist, c, x)
    ensures Inv(cap, lim, st, State(w.m.(clients := w.m.clients[c := Manager.Gone]), w.conns[c := x]))
  {
    hide Inv, ManagerInv.Core, Linear.LinInv, Conversation;
    Talking(cap, lim, st, w, c);
    ConnsMatch(cap, lim, st, w);
    ManagerInv.DisconnectCore(cap, w.m, c);
    Linear.DisconnectLin(cap, st, w.m, c);
    OneSpeaks(cap, lim, st, w, State(w.m.(clients := w.m.clients[c := Manager.Gone]), w.conns[c := x]), c, None);
  }

  lemma RefuseInv(cap: nat, lim: Limits, st: Store, w: State, c: nat)
    requires Inv(cap, lim, st, w) && Enabled(cap, lim, w, Refuse(c))
    ensures Inv(cap, lim, st, Next(cap, lim, w, Refuse(c)))
  {
    hide Inv, Conversation, ParseRequest, EncodeResponse, Fault.Announced;
    Talking(cap, lim, st, w, c);
    var rsp := ParseRequest(lim, Rest(w, c)).fault.Announced();
    ToldMore(lim, w.m.hist, c, w.conns[c], rsp);
    LeaveInv(cap, lim, st, w, c, Told(w.conns[c], rsp));
  }

  lemma EndInv(cap: nat, lim: Limits, st: Store, w: State, c: nat)
    requires Inv(cap, lim, st, w) && Enabled(cap, lim, w, End(c))
    ensures Inv(cap, lim, st, Next(cap, lim, w, End(c)))
  {
    hide Inv, Conversation, ParseRequest;
    Talking(cap, lim, st, w, c);
    LeaveInv(cap, lim, st, w, c, w.conns[c]);
    assert w.conns[c := w.conns[c]] == w.conns;
  }

  lemma RespondInv(cap: nat, lim: Limits, st: Store, w: State, c: nat)
    requires Inv(cap, lim, st, w) && Enabled(cap, lim, w, Respond(c))
    ensures Inv(cap, lim, st, Next(cap, lim, w, Respond(c)))
  {
    hide Inv, ManagerInv.Core, Linear.LinInv, Conversation, EncodeResponse, Layers.OpOf, Layers.AnswerOf;
    Talking(cap, lim, st, w, c);
    ConnsMatch(cap, lim, st, w);
    var x, y, v := w.conns[c], w.m.clients[c], Next(cap, lim, w, Respond(c));
    var reply := Manager.PcOf(w.m, c).reply;
    var answer, e := Layers.AnswerOf(y.op, reply), Return(y.id, reply);
    ManagerInv.RepliedCore(cap, w.m, c);
    Linear.RepliedLin(cap, st, w.m, c);
    OthersTalk(lim, w.m.hist, e, c, x);
    HungUp(y.op, reply);
    if !answer.Hangup? {
      assert e in w.m.hist + [e];
      assert RightAnswer(w.m.hist + [e], x.asked[|x.told|], x.calls[|x.told|], answer.response);
      ToldMore(lim, w.m.hist + [e], c, x, answer.response);
    }
    OneSpeaks(cap, lim, st, w, v, c, Some(e));
  }

  /** Only a drop of a missing database goes unanswered. */
  lemma HungUp(op: Op, reply: Reply)
    ensures Layers.AnswerOf(op, reply).Hangup? <==> reply.NoReply?
  {
  }

  /** What the manager's own steps do to a conversation: nothing, or they end it. */
  predicate Quiet(s: Manager.State, t: Manager.State) {
    && t.hist == s.hist && |t.clients| == |s.clients|
    && forall d | 0 <= d < |s.clients| :: t.clients[d].Gone? || t.clients[d] == s.clients[d]
         || (t.clients[d].Busy? && s.clients[d].Busy? && t.clients[d].id == s.clients[d].id
             && t.clients[d].op == s.clients[d].op)
  }

  lemma QuietMoves(cap: nat, s: Manager.State, a: Manager.Action)
    requires Manager.Enabled(cap, s, a)
    requires a.Disconnect? || a.Load? || a.Lookup? || a.Enqueue? || a.Stall? || a.Resume? || a.Abort? || a.Shutdown?
             || a.Dequeue? || a.Exit?
    ensures Quiet(s, Manager.Next(cap, s, a))
  {
    hide Manager.Unheld;
  }

  lemma QuietUnderLock(cap: nat, s: Manager.State, a: Manager.Action)
    requires Manager.Enabled(cap, s, a)
    requires a.Acquire? || a.Spawn? || a.Publish? || a.Unpublish? || a.DropSender? || a.Notice?
             || a.RemoveFile? || a.Unlock?
    ensures Quiet(s, Manager.Next(cap, s, a))
  {
    hide Log.Replay, Manager.Recovered;
  }

  lemma QuietCheck(cap: nat, s: Manager.State, c: nat)
    requires Manager.CanCheck(s, c)
    ensures Quiet(s, Manager.Checked(s, c))
  {
  }

  lemma QuietFinish(cap: nat, s: Manager.State, w: nat)
    requires Manager.CanFinish(s, w)
    ensures Quiet(s, Manager.Finished(s, w))
  {
    hide Manager.Finished, KeyedReply, KeyedEffect;
    ManagerInv.FinishShape(s, w);
  }

  lemma QuietInner(cap: nat, s: Manager.State, a: Manager.Action)
    requires Manager.Enabled(cap, s, a) && IsInner(a)
    ensures Quiet(s, Manager.Next(cap, s, a))
  {
    if a.Finish? {
      hide Quiet, Manager.Finished;
      QuietFinish(cap, s, a.w);
    } else if a.Check? {
      hide Quiet, Manager.Checked;
      QuietCheck(cap, s, a.c);
    } else if a.Acquire? || a.Spawn? || a.Publish? || a.Unpublish? || a.DropSender? || a.Notice?
              || a.RemoveFile? || a.Unlock? {
      hide Quiet, Manager.Enabled, Manager.Next;
      QuietUnderLock(cap, s, a);
    } else {
      hide Quiet, Manager.Enabled, Manager.Next;
      QuietMoves(cap, s, a);
    }
  }

  lemma InnerInv(cap: nat, lim: Limits, st: Store, w: State, a: Manager.Action)
    requires Inv(cap, lim, st, w) && Enabled(cap, lim, w, Inner(a))
    ensures Inv(cap, lim, st, Next(cap, lim, w, Inner(a)))
  {
    hide ManagerInv.Core, Linear.LinInv, Conversation, Manager.Enabled, Manager.Next, Layers.OpOf;
    QuietInner(cap, w.m, a);
    ManagerInv.StepCore(cap, w.m, a);
    Linear.StepLin(cap, st, w.m, a);
    var t := Manager.Next(cap, w.m, a);
    forall d | 0 <= d < |w.conns|
      ensures InStep(t.clients[d], w.conns[d])
    {
      assert InStep(w.m.clients[d], w.conns[d]);
    }
    hide Quiet, InStep;
  }

  lemma StepInv(cap: nat, lim: Limits, st: Store, w: State, step: Step)
    requires Inv(cap, lim, st, w) && Enabled(cap, lim, w, step)
    ensures Inv(cap, lim, st, Next(cap, lim, w, step))
  {
    if step.Accept? {
      AcceptInv(cap, lim, st, w, step.bytes);
    } else {
      hide Inv, Enabled, Next;
      match step
      case Take(c) => TakeInv(cap, lim, st, w, c);
      case Local(c, rsp) => LocalInv(cap, lim, st, w, c, rsp);
      case Refuse(c) => RefuseInv(cap, lim, st, w, c);
      case End(c) => EndInv(cap, lim, st, w, c);
      case Respond(c) => RespondInv(cap, lim, st, w, c);
      case Inner(a) => InnerInv(cap, lim, st, w, a);
    }
  }

  // ---------- Whole runs ----------

  lemma {:induction false} RunInv(cap: nat, lim: Limits, tr: seq<State>, i: nat)
    requires Run(cap, lim, tr) && i < |tr|
    ensures Inv(cap, lim, Manager.Contents(tr[0].m), tr[i])
  {
    hide Inv, Enabled, Next;
    if i == 0 {
      InitialInv(cap, lim, tr[0]);
    } else {
      RunInv(cap, lim, tr, i - 1);
      assert Moves(cap, lim, tr[i - 1], tr[i - 1 + 1]);
      var step :| Enabled(cap, lim, tr[i - 1], step) && tr[i] == Next(cap, lim, tr[i - 1], step);
      StepInv(cap, lim, Manager.Contents(tr[0].m), tr[i - 1], step);
    }
  }

  lemma InitialInv(cap: nat, lim: Limits, w: State)
    requires Initial(w)
    ensures Inv(cap, lim, Manager.Contents(w.m), w)
  {
    ManagerInv.InitialCore(cap, w.m);
    Linear.InitialLin(w.m);
    assert w.m.hist == [];
    hide ManagerInv.Core, Linear.LinInv;
  }

  /** End to end: whatever bytes the clients of a run send and however their requests interleave, one history and one
      sequential run explain all connections at once. The bytes read from each are requests whose database operations
      are its calls, in order; the bytes written to it are the replies to them, in order; the sequential run has those
      replies. */
  lemma BytesAreExplained(cap: nat, lim: Limits, tr: seq<State>, i: nat)
    requires Run(cap, lim, tr) && i < |tr|
    ensures var w := tr[i];
            && Linearizable(Manager.Contents(tr[0].m), w.m.hist)
            && forall c | 0 <= c < |w.conns| :: Conversation(lim, w.m.hist, c, w.conns[c])
  {
    hide Manager.Contents, Run, ManagerInv.Core, Conversation, InStep;
    RunInv(cap, lim, tr, i);
    Linear.LinExplains(Manager.Contents(tr[0].m), tr[i].m);
  }

  /** What the two ends of a conversation can find out from bytes alone: the server's parser finds the requests in what
      was sent, and the client's reader finds the responses in what it was sent. */
  lemma Decoded(lim: Limits, hist: seq<Event>, c: nat, x: Conn, others: seq<Request>)
    requires Conversation(lim, hist, c, x)
    requires forall k | 0 <= k < |x.told| :: |x.told[k].payload| < U32_LIMIT
    requires EncodeRequests(others) == x.bytes[..x.taken]
    requires forall k | 0 <= k < |others| :: others[k].Fits() && FirstFault(lim, others[k]).None?
    ensures others == x.asked && ReadMany(x.output, |x.told|) == Some(x.told)
  {
    hide EncodeRequests, EncodeResponses, FirstFault, Request.Fits, CallsMatch, AnswersMatch, ReadMany;
    EncodeRequestsInjective(lim, others, x.asked);
    ResponsesRoundTrip(x.told, []);
    assert EncodeResponses(x.told) + [] == EncodeResponses(x.told);
  }
}
