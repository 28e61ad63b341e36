/** How the layers fit: requests on the wire, operations of the service, queries of a worker, and back. */
module Layers {
  import opened Bytes
  import opened Log
  import Crash
  import Manager
  import Service
  import Wire
  import Worker

  // ---------- From the wire to the service ----------

  function OpOf(r: Wire.Request): Option<Service.Op> {
    match r
    case Create(db) => Some(Service.Create(db))
    case Drop(db) => Some(Service.Drop(db))
    case Get(db, key) => Some(Service.Get(db, key))
    case Set(db, key, value) => Some(Service.Put(db, key, value))
    case Delete(db, key) => Some(Service.Del(db, key))
    case _ => None
  }

  lemma OpNames(r: Wire.Request)
    ensures OpOf(r).Some? <==> !r.Bare() && !r.Info?
    ensures OpOf(r).Some? ==> OpOf(r).value.db == r.db
  {
  }

  function QueryOf(op: Service.Op): Worker.Query
    requires op.Keyed()
  {
    match op
    case Get(_, key) => Worker.Get(key)
    case Put(_, key, value) => Worker.Put(key, value)
    case Del(_, key) => Worker.Del(key)
  }

  /** What the server's checks promise a worker: a key that is not empty and lengths the log can store. */
  predicate Servable(op: Service.Op) {
    op.Keyed() && op.key != [] && QueryOf(op).Fits()
  }

  lemma AcceptedIsServable(lim: Wire.Limits, t: Data, r: Wire.Request)
    requires t != [] && Wire.ParseRequest(lim, t) == Wire.Accepted(r)
    ensures OpOf(r).Some? && OpOf(r).value.Keyed() ==> Servable(OpOf(r).value)
  {
    Wire.EncodeOfAccepted(lim, t, r);
    hide Wire.ParseRequest, Wire.EncodeRequest;
  }

  // ---------- From the service to a worker ----------

  function AsReply(r: Worker.Reply): Option<Service.Reply> {
    match r
    case Ok => Some(Service.Done)
    case KeyValue(value) => Some(Service.Found(value))
    case KeyNotFound => Some(Service.KeyNotFound)
    case _ => None
  }

  /** Where no fsync fails, a worker's answer to one query is the service's, and so are its index and its log. */
  lemma QueryRefines(m: Index, fileLen: nat, op: Service.Op, reply: Worker.Reply)
    requires Servable(op) && Worker.Answers(m, fileLen, QueryOf(op), true, reply)
    ensures AsReply(reply) == Some(Service.KeyedReply(m, op))
    ensures Worker.IndexAfter(m, [QueryOf(op)], [true]) == Service.KeyedEffect(m, op)
    ensures Worker.LoggedBy([QueryOf(op)]) == Service.Logs(op)
  {
    var q := QueryOf(op);
    assert [q][..0] == [] && [true][..0] == [];
    assert Worker.IndexAfter(m, [], []) == m && Worker.LoggedBy([]) == [];
    if q.Writes() {
      assert [q.Record()][1..] == [];
      assert ReplayFrom(m, [q.Record()]) == ReplayFrom(Apply(m, q.Record()), []);
    }
  }

  predicate AllServable(ops: seq<Service.Op>) {
    forall i | 0 <= i < |ops| :: ops[i].Keyed() && Servable(ops[i])
  }

  function Queries(ops: seq<Service.Op>): seq<Worker.Query>
    requires AllServable(ops)
  {
    seq(|ops|, i requires 0 <= i < |ops| => QueryOf(ops[i]))
  }

  function AllSynced(n: nat): seq<bool> {
    seq(n, _ => true)
  }

  /** The index after a queue of operations, taken one at a time by the service. */
  function ServiceIndex(m: Index, ops: seq<Service.Op>): Index
    requires AllServable(ops)
    decreases |ops|
  {
    if ops == [] then m
    else
      var n := |ops| - 1;
      Service.KeyedEffect(ServiceIndex(m, ops[..n]), ops[n])
  }

  lemma {:induction false} IndexRefines(m: Index, ops: seq<Service.Op>)
    requires AllServable(ops)
    ensures Worker.IndexAfter(m, Queries(ops), AllSynced(|ops|)) == ServiceIndex(m, ops)
    decreases |ops|
  {
    hide Service.KeyedEffect, QueryOf;
    if ops != [] {
      var n := |ops| - 1;
      var front, op := ops[..n], ops[n];
      IndexRefines(m, front);
      assert Queries(ops) == Queries(front) + [QueryOf(op)] && AllSynced(|ops|) == AllSynced(n) + [true];
      Worker.IndexAfterMore(m, Queries(front), AllSynced(n), QueryOf(op), true);
      EffectRefines(ServiceIndex(m, front), op);
    }
  }

  lemma EffectRefines(m: Index, op: Service.Op)
    requires Servable(op)
    ensures Worker.IndexAfter(m, [QueryOf(op)], [true]) == Service.KeyedEffect(m, op)
  {
    var reply: Worker.Reply := match op
      case Get(_, key) => if key in m then Worker.KeyValue(m[key]) else Worker.KeyNotFound
      case Put(_, _, _) => Worker.Ok
      case Del(_, key) => if key in m then Worker.Ok else Worker.KeyNotFound;
    QueryRefines(m, 0, op, reply);
  }

  /** A worker that serves a whole queue gives every reply the service gives, one operation at a time. */
  lemma QueueRefines(m: Index, fileLen: nat, interval: Crash.Interval, ops: seq<Service.Op>,
                     replies: seq<Worker.Reply>, i: nat)
    requires AllServable(ops) && i < |ops|
    requires Worker.Served(m, fileLen, interval, Queries(ops), AllSynced(|ops|), replies)
    ensures |replies| == |ops| && AsReply(replies[i]) == Some(Service.KeyedReply(ServiceIndex(m, ops[..i]), ops[i]))
  {
    hide Service.KeyedReply, QueryOf, AsReply, Worker.Answers, Worker.IndexAfter, Worker.LoggedBy, TotalSize;
    var qs, before := Queries(ops), ops[..i];
    var synced := AllSynced(|ops|);
    assert Worker.ServedAt(m, fileLen, interval, qs[..i], synced[..i], qs[i], synced[i], replies[i]);
    assert qs[..i] == Queries(before) && synced[..i] == AllSynced(i);
    IndexRefines(m, before);
    QueryRefines(ServiceIndex(m, before), fileLen + TotalSize(Worker.LoggedBy(qs[..i])), ops[i], replies[i]);
  }

  // ---------- From the service back to the wire ----------

  function OkText(op: Service.Op): (text: string)
    ensures |text| < U32_LIMIT
  {
    if op.Create? then "Database created successfully" else if op.Drop? then "Database dropped successfully" else "OK"
  }

  /** How a reply of the service goes out. */
  function AnswerOf(op: Service.Op, reply: Service.Reply): Wire.Answer {
    match reply
    case Done => Wire.More(Wire.Ok(Wire.Ascii(OkText(op))))
    case Found(value) => Wire.More(Wire.KeyValue(value))
    case KeyNotFound => Wire.More(Wire.KeyNotFound(Wire.Ascii("Key not found")))
    case DbNotFound => Wire.Last(Wire.DbNotFound(Wire.Ascii("Database not found")))
    case AlreadyExists => Wire.More(Wire.DbAlreadyExists(Wire.Ascii("Database already exists")))
    case CannotDropDefault => Wire.More(Wire.InvalidRequest(Wire.Ascii("Cannot drop the default database")))
    case NoReply => Wire.Hangup
  }

  /** A client that reads the response to its request knows which reply the service gave, and the connection stays open
      exactly when the manager's does. */
  lemma RepliesArrive(op: Service.Op, reply: Service.Reply, tail: Data)
    requires !reply.NoReply? && (reply.Found? ==> |reply.value| < U32_LIMIT)
    ensures var answer := AnswerOf(op, reply);
            && !answer.Hangup? && Wire.ReadResponse(Wire.EncodeResponse(answer.response) + tail)
                                    == Wire.Incoming(answer.response, |Wire.EncodeResponse(answer.response)|)
            && (answer.Last? <==> reply.DbNotFound?)
            && forall other | AnswerOf(op, other) == answer :: other == reply
  {
    hide Wire.ReadResponse, Wire.EncodeResponse, OkText, Wire.Ascii;
    AsciiLength(OkText(op));
    AsciiLength("Key not found");
    AsciiLength("Database not found");
    AsciiLength("Database already exists");
    AsciiLength("Cannot drop the default database");
    Wire.ReadOfEncode(AnswerOf(op, reply).response, tail);
  }

  lemma AsciiLength(text: string)
    ensures |Wire.Ascii(text)| == |text|
  {
  }

  lemma ConnectionEnds(s: Manager.State, c: nat)
    requires Manager.CanReply(s, c)
    ensures Manager.Replied(s, c).clients[c].Ready? <==> AnswerOf(s.clients[c].op, Manager.PcOf(s, c).reply).More?
  {
  }
}
