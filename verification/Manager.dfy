/** The database manager and its clients as interleaved steps: a published copy-on-write map read without a lock,
    creates and drops under a lock, one worker per database behind a bounded queue. */
module Manager {
  import opened Bytes
  import opened Log
  import opened Service

  type DbMap = map<Name, nat>   // name to worker

  datatype Message = Message(client: nat, id: nat, op: Op)

  datatype Worker = Worker(
    name: Name,
    index: Index,
    queue: seq<Message>,
    busy: Option<Message>,      // taken off the queue, not answered yet
    alive: bool,                // its loop has not returned
    permit: bool,               // the exit notification, stored until it is awaited
    accepted: seq<nat>,         // history: calls in the order they entered the queue
    answered: seq<nat>)         // history: calls in the order they were answered
  {
    function Pending(): seq<Message> {
      (if busy.Some? then [busy.value] else []) + queue
    }
  }

  /** Where a connection's task stands inside one request. */
  datatype Pc =
    | Start                                 // request read
    | Viewing(view: DbMap)                  // keyed: holds a loaded map
    | Holding(w: nat)                       // keyed: owns a clone of the worker's sender
    | Sent(w: nat)                          // keyed: message queued, waiting for the reply
    | Answered(w: nat, reply: Reply)        // keyed: reply received, sender still owned
    | Locked                                // create, drop: owns the lock
    | Copied(dbs: DbMap)                    // create: private copy without the name
    | Spawned(dbs: DbMap, w: nat)           // create: worker running, private copy has it
    | Removed(dbs: DbMap, w: nat)           // drop: private copy without the name, handle taken
    | Unpublished(w: nat)                   // drop: map stored, sender still owned
    | Draining(w: nat)                      // drop: sender dropped, waiting for the exit notification
    | Drained(w: nat)                       // drop: worker has exited, file still there
    | Unlocking(reply: Reply)               // about to return from create or drop
    | Leaving(reply: Reply)                 // owns nothing, response not sent yet
  {
    predicate HoldsLock() {
      Locked? || Copied? || Spawned? || Removed? || Unpublished? || Draining? || Drained? || Unlocking?
    }

    /** Owns a sender of worker `x`, directly or inside a map. */
    predicate Owns(x: nat) {
      match this
      case Viewing(view) => x in view.Values
      case Holding(w) => w == x
      case Sent(w) => w == x
      case Answered(w, _) => w == x
      case Copied(dbs) => x in dbs.Values
      case Spawned(dbs, _) => x in dbs.Values
      case Removed(dbs, w) => x in dbs.Values || w == x
      case Unpublished(w) => w == x
      case _ => false
    }
  }

  datatype Client = Ready | Gone | Busy(id: nat, op: Op, pc: Pc)

  datatype State = State(
    dbMap: DbMap,                   // the published map
    lock: Option<nat>,
    files: map<Name, seq<Record>>,
    workers: seq<Worker>,
    clients: seq<Client>,
    stalled: set<nat>,              // connections whose peer takes no bytes at the moment
    down: bool,                     // the server has swapped the map away for good
    hist: seq<Event>,               // history: calls and responses in real time
    lin: seq<Entry>,                // history: the sequential run that explains it
    dropAt: nat,                    // history: position in `lin` of the drop in progress
    dropTime: nat)                  // history: length of `hist` when that drop stored its map

  datatype Action =
    | Connect
    | Disconnect(c: nat)
    | Invoke(c: nat, op: Op)
    | Load(c: nat)
    | Lookup(c: nat)
    | Enqueue(c: nat)
    | Dequeue(w: nat)
    | Finish(w: nat)
    | Acquire(c: nat)
    | Check(c: nat)
    | Spawn(c: nat)
    | Publish(c: nat)
    | Unpublish(c: nat)
    | DropSender(c: nat)
    | Exit(w: nat)
    | Notice(c: nat)
    | RemoveFile(c: nat)
    | Unlock(c: nat)
    | Reply(c: nat)
    | Stall(c: nat)
    | Resume(c: nat)
    | Abort(c: nat)
    | Shutdown
  {
    /** Steps the server takes by itself; the others are up to clients and operators. */
    predicate OfServer() {
      !(Connect? || Disconnect? || Invoke? || Stall? || Resume? || Abort? || Shutdown?)
    }
  }

  predicate At(s: State, c: nat) {
    c < |s.clients| && s.clients[c].Busy?
  }

  function PcOf(s: State, c: nat): Pc
    requires At(s, c)
  {
    s.clients[c].pc
  }

  /** No sender of `w` is left anywhere. */
  predicate Unheld(s: State, w: nat) {
    w !in s.dbMap.Values && forall c | 0 <= c < |s.clients| :: s.clients[c].Busy? ==> !s.clients[c].pc.Owns(w)
  }

  predicate Running(s: State, w: nat) {
    w < |s.workers| && s.workers[w].alive
  }

  function Move(s: State, c: nat, pc: Pc): State
    requires At(s, c)
  {
    s.(clients := s.clients[c := s.clients[c].(pc := pc)])
  }

  /** The call of `c` takes effect now. */
  function Explain(s: State, c: nat, reply: Service.Reply): State
    requires At(s, c)
  {
    s.(lin := s.lin + [Entry(s.clients[c].id, s.clients[c].op, reply)])
  }

  function Recovered(s: State, db: Name): seq<Record> {
    if db in s.files then s.files[db] else []
  }

  predicate Published(s: State, w: nat) {
    w < |s.workers| && s.workers[w].name in s.dbMap && s.dbMap[s.workers[w].name] == w
  }

  /** A finished query takes effect now, or just before the drop in progress once its database is unpublished. */
  function ExplainQuery(s: State, w: nat, m: Message, reply: Service.Reply): State
    requires w < |s.workers|
  {
    var e := Entry(m.id, m.op, reply);
    if Published(s, w) then s.(lin := s.lin + [e])
    else if s.dropAt <= |s.lin| then s.(lin := s.lin[..s.dropAt] + [e] + s.lin[s.dropAt..], dropAt := s.dropAt + 1)
    else s
  }

  // ---------- Connections ----------

  function Called(s: State, c: nat, op: Op): State
    requires c < |s.clients|
  {
    s.(clients := s.clients[c := Busy(|s.hist|, op, Start)], hist := s.hist + [Call(c, op)])
  }

  /** A response is ready for the client. */
  predicate Responding(s: State, c: nat) {
    At(s, c) && (PcOf(s, c).Leaving? || PcOf(s, c).Answered?)
  }

  /** Sending it waits while the peer takes no bytes; closing without a response does not. */
  predicate CanReply(s: State, c: nat) {
    Responding(s, c) && (c !in s.stalled || PcOf(s, c) == Leaving(NoReply))
  }

  /** The response is sent; a missing database ends the connection, and so does a drop of one. */
  function Replied(s: State, c: nat): State
    requires CanReply(s, c)
  {
    var reply := PcOf(s, c).reply;
    s.(clients := s.clients[c := if reply.DbNotFound? || reply.NoReply? then Gone else Ready],
       hist := s.hist + [Return(s.clients[c].id, reply)])
  }

  // ---------- Keyed operations ----------

  predicate CanLoad(s: State, c: nat) {
    At(s, c) && PcOf(s, c).Start? && s.clients[c].op.Keyed()
  }

  /** A lock-free read of the published map; if the name is missing, this is the moment it was found missing. */
  function Loaded(s: State, c: nat): State
    requires CanLoad(s, c)
  {
    var t := Move(s, c, Viewing(s.dbMap));
    if s.clients[c].op.db in s.dbMap then t else Explain(t, c, DbNotFound)
  }

  predicate CanLookup(s: State, c: nat) {
    At(s, c) && PcOf(s, c).Viewing?
  }

  /** The sender is cloned out of the loaded map, however old that map is by now. */
  function LookedUp(s: State, c: nat): State
    requires CanLookup(s, c)
  {
    var db, view := s.clients[c].op.db, PcOf(s, c).view;
    Move(s, c, if db in view then Holding(view[db]) else Leaving(DbNotFound))
  }

  /** Sending waits while the queue is full. */
  predicate CanEnqueue(cap: nat, s: State, c: nat) {
    At(s, c) && PcOf(s, c).Holding? && Running(s, PcOf(s, c).w) && |s.workers[PcOf(s, c).w].queue| < cap
  }

  function Enqueued(cap: nat, s: State, c: nat): State
    requires CanEnqueue(cap, s, c)
  {
    var w := PcOf(s, c).w;
    var x, id := s.workers[w], s.clients[c].id;
    var y := x.(queue := x.queue + [Message(c, id, s.clients[c].op)], accepted := x.accepted + [id]);
    Move(s, c, Sent(w)).(workers := s.workers[w := y])
  }

  predicate CanDequeue(s: State, w: nat) {
    Running(s, w) && s.workers[w].busy.None? && s.workers[w].queue != []
  }

  function Dequeued(s: State, w: nat): State
    requires CanDequeue(s, w)
  {
    var x := s.workers[w];
    s.(workers := s.workers[w := x.(busy := Some(x.queue[0]), queue := x.queue[1..])])
  }

  predicate CanFinish(s: State, w: nat) {
    && Running(s, w) && s.workers[w].busy.Some? && s.workers[w].busy.value.op.Keyed()
    && At(s, s.workers[w].busy.value.client) && s.workers[w].name in s.files
  }

  /** The worker logs and applies the query and fills in its reply. */
  function Finished(s: State, w: nat): State
    requires CanFinish(s, w)
  {
    var x := s.workers[w];
    var m := x.busy.value;
    var reply := KeyedReply(x.index, m.op);
    var y := x.(index := KeyedEffect(x.index, m.op), busy := None, answered := x.answered + [m.id]);
    var t := ExplainQuery(Move(s, m.client, Answered(w, reply)), w, m, reply);
    t.(workers := s.workers[w := y], files := s.files[x.name := s.files[x.name] + Logs(m.op)])
  }

  // ---------- Creates and drops ----------

  predicate CanAcquire(s: State, c: nat) {
    At(s, c) && PcOf(s, c).Start? && !s.clients[c].op.Keyed() && s.lock.None?
  }

  predicate CanCheck(s: State, c: nat) {
    At(s, c) && PcOf(s, c).Locked? && !s.clients[c].op.Keyed()
  }

  /** Under the lock: copy the map and look the name up; refusals take effect here. */
  function Checked(s: State, c: nat): State
    requires CanCheck(s, c)
  {
    var op := s.clients[c].op;
    if op.Drop? && op.db == DEFAULT then Explain(Move(s, c, Unlocking(CannotDropDefault)), c, CannotDropDefault)
    else if op.Create? && op.db in s.dbMap then Explain(Move(s, c, Unlocking(AlreadyExists)), c, AlreadyExists)
    else if op.Create? then Move(s, c, Copied(s.dbMap))
    else if op.db !in s.dbMap then Explain(Move(s, c, Unlocking(NoReply)), c, NoReply)
    else Move(s, c, Removed(s.dbMap - {op.db}, s.dbMap[op.db]))
  }

  predicate CanSpawn(s: State, c: nat) {
    At(s, c) && PcOf(s, c).Copied?
  }

  /** The log is opened, its index rebuilt, and a worker started on both. */
  function SpawnedWorker(s: State, c: nat): State
    requires CanSpawn(s, c)
  {
    var db, w, records := s.clients[c].op.db, |s.workers|, Recovered(s, s.clients[c].op.db);
    var x := Worker(db, Replay(records), [], None, true, false, [], []);
    Move(s, c, Spawned(PcOf(s, c).dbs[db := w], w)).(workers := s.workers + [x], files := s.files[db := records])
  }

  predicate CanPublish(s: State, c: nat) {
    At(s, c) && PcOf(s, c).Spawned?
  }

  function PublishedMap(s: State, c: nat): State
    requires CanPublish(s, c)
  {
    Explain(Move(s, c, Unlocking(Done)).(dbMap := PcOf(s, c).dbs), c, Done)
  }

  predicate CanUnpublish(s: State, c: nat) {
    At(s, c) && PcOf(s, c).Removed?
  }

  function UnpublishedMap(s: State, c: nat): State
    requires CanUnpublish(s, c)
  {
    var t := Move(s, c, Unpublished(PcOf(s, c).w)).(dbMap := PcOf(s, c).dbs, dropAt := |s.lin|, dropTime := |s.hist|);
    Explain(t, c, Done)
  }

  predicate CanExit(s: State, w: nat) {
    Running(s, w) && s.workers[w].busy.None? && s.workers[w].queue == [] && Unheld(s, w)
  }

  function Exited(s: State, w: nat): State
    requires CanExit(s, w)
  {
    s.(workers := s.workers[w := s.workers[w].(alive := false, permit := true)])
  }

  predicate CanNotice(s: State, c: nat) {
    At(s, c) && PcOf(s, c).Draining? && PcOf(s, c).w < |s.workers| && s.workers[PcOf(s, c).w].permit
  }

  function Noticed(s: State, c: nat): State
    requires CanNotice(s, c)
  {
    var w := PcOf(s, c).w;
    Move(s, c, Drained(w)).(workers := s.workers[w := s.workers[w].(permit := false)])
  }

  function FileRemoved(s: State, c: nat): State
    requires At(s, c)
  {
    Move(s, c, Unlocking(Done)).(files := s.files - {s.clients[c].op.db})
  }

  // ---------- All steps ----------

  predicate Enabled(cap: nat, s: State, a: Action) {
    match a
    case Connect => !s.down
    case Disconnect(c) => c < |s.clients| && s.clients[c].Ready?
    case Invoke(c, _) => c < |s.clients| && s.clients[c].Ready?
    case Load(c) => CanLoad(s, c)
    case Lookup(c) => CanLookup(s, c)
    case Enqueue(c) => CanEnqueue(cap, s, c)
    case Dequeue(w) => CanDequeue(s, w)
    case Finish(w) => CanFinish(s, w)
    case Acquire(c) => CanAcquire(s, c)
    case Check(c) => CanCheck(s, c)
    case Spawn(c) => CanSpawn(s, c)
    case Publish(c) => CanPublish(s, c)
    case Unpublish(c) => CanUnpublish(s, c)
    case DropSender(c) => At(s, c) && PcOf(s, c).Unpublished?
    case Exit(w) => CanExit(s, w)
    case Notice(c) => CanNotice(s, c)
    case RemoveFile(c) => At(s, c) && PcOf(s, c).Drained?
    case Unlock(c) => At(s, c) && PcOf(s, c).Unlocking?
    case Reply(c) => CanReply(s, c)
    case Stall(c) => c < |s.clients|
    case Resume(c) => c in s.stalled
    case Abort(c) => Responding(s, c)
    case Shutdown => !s.down && forall c | 0 <= c < |s.clients| :: s.clients[c].Gone?
  }

  function Next(cap: nat, s: State, a: Action): State
    requires Enabled(cap, s, a)
  {
    match a
    case Connect => s.(clients := s.clients + [Ready])
    case Disconnect(c) => s.(clients := s.clients[c := Gone])
    case Invoke(c, op) => Called(s, c, op)
    case Load(c) => Loaded(s, c)
    case Lookup(c) => LookedUp(s, c)
    case Enqueue(c) => Enqueued(cap, s, c)
    case Dequeue(w) => Dequeued(s, w)
    case Finish(w) => Finished(s, w)
    case Acquire(c) => Move(s, c, Locked).(lock := Some(c))
    case Check(c) => Checked(s, c)
    case Spawn(c) => SpawnedWorker(s, c)
    case Publish(c) => PublishedMap(s, c)
    case Unpublish(c) => UnpublishedMap(s, c)
    case DropSender(c) => Move(s, c, Draining(PcOf(s, c).w))
    case Exit(w) => Exited(s, w)
    case Notice(c) => Noticed(s, c)
    case RemoveFile(c) => FileRemoved(s, c)
    case Unlock(c) => Move(s, c, Leaving(PcOf(s, c).reply)).(lock := None)
    case Reply(c) => Replied(s, c)
    case Stall(c) => s.(stalled := s.stalled + {c})
    case Resume(c) => s.(stalled := s.stalled - {c})
    case Abort(c) => s.(clients := s.clients[c := Gone])
    case Shutdown => s.(dbMap := map[], down := true)
  }

  /** A started server: one idle worker on each file, the default database among them, and no client yet. */
  ghost predicate Initial(s: State) {
    && s.lock.None? && s.clients == [] && s.stalled == {} && !s.down && s.hist == [] && s.lin == []
    && DEFAULT in s.dbMap && s.files.Keys == s.dbMap.Keys
    && (forall n | n in s.dbMap :: s.dbMap[n] < |s.workers| && s.workers[s.dbMap[n]].name == n)
    && (forall w | 0 <= w < |s.workers| ::
          && Published(s, w)
          && var n := s.workers[w].name; s.workers[w] == Worker(n, Replay(s.files[n]), [], None, true, false, [], []))
  }

  ghost predicate Moves(cap: nat, s: State, t: State) {
    exists a :: Enabled(cap, s, a) && t == Next(cap, s, a)
  }

  ghost predicate Run(cap: nat, tr: seq<State>) {
    tr != [] && Initial(tr[0]) && forall i | 0 <= i < |tr| - 1 :: Moves(cap, tr[i], tr[i + 1])
  }

  /** The databases clients can reach. */
  function Contents(s: State): Store {
    map n | n in s.dbMap && s.dbMap[n] < |s.workers| :: s.workers[s.dbMap[n]].index
  }
}
