/** The database worker: one loop that owns the log and the index, and answers queries in queue order. */
module Worker {
  import opened Bytes
  import opened Log
  import opened Crash
  import opened Space
  import Crc
  import Wal

  datatype Query = Info | Get(key: Data) | Put(key: Data, value: Data) | Del(key: Data)
  {
    predicate Writes() {
      Put? || Del?
    }

    /** The write is refused by the log before anything happens. */
    predicate Refused() {
      Writes() && key == []
    }

    predicate Logged() {
      Writes() && key != []
    }

    /** Lengths arrive as 32-bit numbers. */
    predicate Fits() {
      (Put? ==> |key| < U32_LIMIT && |value| < U32_LIMIT) && (Del? ==> |key| < U32_LIMIT)
    }

    function Record(): Record
      requires Writes()
    {
      if Put? then Set(key, value) else Delete(key)
    }
  }

  datatype Reply = Ok | KeyValue(value: Data) | KeyNotFound | Report(packet: InfoPacket) | Failed

  /** The records a sequence of queries logs. */
  function LoggedBy(qs: seq<Query>): seq<Record> {
    if qs == [] then []
    else LoggedBy(qs[..|qs| - 1]) + (if qs[|qs| - 1].Logged() then [qs[|qs| - 1].Record()] else [])
  }

  /** The index after the queries; a write whose fsync failed leaves it alone. */
  function IndexAfter(m: Index, qs: seq<Query>, synced: seq<bool>): Index
    requires |qs| == |synced|
    decreases |qs|
  {
    if qs == [] then m
    else
      var n := |qs| - 1;
      var before := IndexAfter(m, qs[..n], synced[..n]);
      if qs[n].Logged() && synced[n] then Apply(before, qs[n].Record()) else before
  }

  /** What a query must be answered, given the index and the file length before it. */
  ghost predicate Answers(m: Index, fileLen: nat, q: Query, synced: bool, reply: Reply) {
    match q
    case Info => reply.Report? && InfoIsExact(m, fileLen, reply.packet)
    && reply.packet.sizeInMemory <= reply.packet.sizeOnDisk
    case Get(key) => reply == if key in m then KeyValue(m[key]) else KeyNotFound
    case Put(key, _) => reply == if key == [] || !synced then Failed else Ok
    case Del(key) => reply == if key == [] || !synced then Failed else if key in m then Ok else KeyNotFound
  }

  /** The answer to `q` after `before`; a write fails only where an fsync was due. */
  ghost predicate ServedAt(m: Index, fileLen: nat, interval: Interval, before: seq<Query>, synced: seq<bool>,
                           q: Query, ok: bool, reply: Reply)
  {
    && |before| == |synced|
    && Answers(IndexAfter(m, before, synced), fileLen + TotalSize(LoggedBy(before)), q, ok, reply)
    && (!ok ==> q.Logged() && |LoggedBy(before + [q])| % interval == 0)
  }

  /** Every query of the queue is answered once, in order, on the index its predecessors left. */
  ghost predicate Served(m: Index, fileLen: nat, interval: Interval, qs: seq<Query>, synced: seq<bool>,
                         replies: seq<Reply>)
  {
    && |replies| == |synced| == |qs|
    && forall i | 0 <= i < |qs| :: ServedAt(m, fileLen, interval, qs[..i], synced[..i], qs[i], synced[i], replies[i])
  }

  lemma ServedNothing(m: Index, fileLen: nat, interval: Interval, records: seq<Log.Record>)
    ensures Served(m, fileLen, interval, [], [], []) && IndexAfter(m, [], []) == m
    ensures LoggedBy([]) == [] && TotalSize([]) == 0 && records + [] == records
  {
  }

  lemma LoggedByMore(qs: seq<Query>, q: Query)
    ensures LoggedBy(qs + [q]) == LoggedBy(qs) + LoggedBy([q])
    ensures TotalSize(LoggedBy(qs + [q])) == TotalSize(LoggedBy(qs)) + TotalSize(LoggedBy([q]))
  {
    assert (qs + [q])[..|qs|] == qs;
    TotalSizeAppend(LoggedBy(qs), LoggedBy([q]));
  }

  lemma ServedMore(m: Index, fileLen: nat, interval: Interval, qs: seq<Query>, synced: seq<bool>, replies: seq<Reply>,
                   q: Query, ok: bool, reply: Reply)
    requires Served(m, fileLen, interval, qs, synced, replies)
    requires Answers(IndexAfter(m, qs, synced), fileLen + TotalSize(LoggedBy(qs)), q, ok, reply)
    requires !ok ==> q.Logged() && |LoggedBy(qs + [q])| % interval == 0
    ensures Served(m, fileLen, interval, qs + [q], synced + [ok], replies + [reply])
  {
    hide Answers, IndexAfter, LoggedBy, TotalSize;
    var n := |qs|;
    assert ServedAt(m, fileLen, interval, qs, synced, q, ok, reply);
    hide ServedAt;
    var qs', synced', replies' := qs + [q], synced + [ok], replies + [reply];
    forall i | 0 <= i < |qs'|
      ensures ServedAt(m, fileLen, interval, qs'[..i], synced'[..i], qs'[i], synced'[i], replies'[i])
    {
      if i < n {
        assert qs'[..i] == qs[..i] && synced'[..i] == synced[..i];
      } else {
        assert qs'[..i] == qs && synced'[..i] == synced;
      }
    }
  }

  lemma IndexAfterMore(m: Index, qs: seq<Query>, synced: seq<bool>, q: Query, ok: bool)
    requires |qs| == |synced|
    ensures IndexAfter(m, qs + [q], synced + [ok]) == IndexAfter(IndexAfter(m, qs, synced), [q], [ok])
  {
    assert (qs + [q])[..|qs|] == qs && (synced + [ok])[..|qs|] == synced;
    var before := IndexAfter(m, qs, synced);
    assert IndexAfter(before, [q][..0], [ok][..0]) == before;
  }

  // ---------- A write is a run of the file's life ----------

  /** The state after one whole write; `ok` tells how a due fsync went. */
  ghost function AfterWrite(crc: Checksum, s: State, r: Record, ok: bool): State
  {
    var t := s.(content := s.content + Encode(crc, r), log := s.log + [r], writes := s.writes + 1);
    if t.writes % t.interval != 0 then t.(index := Apply(s.index, r))
    else if ok then Synced(t).(index := Apply(s.index, r))
    else t.(skipped := s.skipped + {|s.log|})
  }

  function Last(tr: seq<State>): State
    requires tr != []
  {
    tr[|tr| - 1]
  }

  lemma RunMore(crc: Checksum, tr: seq<State>, step: Step)
    requires Run(crc, tr) && Enabled(Last(tr), step)
    ensures Run(crc, tr + [Next(crc, Last(tr), step)])
  {
    hide Enabled, Next, Initial;
    var n := |tr| - 1;
    var more := tr + [Next(crc, tr[n], step)];
    forall i | 0 <= i < |more| - 1
      ensures Moves(crc, more[i], more[i + 1])
    {
      if i < n {
        assert Moves(crc, tr[i], tr[i + 1]);
      }
    }
  }

  lemma Take(crc: Checksum, tr: seq<State>, s: State, step: Step) returns (more: seq<State>, t: State)
    requires Run(crc, tr) && tr != [] && Last(tr) == s && Enabled(s, step)
    ensures t == Next(crc, s, step) && tr <= more && more != [] && Last(more) == t && Run(crc, more)
  {
    hide Enabled, Next, Run;
    RunMore(crc, tr, step);
    t := Next(crc, s, step);
    more := tr + [t];
  }

  lemma AppendIsRun(crc: Checksum, tr: seq<State>, s: State, r: Record) returns (more: seq<State>,
          t: State)
    requires Run(crc, tr) && tr != [] && Last(tr) == s && s.phase.Idle? && r.Valid()
    ensures tr <= more && more != [] && Last(more) == t && Run(crc, more)
    ensures t == s.(content := s.content + Encode(crc, r), log := s.log + [r], writes := s.writes + 1, phase := Written)
  {
    hide Run, Encode, Last;
    more, t := Take(crc, tr, s, Begin(r));
    var n := |t.phase.rest|;
    assert t.phase.rest[..n] == t.phase.rest && t.phase.rest[n..] == [];
    more, t := Take(crc, more, t, Write(n));
    more, t := Take(crc, more, t, Return);
  }

  lemma WriteIsRun(crc: Checksum, tr: seq<State>, r: Record, ok: bool) returns (more: seq<State>)
    requires tr != [] && Run(crc, tr) && Last(tr).phase.Idle? && r.Valid()
    ensures tr <= more && Run(crc, more) && more != []
    ensures Last(more) == AfterWrite(crc, Last(tr), r, ok)
  {
    hide Run, Encode, Apply, Last;
    var t;
    more, t := AppendIsRun(crc, tr, Last(tr), r);
    var step := if t.writes % t.interval != 0 then NotDue else if ok then SyncOk else SyncFailed;
    more, t := Take(crc, more, t, step);
    if !step.SyncFailed? {
      more, t := Take(crc, more, t, Step.Reply);
    }
  }

  lemma EmptyFile(crc: Checksum) returns (tr: seq<State>)
    ensures Run(crc, tr) && tr != [] && Last(tr) == State([], [], {[]}, 0, Down, 1, 0, map[], [], 0, {}, 0)
    ensures Scan(crc, []) == []
  {
    tr := [State([], [], {[]}, 0, Down, 1, 0, map[], [], 0, {}, 0)];
  }

  /** It happens: after a failed fsync of a new database's first write, the record is in the log, not in the index. */
  lemma FailedSyncDiverges(crc: Checksum) returns (tr: seq<State>)
    ensures Run(crc, tr) && tr != [] && Last(tr).phase.Idle? && Last(tr).log == [Set([0], [1])]
    ensures Last(tr).index == map[] && Replay(Last(tr).log) == map[[0] := [1]]
  {
    hide Run, Encode, ParseOne, Scan, Last;
    var r, s := Set([0], [1]), State([], [], {[]}, 0, Down, 1, 0, map[], [], 0, {}, 0);
    tr := EmptyFile(crc);
    tr, s := Take(crc, tr, s, Recover(1));
    assert Replay([]) == map[];
    tr := WriteIsRun(crc, tr, r, false);
    ReplaySnoc([], r);
    assert [] + [r] == [r];
  }

  lemma {:induction false} ReplayKeysFit(m: Index, rs: seq<Record>)
    requires AllValid(rs) && forall k | k in m :: |k| < U32_LIMIT
    ensures forall k | k in ReplayFrom(m, rs) :: |k| < U32_LIMIT
    decreases |rs|
  {
    if rs != [] {
      ReplayKeysFit(Apply(m, rs[0]), rs[1..]);
    }
  }

  lemma {:induction false} KeptValid(log: seq<Record>, skipped: set<nat>)
    requires AllValid(log)
    ensures AllValid(Kept(log, skipped))
  {
    if log != [] {
      KeptValid(log[..|log| - 1], skipped);
    }
  }

  /** No sync of this start failed, and no truncation is waiting for one. */
  ghost predicate Untouched(s: State) {
    s.skipped == {} && s.carried == 0 && s.past == {s.medium} && s.shared == |s.medium|
  }

  /** Nothing happened to a file since it was synced exactly when it is what the medium has. */
  lemma SynchronousMedium(crc: Checksum, tr: seq<State>, i: nat)
    requires Run(crc, tr) && i < |tr| && Synchronous(tr[i])
    ensures tr[i].medium == tr[i].content
  {
    hide Run, Scan, EncodeAll, SelvesAgree, FileAgrees, IndexAgrees, LossBounded;
    RunInv(crc, tr, i);
  }

  // ---------- The worker ----------

  class DatabaseWorker {
    const wal: Wal.Wal
    const interval: Interval
    var memoryIndex: Index
    var writesExecuted: nat
    ghost var trace: seq<State>   // the file's life so far, across all its workers

    ghost predicate Valid()
      reads this, wal, wal.file, wal.hasher
    {
      && wal.Valid() && wal.file.reliable && trace != [] && Run(Crc.Checksum, trace)
      && Idles(Last(trace))
    }

    /** The recorded state is the real one. */
    ghost predicate Idles(s: State)
      reads this, wal, wal.file
    {
      && s.phase.Idle? && s.interval == interval && s.content == wal.file.content && s.medium == wal.file.medium
      && s.index == memoryIndex && s.log == wal.records && s.writes == writesExecuted
    }

    constructor (wal: Wal.Wal, fsyncInterval: nat, index: Index, ghost trace: seq<State>)
      ensures this.wal == wal && interval == (if fsyncInterval > 1 then fsyncInterval else 1)
      ensures memoryIndex == index && writesExecuted == 0 && this.trace == trace
    {
      this.wal, interval, memoryIndex := wal, if fsyncInterval > 1 then fsyncInterval else 1, index;
      writesExecuted, this.trace := 0, trace;
    }

    /** Hands a write to the log; false when the log could not write it. */
    method AppendQuery(q: Query) returns (logged: bool)
      requires wal.Ready() && q.Logged() && q.Fits()
      modifies wal, wal.file, wal.hasher
      ensures wal.Ready() && wal.file.medium == old(wal.file.medium) && (wal.file.reliable ==> logged)
      ensures logged ==>
                && wal.file.content == old(wal.file.content) + Encode(Crc.Checksum, q.Record())
                && wal.records == old(wal.records) + [q.Record()] && wal.fileLen == old(wal.fileLen) + q.Record().Size()
      ensures !logged ==>
                && old(wal.file.content) <= wal.file.content
                && wal.records == old(wal.records) && wal.fileLen == old(wal.fileLen)
      ensures old(wal.Valid()) && logged ==> wal.Valid()
    {
      hide Encode, EncodeAll, Crc.Checksum;
      var appended;
      ghost var written;
      match q {
        case Put(key, value) => appended, written := wal.Append(OP_SET, key, value);
        case Del(key) => appended, written := wal.Append(OP_DELETE, key, []);
      }
      logged := appended.Appended?;
      assert logged ==> Encode(Crc.Checksum, q.Record())[..written] == Encode(Crc.Checksum, q.Record());
    }

    /** The write just done, as the file machine sees it. */
    ghost method Extend(r: Log.Record, ok: bool)
      requires trace != [] && Run(Crc.Checksum, trace) && Last(trace).phase.Idle? && r.Valid()
      modifies this`trace
      ensures old(trace) <= trace && trace != [] && Run(Crc.Checksum, trace)
      ensures Last(trace) == AfterWrite(Crc.Checksum, old(Last(trace)), r, ok)
    {
      hide Run, Last, AfterWrite;
      trace := WriteIsRun(Crc.Checksum, trace, r, ok);
    }

    /** No sync has failed since the worker started, and it found the file as it was synced. */
    ghost predicate Sound()
      reads this, wal, wal.file
    {
      trace != [] && Untouched(Last(trace))
    }

    /** Whatever a power loss now leaves of the file, from its last synced state to its present one, has all but fewer
        than the interval of the log's records. */
    ghost predicate LosesFew()
      reads this, wal, wal.file
    {
      forall image | wal.file.medium <= image <= wal.file.content ::
        var kept := Scan(Crc.Checksum, image);
        kept <= wal.records && |wal.records| < |kept| + interval
    }

    lemma SoundLosesFew()
      requires Valid() && Sound()
      ensures LosesFew()
    {
      hide Scan, Encode, EncodeAll, Run;
      var s, n := Last(trace), |trace| - 1;
      forall image | wal.file.medium <= image <= wal.file.content
        ensures var kept := Scan(Crc.Checksum, image); kept <= wal.records && |wal.records| < |kept| + interval
      {
        FrontSurvives(s, image);
        BoundedLoss(Crc.Checksum, trace, n, image);
      }
    }

    /** Append, count, fsync when due, then update the index. A failed append is answered and not undone: nothing but
        the file has changed, and the worker goes on. */
    method Store(q: Query) returns (reply: Reply, ghost synced: bool, ghost logged: bool)
      requires wal.Ready() && q.Logged() && q.Fits()
      modifies this, wal, wal.file, wal.hasher
      ensures wal.Ready() && (wal.file.reliable ==> logged)
      ensures !logged ==>
                && reply == Failed && memoryIndex == old(memoryIndex) && writesExecuted == old(writesExecuted)
                && wal.records == old(wal.records) && wal.fileLen == old(wal.fileLen)
                && old(wal.file.content) <= wal.file.content
      ensures logged ==>
                && wal.records == old(wal.records) + [q.Record()] && wal.fileLen == old(wal.fileLen) + q.Record().Size()
                && writesExecuted == old(writesExecuted) + 1 && (!synced ==> writesExecuted % interval == 0)
                && memoryIndex == (if synced then Apply(old(memoryIndex), q.Record()) else old(memoryIndex))
                && Answers(old(memoryIndex), old(wal.fileLen), q, synced, reply)
      ensures logged && wal.file.syncs ==> synced
      ensures wal.file.medium ==
              if logged && synced && writesExecuted % interval == 0 then wal.file.content else old(wal.file.medium)
      ensures old(Valid()) && logged ==> Valid() && old(trace) <= trace
      ensures old(Valid() && Sound()) && logged && synced ==> Sound()
    {
      hide Run, Encode, EncodeAll, Next, Crc.Checksum, Last;
      ghost var was := Valid();
      var ok := AppendQuery(q);
      logged := ok;
      if !ok {
        return Failed, false, false;
      }
      writesExecuted := writesExecuted + 1;
      if writesExecuted % interval == 0 {
        ok := wal.Fsync();
      }
      synced := ok;
      if was {
        Extend(q.Record(), ok);
      }
      if !ok {
        return Failed, false, true;
      }
      match q {
        case Put(key, value) =>
          memoryIndex := memoryIndex[key := value];
          reply := Ok;
        case Del(key) =>
          reply := if key in memoryIndex then Ok else KeyNotFound;
          memoryIndex := memoryIndex - {key};
      }
    }

    /** One query off the queue. */
    method Execute(q: Query) returns (reply: Reply, ghost synced: bool)
      requires Valid() && q.Fits()
      modifies this, wal, wal.file, wal.hasher
      ensures Valid() && old(trace) <= trace
      ensures wal.records == old(wal.records) + LoggedBy([q])
      ensures wal.fileLen == old(wal.fileLen) + TotalSize(LoggedBy([q]))
      ensures writesExecuted == old(writesExecuted) + |LoggedBy([q])|
      ensures memoryIndex == IndexAfter(old(memoryIndex), [q], [synced])
      ensures !synced ==> q.Logged() && writesExecuted % interval == 0
      ensures Answers(old(memoryIndex), old(wal.fileLen), q, synced, reply)
      ensures wal.file.syncs ==> synced
      ensures wal.file.medium ==
              if q.Logged() && synced && writesExecuted % interval == 0 then wal.file.content else old(wal.file.medium)
      ensures old(Sound()) && synced ==> Sound()
    {
      hide Run, Encode, EncodeAll, Crc.Checksum, InfoIsExact, Last;
      synced := true;
      assert LoggedBy([q]) == if q.Logged() then [q.Record()] else [];
      if q.Logged() {
        ghost var logged;
        reply, synced, logged := Store(q);
      } else {
        match q {
          case Info =>
            LiveState();
            var p := Space.Info(memoryIndex, wal.fileLen);
            InfoIsSane(memoryIndex, wal.fileLen, p);
            reply := Report(p);
          case Get(key) =>
            reply := if key in memoryIndex then KeyValue(memoryIndex[key]) else KeyNotFound;
          case Put(key, value) =>
            var refused, _ := wal.Append(OP_SET, key, value);
            reply := Failed;
          case Del(key) =>
            var refused, _ := wal.Append(OP_DELETE, key, []);
            reply := Failed;
        }
      }
    }

    /** The receive loop over the queries that come. While syncs work, all are served, and at no time would a power loss
        cost as many answered writes as the interval. */
    method Serve(queue: seq<Query>) returns (replies: seq<Reply>, ghost synced: seq<bool>)
      requires Valid() && writesExecuted == 0 && forall i | 0 <= i < |queue| :: queue[i].Fits()
      modifies this, wal, wal.file, wal.hasher
      ensures Valid() && old(trace) <= trace
      ensures Served(old(memoryIndex), old(wal.fileLen), interval, queue, synced, replies)
      ensures memoryIndex == IndexAfter(old(memoryIndex), queue, synced)
      ensures wal.records == old(wal.records) + LoggedBy(queue)
      ensures wal.file.syncs ==> forall i | 0 <= i < |synced| :: synced[i]
      ensures wal.file.syncs && old(Sound()) ==> LosesFew()
    {
      hide Run, Encode, EncodeAll, Crc.Checksum, Served, Answers, TotalSize, LoggedBy, IndexAfter, Sound, LosesFew;
      replies, synced := [], [];
      ServedNothing(memoryIndex, wal.fileLen, interval, wal.records);
      for n := 0 to |queue|
        invariant Valid() && old(trace) <= trace && |synced| == n
        invariant Served(old(memoryIndex), old(wal.fileLen), interval, queue[..n], synced, replies)
        invariant memoryIndex == IndexAfter(old(memoryIndex), queue[..n], synced)
        invariant wal.records == old(wal.records) + LoggedBy(queue[..n])
        invariant wal.fileLen == old(wal.fileLen) + TotalSize(LoggedBy(queue[..n]))
        invariant writesExecuted == |LoggedBy(queue[..n])|
        invariant wal.file.syncs ==> forall i | 0 <= i < n :: synced[i]
        invariant wal.file.syncs && old(Sound()) ==> Sound()
      {
        var reply;
        ghost var ok;
        reply, ok := Execute(queue[n]);
        LoggedByMore(queue[..n], queue[n]);
        IndexAfterMore(old(memoryIndex), queue[..n], synced, queue[n], ok);
        ServedMore(old(memoryIndex), old(wal.fileLen), interval, queue[..n], synced, replies, queue[n], ok, reply);
        replies, synced := replies + [reply], synced + [ok];
        assert queue[..n + 1] == queue[..n] + [queue[n]];
      }
      assert queue[..|queue|] == queue;
      if wal.file.syncs && old(Sound()) {
        SoundLosesFew();
      }
    }

    /** Serves the queue in order until every sender is gone, then syncs once more. */
    method ExecuteQueries(queue: seq<Query>) returns (replies: seq<Reply>, ghost synced: seq<bool>)
      requires Valid() && writesExecuted == 0 && forall i | 0 <= i < |queue| :: queue[i].Fits()
      modifies this, wal, wal.file, wal.hasher
      ensures Closed() && old(trace) <= trace
      ensures Served(old(memoryIndex), old(wal.fileLen), interval, queue, synced, replies)
      ensures memoryIndex == IndexAfter(old(memoryIndex), queue, synced)
      ensures wal.records == old(wal.records) + LoggedBy(queue)
      ensures wal.file.content == EncodeAll(Crc.Checksum, wal.records)
      ensures wal.file.syncs ==> wal.file.medium == wal.file.content && forall i | 0 <= i < |synced| :: synced[i]
    {
      hide Run, Encode, EncodeAll, Crc.Checksum, Served, Answers, TotalSize, LoggedBy, IndexAfter;
      replies, synced := Serve(queue);
      CloseTrace();
    }

    method CloseTrace()
      requires Valid()
      modifies this`trace, wal.file`medium
      ensures Closed() && old(trace) <= trace && (wal.file.syncs ==> wal.file.medium == wal.file.content)
    {
      hide Run, Encode, EncodeAll, Crc.Checksum, Scan, Replay;
      var ok := wal.Fsync();
      ghost var more, t := Take(Crc.Checksum, trace, Last(trace), Stop(ok));
      trace := more;
    }

    /** The worker has returned; the next process finds the file as recorded. */
    ghost predicate Closed()
      reads this, wal, wal.file
    {
      && trace != [] && Run(Crc.Checksum, trace)
      && Last(trace).phase.Down? && Last(trace).content == wal.file.content && Last(trace).medium == wal.file.medium
    }

    lemma LiveState()
      requires Valid()
      ensures LiveSize(memoryIndex) <= wal.fileLen
      ensures forall k | k in memoryIndex :: |k| < U32_LIMIT
    {
      hide LiveSize, Replay, Kept, EncodeAll;
      var s, n := Last(trace), |trace| - 1;
      LiveFitsFile(Crc.Checksum, trace, n);
      IndexIsReplay(Crc.Checksum, trace, n);
      KeptValid(s.log[..s.Done()], s.skipped);
      ReplayFits(Kept(s.log[..s.Done()], s.skipped));
      KeysOfReplay(Kept(s.log[..s.Done()], s.skipped));
    }
  }

  lemma KeysOfReplay(rs: seq<Record>)
    requires AllValid(rs)
    ensures forall k | k in Replay(rs) :: |k| < U32_LIMIT
  {
    ReplayKeysFit(map[], rs);
  }

  /** Opening a database after a stop or a crash: recovery, then a worker on the recovered index. */
  method Open(file: Wal.File, fsyncInterval: nat, ghost trace: seq<State>) returns (worker: DatabaseWorker?)
    requires file.reliable && trace != [] && Run(Crc.Checksum, trace)
    requires Last(trace).phase.Down? && Last(trace).content == file.content && Last(trace).medium == file.medium
    requires |file.content| < Wal.SLICE_LIMIT
    modifies file
    ensures worker != null ==>
              && fresh(worker) && worker.Valid() && trace <= worker.trace && worker.writesExecuted == 0
              && worker.wal.file == file
              && worker.wal.records == Scan(Crc.Checksum, old(file.content))
              && worker.memoryIndex == Replay(worker.wal.records)
              && Last(trace).DurableLog() <= worker.wal.records <= Last(trace).log
              && worker.interval == (if fsyncInterval > 1 then fsyncInterval else 1)
              && (Synchronous(Last(trace)) || file.content != old(file.content) ==> worker.Sound() && worker.LosesFew())
    ensures file.syncs ==> worker != null
  {
    hide Run, Encode, EncodeAll, Crc.Checksum, Scan, Replay, TotalSize;
    ghost var interval: Interval := if fsyncInterval > 1 then fsyncInterval else 1;
    ghost var s := Last(trace);
    ghost var rs := Scan(Crc.Checksum, file.content);
    ScanExact(Crc.Checksum, file.content);
    EncodeAllSize(Crc.Checksum, rs);
    RecoveryKeepsDurable(Crc.Checksum, trace, |trace| - 1, interval);
    var wal, index := Wal.Wal.Init(file);
    if wal == null {
      return null;
    }
    ghost var more, t := Take(Crc.Checksum, trace, s, Recover(interval));
    if Synchronous(s) {
      SynchronousMedium(Crc.Checksum, trace, |trace| - 1);
    }
    if t.phase.Truncating? {
      assert file.content != old(file.content);
      more, t := Take(Crc.Checksum, more, t, TruncationSynced);
    }
    worker := new DatabaseWorker(wal, fsyncInterval, index, more);
    if Untouched(t) {
      worker.SoundLosesFew();
    }
  }
}
