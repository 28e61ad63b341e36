/** One database file over its whole life: appends, fsyncs, kills, power losses and recoveries, in any order.
    Everything here holds for every checksum function. */
module Crash {
  import opened Bytes
  import opened Log

  datatype Phase =
    | Down                  // no process owns the file
    | Truncating            // recovery has cut the bad tail, its sync has not returned
    | Idle                  // the worker waits for the next query
    | Writing(rest: Data)   // inside `append`: these bytes are not in the file yet
    | Written               // `append` returned and the write was counted
    | Settled               // the fsync returned, or none was due

  type Interval = n: nat | n > 0 witness 1

  datatype State = State(
    content: Data,          // the file as a process sees it
    medium: Data,           // the file as it was at the last successful sync
    past: set<Data>,        // history: that file, and the file before each truncation since
    shared: nat,            // history: how much at the front of all these and `content` is the same
    phase: Phase,
    interval: Interval,     // how many writes the worker makes between syncs
    writes: nat,            // writes counted since the worker started
    index: Index,
    log: seq<Record>,       // history: the records of the file, the one being written included
    durable: nat,           // history: how many of them are known to be on the medium
    skipped: set<nat>,      // history: positions whose fsync failed since the worker started
    carried: nat)           // history: recovered records that were not known durable when the worker started
  {
    predicate Busy() {
      phase.Writing? || phase.Written? || phase.Settled?
    }

    predicate Up() {
      phase.Idle? || Busy()
    }

    /** How many records of the log have been answered or were recovered. */
    function Done(): nat {
      if Busy() && log != [] then |log| - 1 else |log|
    }

    /** The part of the log known to be on the medium. */
    function DurableLog(): seq<Record> {
      if durable <= |log| then log[..durable] else log
    }

    /** How many writes of this worker have been answered. */
    function DoneWrites(): nat {
      if (phase.Written? || phase.Settled?) && writes > 0 then writes - 1 else writes
    }
  }

  datatype Step =
    | Recover(interval: Interval)
    | TruncationSynced
    | Begin(r: Record)
    | Write(n: nat)
    | Return
    | SyncOk
    | SyncFailed
    | NotDue
    | Reply
    | Stop(synced: bool)
    | Kill
    | PowerLoss(image: Data)

  /** Nothing happened to the file since it was synced. */
  ghost predicate Synchronous(s: State) {
    s.past == {s.content} && s.shared == |s.content|
  }

  /** What a power loss may leave. Writes and truncations since the last sync reach the disk in order and in part, so
      the image is the front of the file as it is now, as it was synced, or as it was before some truncation since. */
  ghost predicate Survives(s: State, image: Data) {
    s.shared <= |image| && exists f :: IsSelf(s, f) && image <= f
  }

  /** The file now, when it was synced, or before some truncation since. */
  predicate IsSelf(s: State, f: Data) {
    f == s.content || f in s.past
  }

  /** The file as it is now, from the shared front on, may survive at any length. */
  lemma FrontSurvives(s: State, image: Data)
    requires s.shared <= |image| && image <= s.content
    ensures Survives(s, image)
  {
    assert IsSelf(s, s.content);
  }

  /** Without a truncation since the last sync, a power loss may leave anything from the synced file to the present one,
      torn at any byte, and nothing else. */
  lemma SurvivesIff(s: State, image: Data)
    requires s.past == {s.medium} && s.shared == |s.medium| && s.medium <= s.content
    ensures Survives(s, image) <==> s.medium <= image <= s.content
  {
    if s.medium <= image <= s.content {
      FrontSurvives(s, image);
    }
  }

  ghost predicate Enabled(s: State, step: Step)
  {
    match step
    case Recover(_) => s.phase.Down?
    case TruncationSynced => s.phase.Truncating?
    case Begin(r) => s.phase.Idle? && r.Valid()
    case Write(n) => s.phase.Writing? && 0 < n <= |s.phase.rest|
    case Return => s.phase == Writing([])
    case SyncOk => s.phase.Written? && s.writes % s.interval == 0
    case SyncFailed => s.phase.Written? && s.writes % s.interval == 0 && s.log != []
    case NotDue => s.phase.Written? && s.writes % s.interval != 0
    case Reply => s.phase.Settled? && s.log != []
    case Stop(_) => s.phase.Idle?
    case Kill => !s.phase.Down?
    case PowerLoss(image) => Survives(s, image)
  }

  ghost function Next(crc: Checksum, s: State, step: Step): State
    requires Enabled(s, step)
  {
    match step
    case Recover(interval) =>
      var rs := Scan(crc, s.content);
      var valid := TotalSize(rs);
      if valid < |s.content| then
        s.(content := s.content[..valid], past := s.past + {s.content},
           shared := if valid < s.shared then valid else s.shared, phase := Truncating, interval := interval, log := rs)
      else
        var known := if Synchronous(s) || |rs| < s.durable then |rs| else s.durable;
        Started(s.(interval := interval, log := rs, durable := known, carried := |rs| - known))
    case TruncationSynced =>
      Started(Synced(s).(carried := 0))
    case Begin(r) => s.(phase := Writing(Encode(crc, r)), log := s.log + [r])
    case Write(n) => s.(content := s.content + s.phase.rest[..n], phase := Writing(s.phase.rest[n..]))
    case Return => s.(phase := Written, writes := s.writes + 1)
    case SyncOk => Synced(s).(phase := Settled)
    case SyncFailed => s.(phase := Idle, skipped := s.skipped + {|s.log| - 1})
    case NotDue => s.(phase := Settled)
    case Reply => s.(phase := Idle, index := Apply(s.index, s.log[|s.log| - 1]))
    case Stop(synced) =>
      if synced then Synced(s).(phase := Down) else s.(phase := Down)
    case Kill => s.(phase := Down)
    case PowerLoss(image) => Cut(s, image)
  }

  function Cut(s: State, image: Data): State {
    s.(phase := Down, content := image, medium := image, past := {image}, shared := |image|)
  }

  function Synced(s: State): State {
    s.(medium := s.content, past := {s.content}, shared := |s.content|, durable := |s.log|)
  }

  /** The worker starts on a recovered file. */
  function Started(s: State): State {
    s.(phase := Idle, writes := 0, index := Replay(s.log), skipped := {})
  }

  /** Any bytes at all may be found at first. */
  ghost predicate Initial(crc: Checksum, s: State) {
    s.phase.Down? && s.medium == s.content && Synchronous(s) && s.log == Scan(crc, s.content) && s.durable == |s.log|
  }

  ghost predicate Moves(crc: Checksum, s: State, t: State)
  {
    exists step :: Enabled(s, step) && t == Next(crc, s, step)
  }

  ghost predicate Run(crc: Checksum, tr: seq<State>)
  {
    && tr != [] && Initial(crc, tr[0])
    && forall i | 0 <= i < |tr| - 1 :: Moves(crc, tr[i], tr[i + 1])
  }

  // ---------- The invariant ----------

  /** The log without the records at the positions in `skipped`. */
  function Kept(log: seq<Record>, skipped: set<nat>): seq<Record> {
    if log == [] then []
    else
      var n := |log| - 1;
      Kept(log[..n], skipped) + (if n in skipped then [] else [log[n]])
  }

  /** A file and its earlier selves agree up to `shared`, the records in `kept` are there, and no earlier self has more
      records than the file. */
  ghost predicate SelvesAgree(crc: Checksum, content: Data, past: set<Data>, shared: nat, kept: seq<Record>) {
    && shared <= |content| && kept <= Scan(crc, content[..shared])
    && forall f | f in past :: shared <= |f| && f[..shared] == content[..shared] && Scan(crc, f) <= Scan(crc, content)
  }

  ghost predicate PastAgrees(crc: Checksum, s: State) {
    && s.medium in s.past && s.durable <= |s.log|
    && SelvesAgree(crc, s.content, s.past, s.shared, s.log[..s.durable])
  }

  ghost predicate FileAgrees(crc: Checksum, s: State) {
    match s.phase
    case Down => Scan(crc, s.content) <= s.log
    case Writing(rest) => s.content + rest == EncodeAll(crc, s.log) && s.log != []
    case _ => s.content == EncodeAll(crc, s.log)
  }

  ghost predicate Inv(crc: Checksum, s: State) {
    && AllValid(s.log) && PastAgrees(crc, s) && FileAgrees(crc, s)
    && (s.Busy() ==> s.log != [])
    && (s.phase.Written? || s.phase.Settled? ==> s.writes > 0)
    && (s.phase.Settled? ==> s.durable == |s.log| || s.writes % s.interval != 0)
    && (s.Up() ==> IndexAgrees(s) && LossBounded(s))
  }

  /** The index is the replay of every answered record whose fsync did not fail. */
  ghost predicate IndexAgrees(s: State) {
    && s.index == Replay(Kept(s.log[..s.Done()], s.skipped))
    && forall i | i in s.skipped :: i < s.Done()
  }

  ghost predicate LossBounded(s: State)
  {
    s.skipped == {} ==>
      s.Done() <= s.durable + s.DoneWrites() % s.interval + (if s.DoneWrites() < s.interval then s.carried else 0)
  }

  /** The file's own records, whatever the phase, are a prefix of the log. */
  lemma FileRecords(crc: Checksum, s: State)
    requires Inv(crc, s)
    ensures Scan(crc, s.content) <= s.log
  {
    hide ParseOne, Scan, Encode, EncodeAll, IndexAgrees, LossBounded, PastAgrees;
    ScanRoundTrip(crc, s.log);
    if !s.phase.Down? {
      assert s.content <= EncodeAll(crc, s.log);
      ScanMonotone(crc, s.content, EncodeAll(crc, s.log));
    }
  }

  /** Whatever a power loss leaves recovers to a prefix of the log that has every durable record. */
  lemma SurvivorsRecover(crc: Checksum, s: State, image: Data)
    requires Inv(crc, s) && Survives(s, image)
    ensures s.durable <= |s.log| && s.log[..s.durable] <= Scan(crc, image) <= s.log
  {
    hide ParseOne, Scan, Encode, EncodeAll, IndexAgrees, LossBounded, FileAgrees;
    FileRecords(crc, s);
    var f :| IsSelf(s, f) && image <= f;
    assert f[..s.shared] == s.content[..s.shared] <= image;
    ScanMonotone(crc, s.content[..s.shared], image);
    ScanMonotone(crc, image, f);
  }

  lemma InitialInv(crc: Checksum, s: State)
    requires Initial(crc, s)
    ensures Inv(crc, s)
  {
    hide ParseOne, Scan, Encode;
    ScanExact(crc, s.content);
    assert s.log[..s.durable] == s.log && s.content[..s.shared] == s.content;
  }

  lemma SameFront(a: Data, b: Data, m: nat, n: nat)
    requires m <= n <= |a| && n <= |b| && a[..n] == b[..n]
    ensures a[..m] == b[..m]
  {
    assert a[..m] == a[..n][..m];
    assert b[..m] == b[..n][..m];
  }

  /** Cutting the bad tail off keeps the file and its earlier selves in order. */
  lemma CutAgrees(crc: Checksum, content: Data, past: set<Data>, shared: nat, kept: seq<Record>, valid: nat)
    requires SelvesAgree(crc, content, past, shared, kept) && kept <= Scan(crc, content)
    requires valid <= |content| && content[..valid] == EncodeAll(crc, Scan(crc, content))
    requires AllValid(Scan(crc, content))
    ensures SelvesAgree(crc, content[..valid], past + {content}, if valid < shared then valid else shared, kept)
  {
    hide ParseOne, Scan, Encode, EncodeAll;
    ScanRoundTrip(crc, Scan(crc, content));
    var m, front := if valid < shared then valid else shared, content[..valid];
    SameFront(front, content, m, valid);
    forall f | f in past
      ensures |f| >= m && f[..m] == front[..m]
    {
      SameFront(f, content, m, shared);
    }
    if valid < shared {
      assert front[..m] == front;
    }
  }

  lemma TruncatedAgrees(crc: Checksum, s: State, t: State, rs: seq<Record>)
    requires PastAgrees(crc, s) && rs == Scan(crc, s.content) && AllValid(rs)
    requires TotalSize(rs) <= |s.content| && s.content[..TotalSize(rs)] == EncodeAll(crc, rs)
    requires t.content == s.content[..TotalSize(rs)] && t.log == rs
    requires t.medium == s.medium && t.past == s.past + {s.content} && t.durable == s.durable
    requires t.shared == if TotalSize(rs) < s.shared then TotalSize(rs) else s.shared
    requires s.durable <= |s.log| && s.durable <= |rs| && s.log[..s.durable] == rs[..s.durable]
    ensures PastAgrees(crc, t)
  {
    hide SelvesAgree, Scan, EncodeAll, TotalSize;
    CutAgrees(crc, s.content, s.past, s.shared, rs[..s.durable], TotalSize(rs));
  }

  /** The records of the file on recovery. */
  lemma RecoveredRecords(crc: Checksum, s: State)
    requires PastAgrees(crc, s) && FileAgrees(crc, s) && s.phase.Down?
    ensures var rs := Scan(crc, s.content);
            && AllValid(rs) && TotalSize(rs) <= |s.content| && s.content[..TotalSize(rs)] == EncodeAll(crc, rs)
            && s.durable <= |rs| && s.log[..s.durable] == rs[..s.durable]
  {
    hide Scan, EncodeAll, TotalSize;
    ScanExact(crc, s.content);
    EncodeAllSize(crc, Scan(crc, s.content));
    ScanMonotone(crc, s.content[..s.shared], s.content);
  }

  lemma RecoverInv(crc: Checksum, s: State, interval: Interval)
    requires Inv(crc, s) && s.phase.Down?
    ensures Inv(crc, Next(crc, s, Recover(interval)))
    ensures s.durable <= |Scan(crc, s.content)|
  {
    hide Scan, EncodeAll, TotalSize, Replay, Kept, IndexAgrees, LossBounded, Survives, PastAgrees, Synchronous;
    var rs, t := Scan(crc, s.content), Next(crc, s, Recover(interval));
    RecoveredRecords(crc, s);
    DurableFits(crc, s);
    if TotalSize(rs) < |s.content| {
      TruncatedAgrees(crc, s, t, rs);
    } else {
      assert s.content == s.content[..TotalSize(rs)];
      KnownAgrees(crc, s, t, rs);
      StartedAgrees(t);
    }
  }

  /** A recovery that cuts nothing may know all its records durable when nothing happened since the last sync. */
  lemma KnownAgrees(crc: Checksum, s: State, t: State, rs: seq<Record>)
    requires PastAgrees(crc, s) && rs == Scan(crc, s.content)
    requires s.durable <= |s.log| && s.durable <= |rs| && s.log[..s.durable] == rs[..s.durable]
    requires t.content == s.content && t.medium == s.medium && t.past == s.past && t.shared == s.shared && t.log == rs
    requires t.durable == s.durable || (t.durable == |rs| && Synchronous(s))
    ensures PastAgrees(crc, t)
  {
    hide Scan;
    assert rs[..|rs|] == rs && s.content[..|s.content|] == s.content;
  }

  lemma StartedAgrees(s: State)
    requires s.phase.Idle? && s.writes == 0 && s.skipped == {} && s.index == Replay(s.log)
    requires |s.log| <= s.durable + s.carried
    ensures IndexAgrees(s) && LossBounded(s)
  {
    hide Replay, Kept;
    KeptAll(s.log, {});
    assert s.log[..|s.log|] == s.log;
  }

  lemma {:induction false} KeptAll(log: seq<Record>, skipped: set<nat>)
    requires forall i | i in skipped :: i >= |log|
    ensures Kept(log, skipped) == log
  {
    if log != [] {
      var n := |log| - 1;
      KeptAll(log[..n], skipped);
      assert log == log[..n] + [log[n]];
    }
  }

  lemma {:induction false} KeptSame(log: seq<Record>, a: set<nat>, b: set<nat>)
    requires forall i | 0 <= i < |log| :: i in a <==> i in b
    ensures Kept(log, a) == Kept(log, b)
  {
    if log != [] {
      KeptSame(log[..|log| - 1], a, b);
    }
  }

  lemma KeptSkipLast(log: seq<Record>, skipped: set<nat>)
    requires log != []
    ensures Kept(log, skipped + {|log| - 1}) == Kept(log[..|log| - 1], skipped)
  {
    KeptSame(log[..|log| - 1], skipped, skipped + {|log| - 1});
  }

  lemma SyncedAgrees(crc: Checksum, s: State)
    requires s.content == EncodeAll(crc, s.log) && AllValid(s.log)
    ensures PastAgrees(crc, Synced(s))
  {
    hide Scan, EncodeAll;
    ScanRoundTrip(crc, s.log);
    assert s.log[..|s.log|] == s.log && s.content[..|s.content|] == s.content;
  }

  lemma TruncationSyncedInv(crc: Checksum, s: State)
    requires Inv(crc, s) && s.phase.Truncating?
    ensures Inv(crc, Next(crc, s, TruncationSynced))
  {
    hide Scan, EncodeAll, Replay, Kept, IndexAgrees, LossBounded, PastAgrees;
    SyncedAgrees(crc, s);
    StartedAgrees(Next(crc, s, TruncationSynced));
    SamePast(crc, Synced(s), Next(crc, s, TruncationSynced));
  }

  lemma SamePast(crc: Checksum, s: State, t: State)
    requires PastAgrees(crc, s)
    requires t.content == s.content && t.medium == s.medium && t.past == s.past && t.shared == s.shared
    requires t.durable == s.durable && s.log <= t.log
    ensures PastAgrees(crc, t)
  {
    hide Scan;
    assert t.log[..s.durable] == s.log[..s.durable];
  }

  /** More bytes behind the file change nothing about its earlier selves. */
  lemma GrownAgrees(crc: Checksum, s: State, t: State)
    requires PastAgrees(crc, s)
    requires s.content <= t.content && t.medium == s.medium && t.past == s.past && t.shared == s.shared
    requires t.durable == s.durable && t.log == s.log
    ensures PastAgrees(crc, t)
  {
    hide Scan;
    ScanMonotone(crc, s.content, t.content);
    assert t.content[..s.shared] == s.content[..s.shared];
  }

  lemma BeginInv(crc: Checksum, s: State, r: Record)
    requires Inv(crc, s) && s.phase.Idle? && r.Valid()
    ensures Inv(crc, Next(crc, s, Begin(r)))
  {
    hide ParseOne, Scan, Encode, EncodeAll, Replay, PastAgrees;
    SamePast(crc, s, Next(crc, s, Begin(r)));
    EncodeAllSnoc(crc, s.log, r);
    DurableFits(crc, s);
    assert (s.log + [r])[..|s.log|] == s.log[..|s.log|];
  }

  lemma DurableFits(crc: Checksum, s: State)
    requires PastAgrees(crc, s)
    ensures s.durable <= |s.log|
  {
  }

  lemma AppendingInv(crc: Checksum, s: State, step: Step)
    requires Inv(crc, s) && Enabled(s, step)
    requires step.Write? || step.Return? || step.NotDue?
    ensures Inv(crc, Next(crc, s, step))
  {
    hide ParseOne, Scan, Encode, EncodeAll, Replay, Kept, PastAgrees;
    GrownAgrees(crc, s, Next(crc, s, step));
    if step.Write? {
      assert s.phase.rest == s.phase.rest[..step.n] + s.phase.rest[step.n..];
    } else if step.Return? {
      assert s.content + [] == s.content;
    }
  }

  lemma SyncOkInv(crc: Checksum, s: State)
    requires Inv(crc, s) && Enabled(s, SyncOk)
    ensures Inv(crc, Next(crc, s, SyncOk))
  {
    hide ParseOne, Scan, Encode, EncodeAll, Replay, Kept, PastAgrees;
    SyncedAgrees(crc, s);
    SamePast(crc, Synced(s), Next(crc, s, SyncOk));
    assert s.log[..|s.log|] == s.log;
  }

  lemma SyncFailedInv(crc: Checksum, s: State)
    requires Inv(crc, s) && Enabled(s, SyncFailed)
    ensures Inv(crc, Next(crc, s, SyncFailed))
  {
    hide ParseOne, Scan, Encode, EncodeAll, Replay, Kept, PastAgrees;
    var n := |s.log| - 1;
    SamePast(crc, s, Next(crc, s, SyncFailed));
    KeptSkipLast(s.log, s.skipped);
    assert s.log[..|s.log|] == s.log && n in s.skipped + {n};
  }

  lemma ReplyInv(crc: Checksum, s: State)
    requires Inv(crc, s) && Enabled(s, Reply)
    ensures Inv(crc, Next(crc, s, Reply))
  {
    hide ParseOne, Scan, Encode, EncodeAll, Replay, PastAgrees;
    var n := |s.log| - 1;
    SamePast(crc, s, Next(crc, s, Reply));
    assert s.log[..|s.log|] == s.log;
    assert n !in s.skipped;
    ReplaySnoc(Kept(s.log[..n], s.skipped), s.log[n]);
    if s.writes % s.interval != 0 {
      NextTurn(s.writes, s.interval);
    }
  }

  /** One more answered write either reaches the next fsync or adds one to the unsynced ones. */
  lemma NextTurn(writes: nat, interval: nat)
    requires interval > 0 && writes > 0 && writes % interval != 0
    ensures writes % interval == (writes - 1) % interval + 1 && writes != interval
  {
    var q, m := writes / interval, writes % interval;
    assert writes - 1 == q * interval + (m - 1);
    Remainder(writes - 1, q, m - 1, interval);
    if writes == interval {
      Remainder(writes, 1, 0, interval);
    }
  }

  lemma Remainder(n: nat, q: nat, r: nat, d: nat)
    requires n == q * d + r && r < d
    ensures n % d == r
  {
    var e := n / d - q;
    assert n % d - r == -(e * d);
    Multiple(e, d);
  }

  lemma Multiple(e: int, d: nat)
    ensures e >= 1 ==> e * d >= d
    ensures e <= -1 ==> e * d <= 0 - d
  {
  }

  lemma StopInv(crc: Checksum, s: State, step: Step)
    requires Inv(crc, s) && Enabled(s, step) && (step.Stop? || step.Kill?)
    ensures Inv(crc, Next(crc, s, step))
  {
    hide ParseOne, Scan, Encode, EncodeAll, Replay, Kept, PastAgrees;
    FileRecords(crc, s);
    if step == Stop(true) {
      SyncedAgrees(crc, s);
      SamePast(crc, Synced(s), Next(crc, s, step));
    } else {
      SamePast(crc, s, Next(crc, s, step));
    }
  }

  lemma PowerLossInv(crc: Checksum, s: State, image: Data)
    requires Inv(crc, s)
    requires s.log[..s.durable] <= Scan(crc, image) <= s.log
    ensures Inv(crc, Cut(s, image))
  {
    hide Inv, Scan;
    LogSane(crc, s);
    DownInv(crc, Cut(s, image));
  }

  lemma LogSane(crc: Checksum, s: State)
    requires Inv(crc, s)
    ensures AllValid(s.log) && s.durable <= |s.log|
  {
  }

  lemma DownInv(crc: Checksum, s: State)
    requires s.phase.Down? && s.medium == s.content && Synchronous(s) && AllValid(s.log) && s.durable <= |s.log|
    requires s.log[..s.durable] <= Scan(crc, s.content) <= s.log
    ensures Inv(crc, s)
  {
    hide Scan;
    assert s.content[..s.shared] == s.content;
  }

  lemma StepInv(crc: Checksum, s: State, step: Step)
    requires Inv(crc, s) && Enabled(s, step)
    ensures Inv(crc, Next(crc, s, step))
  {
    hide Inv, Scan, Survives;
    match step
    case Recover(interval) => RecoverInv(crc, s, interval);
    case TruncationSynced => TruncationSyncedInv(crc, s);
    case Begin(r) => BeginInv(crc, s, r);
    case SyncOk => SyncOkInv(crc, s);
    case SyncFailed => SyncFailedInv(crc, s);
    case Reply => ReplyInv(crc, s);
    case Stop(_) => StopInv(crc, s, step);
    case Kill => StopInv(crc, s, step);
    case PowerLoss(image) =>
      SurvivorsRecover(crc, s, image);
      PowerLossInv(crc, s, image);
    case _ => AppendingInv(crc, s, step);
  }

  // ---------- Whole runs ----------

  lemma {:induction false} RunInv(crc: Checksum, tr: seq<State>, i: nat)
    requires Run(crc, tr) && i < |tr|
    ensures Inv(crc, tr[i])
  {
    hide Inv, Next, Enabled, Initial;
    if i == 0 {
      InitialInv(crc, tr[0]);
    } else {
      RunInv(crc, tr, i - 1);
      assert Moves(crc, tr[i - 1], tr[i - 1 + 1]);
      var step :| Enabled(tr[i - 1], step) && tr[i] == Next(crc, tr[i - 1], step);
      StepInv(crc, tr[i - 1], step);
    }
  }

  lemma RecoverFinds(crc: Checksum, s: State, interval: Interval)
    requires Inv(crc, s) && s.phase.Down?
    ensures var t := Next(crc, s, Recover(interval));
            && s.DurableLog() <= t.log <= s.log && t.content == EncodeAll(crc, t.log)
            && (t.phase.Idle? ==> t.index == Replay(t.log))
  {
    hide ParseOne, Scan, Encode, EncodeAll, Replay, IndexAgrees, LossBounded;
    ScanExact(crc, s.content);
    EncodeAllSize(crc, Scan(crc, s.content));
    ScanMonotone(crc, s.content[..s.shared], s.content);
  }

  /** Every recovery of every run: the recovered list is a prefix of the log before the crash, has every record
      some fsync made durable, and the index is its replay. */
  lemma RecoveryKeepsDurable(crc: Checksum, tr: seq<State>, i: nat, interval: Interval)
    requires Run(crc, tr) && i < |tr| && tr[i].phase.Down?
    ensures var t := Next(crc, tr[i], Recover(interval));
            && tr[i].DurableLog() <= t.log <= tr[i].log && t.content == EncodeAll(crc, t.log)
            && (t.phase.Idle? ==> t.index == Replay(t.log))
  {
    hide Inv, Next, Run;
    RunInv(crc, tr, i);
    RecoverFinds(crc, tr[i], interval);
  }

  /** A run may start from any bytes at all. */
  lemma AnyFileStarts(crc: Checksum, bytes: Data) returns (s: State)
    ensures Initial(crc, s) && s.content == bytes && Run(crc, [s])
  {
    hide Scan;
    var rs := Scan(crc, bytes);
    s := State(bytes, bytes, {bytes}, |bytes|, Down, 1, 0, map[], rs, |rs|, {}, 0);
  }

  /** Nothing is ruled out: a file without an owner can be recovered at any interval, an idle worker takes any valid
      record or stops, a write goes on, a due sync may succeed or fail, and whatever the phase a process can be killed
      and the power can fail, leaving the file as it is or as it was synced. */
  lemma AnythingHappens(crc: Checksum, s: State, interval: Interval, r: Record)
    requires Inv(crc, s) && r.Valid()
    ensures !s.phase.Down? ==> Enabled(s, Kill)
    ensures Enabled(s, PowerLoss(s.content)) && Enabled(s, PowerLoss(s.medium))
    ensures s.phase.Down? ==> Enabled(s, Recover(interval))
    ensures s.phase.Truncating? ==> Enabled(s, TruncationSynced)
    ensures s.phase.Idle? ==> Enabled(s, Begin(r)) && Enabled(s, Stop(true)) && Enabled(s, Stop(false))
    ensures s.phase.Writing? ==> Enabled(s, Return) || Enabled(s, Write(1))
    ensures s.phase.Written? ==> (Enabled(s, SyncOk) && Enabled(s, SyncFailed)) || Enabled(s, NotDue)
    ensures s.phase.Settled? ==> Enabled(s, Reply)
  {
    hide PastAgrees, FileAgrees, Survives, IndexAgrees, LossBounded;
    SelvesSurvive(crc, s);
  }

  lemma SelvesSurvive(crc: Checksum, s: State)
    requires PastAgrees(crc, s)
    ensures Survives(s, s.content) && Survives(s, s.medium)
  {
    hide Scan;
    FrontSurvives(s, s.content);
    assert IsSelf(s, s.medium);
  }

  /** A successful sync makes every record of the log durable, whatever happened before. */
  lemma SyncMakesDurable(crc: Checksum, s: State, step: Step)
    requires Enabled(s, step) && (step.SyncOk? || step == Stop(true) || step.TruncationSynced?)
    ensures Next(crc, s, step).DurableLog() == s.log
  {
  }

  lemma StepKeepsDurable(crc: Checksum, s: State, step: Step)
    requires Inv(crc, s) && Enabled(s, step)
    ensures var t := Next(crc, s, step); s.DurableLog() <= t.DurableLog()
  {
    hide ParseOne, Scan, Encode, EncodeAll, Replay, IndexAgrees, LossBounded, Survives;
    if step.Recover? {
      RecoverInv(crc, s, step.interval);
      ScanMonotone(crc, s.content[..s.shared], s.content);
    }
  }

  /** A record some fsync made durable is in the log for ever, through any number of crashes. */
  lemma {:induction false} DurableForever(crc: Checksum, tr: seq<State>, i: nat, j: nat)
    requires Run(crc, tr) && i <= j < |tr|
    ensures tr[i].DurableLog() <= tr[j].DurableLog() <= tr[j].log
    decreases j
  {
    hide Inv, Next, Enabled, Initial;
    if i < j {
      var s := tr[j - 1];
      DurableForever(crc, tr, i, j - 1);
      RunInv(crc, tr, j - 1);
      assert Moves(crc, s, tr[j - 1 + 1]);
      var step :| Enabled(s, step) && tr[j] == Next(crc, s, step);
      StepKeepsDurable(crc, s, step);
    }
  }

  /** A power loss of a worker without failed fsync discards fewer answered writes than the interval (plus what
      it found unsynced when it started), and leaves at most one write that was not answered. */
  lemma BoundedLoss(crc: Checksum, tr: seq<State>, i: nat, image: Data)
    requires Run(crc, tr) && i < |tr|
    requires tr[i].Up() && tr[i].skipped == {} && Survives(tr[i], image)
    ensures var s, kept := tr[i], Scan(crc, image);
            && kept <= s.log
            && s.Done() < |kept| + s.interval + s.carried
            && (s.carried == 0 && s.interval == 1 ==> s.log[..s.Done()] <= kept)
            && |kept| <= s.Done() + 1
  {
    hide ParseOne, Scan, Encode, EncodeAll, Replay, PastAgrees, FileAgrees, Survives;
    RunInv(crc, tr, i);
    SurvivorsRecover(crc, tr[i], image);
  }

  /** Steps of a run whose only accidents are power losses. */
  ghost predicate PowerOnly(step: Step) {
    !step.Kill? && step != Stop(false) && !step.SyncFailed?
  }

  ghost predicate PowerOnlyRun(crc: Checksum, tr: seq<State>)
  {
    && tr != [] && Initial(crc, tr[0])
    && forall i | 0 <= i < |tr| - 1 :: PowerOnlyMoves(crc, tr[i], tr[i + 1])
  }

  ghost predicate PowerOnlyMoves(crc: Checksum, s: State, t: State)
  {
    exists step :: PowerOnly(step) && Enabled(s, step) && t == Next(crc, s, step)
  }

  /** Nothing is left unsynced behind a worker's back. */
  ghost predicate Clean(s: State) {
    (s.phase.Down? ==> Synchronous(s)) && (s.Up() ==> s.carried == 0 && s.skipped == {})
  }

  lemma StepClean(crc: Checksum, s: State, step: Step)
    requires Clean(s) && PowerOnly(step) && Enabled(s, step)
    ensures Clean(Next(crc, s, step))
  {
    hide Scan, TotalSize, Survives, Replay, Encode, Apply;
  }

  lemma {:induction false} PowerOnlyRunClean(crc: Checksum, tr: seq<State>, i: nat)
    requires PowerOnlyRun(crc, tr) && i < |tr|
    ensures Clean(tr[i])
  {
    hide Next, Enabled, Scan, Clean;
    if i == 0 {
      InitialClean(crc, tr[0]);
    } else {
      PowerOnlyRunClean(crc, tr, i - 1);
      assert PowerOnlyMoves(crc, tr[i - 1], tr[i - 1 + 1]);
      var step :| PowerOnly(step) && Enabled(tr[i - 1], step) && tr[i] == Next(crc, tr[i - 1], step);
      StepClean(crc, tr[i - 1], step);
    }
  }

  lemma InitialClean(crc: Checksum, s: State)
    requires Initial(crc, s)
    ensures Clean(s)
  {
  }

  /** When power losses are the only accidents, each discards fewer answered writes than the interval; with an
      interval of 1 none at all. */
  lemma PowerLossBounded(crc: Checksum, tr: seq<State>, i: nat, image: Data)
    requires PowerOnlyRun(crc, tr) && i < |tr| && tr[i].Up() && Survives(tr[i], image)
    ensures var s, kept := tr[i], Scan(crc, image);
            && kept <= s.log && s.Done() < |kept| + s.interval && |kept| <= s.Done() + 1
            && (s.interval == 1 ==> s.log[..s.Done()] <= kept)
  {
    hide Inv, Next, Enabled, Initial, Scan, Survives;
    forall j | 0 <= j < |tr| - 1
      ensures Moves(crc, tr[j], tr[j + 1])
    {
      assert PowerOnlyMoves(crc, tr[j], tr[j + 1]);
    }
    PowerOnlyRunClean(crc, tr, i);
    BoundedLoss(crc, tr, i, image);
  }

  /** Index and log in every state of every run; exact equality is lost only through failed fsyncs. */
  lemma IndexIsReplay(crc: Checksum, tr: seq<State>, i: nat)
    requires Run(crc, tr) && i < |tr| && tr[i].Up()
    ensures var s := tr[i]; s.index == Replay(Kept(s.log[..s.Done()], s.skipped))
    ensures tr[i].phase.Idle? && tr[i].skipped == {} ==> tr[i].index == Replay(Scan(crc, tr[i].content))
  {
    hide ParseOne, Scan, Encode, EncodeAll, Replay;
    RunInv(crc, tr, i);
    var s := tr[i];
    ScanRoundTrip(crc, s.log);
    if s.skipped == {} {
      KeptAll(s.log[..s.Done()], {});
      assert s.log[..|s.log|] == s.log;
    }
  }

  // ---------- After a failed fsync ----------

  /** What the records leave `key` with: its last record decides. */
  function Outcome(rs: seq<Record>, key: Data): Option<Data> {
    if rs == [] then None
    else
      var r := rs[|rs| - 1];
      if r.key != key then Outcome(rs[..|rs| - 1], key) else if r.Set? then Some(r.value) else None
  }

  function Lookup(m: Index, key: Data): Option<Data> {
    if key in m then Some(m[key]) else None
  }

  lemma {:induction false} OutcomeIsReplay(rs: seq<Record>, key: Data)
    ensures Outcome(rs, key) == Lookup(Replay(rs), key)
  {
    if rs != [] {
      var front, r := rs[..|rs| - 1], rs[|rs| - 1];
      assert rs == front + [r];
      OutcomeIsReplay(front, key);
      ReplaySnoc(front, r);
    }
  }

  /** The last record on `key` is one whose fsync failed, and it would have left the key with something else than the
      kept records before it do. */
  predicate StaleAt(log: seq<Record>, skipped: set<nat>, key: Data, i: nat) {
    && i < |log| && i in skipped && log[i].key == key && (forall j | i < j < |log| :: log[j].key != key)
    && Outcome([log[i]], key) != Outcome(Kept(log[..i], skipped), key)
  }

  ghost predicate Stale(log: seq<Record>, skipped: set<nat>, key: Data) {
    exists i :: StaleAt(log, skipped, key, i)
  }

  lemma OutcomeSnoc(rs: seq<Record>, r: Record, key: Data)
    ensures Outcome(rs + [r], key) == if r.key == key then Outcome([r], key) else Outcome(rs, key)
  {
    assert (rs + [r])[..|rs|] == rs && [r][..0] == [];
  }

  lemma KeptSnoc(log: seq<Record>, r: Record, skipped: set<nat>)
    ensures Kept(log + [r], skipped) == Kept(log, skipped) + if |log| in skipped then [] else [r]
  {
    assert (log + [r])[..|log|] == log;
  }

  lemma StaleSnoc(log: seq<Record>, r: Record, skipped: set<nat>, key: Data)
    ensures Stale(log + [r], skipped, key) <==>
              if r.key != key then Stale(log, skipped, key)
              else |log| in skipped && Outcome([r], key) != Outcome(Kept(log, skipped), key)
  {
    hide Outcome, Kept;
    var all := log + [r];
    assert all[..|log|] == log;
    assert StaleAt(all, skipped, key, |log|) <==>
             |log| in skipped && r.key == key && Outcome([r], key) != Outcome(Kept(log, skipped), key);
    forall i: nat | i < |log|
      ensures StaleAt(all, skipped, key, i) <==> r.key != key && StaleAt(log, skipped, key, i)
    {
      assert all[..i] == log[..i] && all[i] == log[i] && all[|log|] == r;
      assert forall j | i < j < |log| :: all[j] == log[j];
    }
    if Stale(log, skipped, key) && r.key != key {
      var i :| StaleAt(log, skipped, key, i);
      assert StaleAt(all, skipped, key, i);
    }
  }

  lemma {:induction false} KeptOutcome(log: seq<Record>, skipped: set<nat>, key: Data)
    ensures Outcome(Kept(log, skipped), key) == Outcome(log, key) <==> !Stale(log, skipped, key)
  {
    if log != [] {
      hide Outcome, Kept, Stale;
      var n := |log| - 1;
      var front, r := log[..n], log[n];
      assert log == front + [r];
      KeptOutcome(front, skipped, key);
      OutcomeSnoc(front, r, key);
      OutcomeSnoc(Kept(front, skipped), r, key);
      KeptSnoc(front, r, skipped);
      StaleSnoc(front, r, skipped, key);
      assert Kept(front, skipped) + [] == Kept(front, skipped);
    }
  }

  /** In every state of every run, the index is the replay of all answered records if and only if no key is stale. */
  lemma IndexIsReplayIff(crc: Checksum, tr: seq<State>, i: nat)
    requires Run(crc, tr) && i < |tr| && tr[i].Up()
    ensures var s, done := tr[i], tr[i].log[..tr[i].Done()];
            s.index == Replay(done) <==> forall key :: !Stale(done, s.skipped, key)
  {
    hide Run, Replay, Stale, Outcome, Kept;
    IndexIsReplay(crc, tr, i);
    var s, done := tr[i], tr[i].log[..tr[i].Done()];
    forall key
      ensures Lookup(s.index, key) == Lookup(Replay(done), key) <==> !Stale(done, s.skipped, key)
    {
      OutcomeIsReplay(Kept(done, s.skipped), key);
      OutcomeIsReplay(done, key);
      KeptOutcome(done, s.skipped, key);
    }
    SameLookups(s.index, Replay(done));
  }

  lemma SameLookups(a: Index, b: Index)
    ensures a == b <==> forall key :: Lookup(a, key) == Lookup(b, key)
  {
    if forall key :: Lookup(a, key) == Lookup(b, key) {
      assert forall key :: (key in a <==> key in b) by {
        forall key
          ensures key in a <==> key in b
        {
          assert Lookup(a, key) == Lookup(b, key);
        }
      }
      forall key | key in a
        ensures a[key] == b[key]
      {
        assert Lookup(a, key) == Lookup(b, key);
      }
    }
  }
}
