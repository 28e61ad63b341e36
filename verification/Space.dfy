/** Sizes of an index, and how they relate to the file it was replayed from. */
module Space {
  import opened Bytes
  import opened Log
  import opened Crash

  ghost function Sum(keys: set<Data>, f: Data -> nat): nat {
    if keys == {} then 0
    else
      var k :| k in keys;
      f(k) + Sum(keys - {k}, f)
  }

  lemma {:induction false} SumSplit(keys: set<Data>, k: Data, f: Data -> nat)
    requires k in keys
    ensures Sum(keys, f) == f(k) + Sum(keys - {k}, f)
  {
    var c :| c in keys && Sum(keys, f) == f(c) + Sum(keys - {c}, f);
    if c != k {
      SumSplit(keys - {c}, k, f);
      SumSplit(keys - {k}, c, f);
      assert keys - {c} - {k} == keys - {k} - {c};
    }
  }

  lemma {:induction false} SumSame(keys: set<Data>, f: Data -> nat, g: Data -> nat)
    requires forall k | k in keys :: f(k) == g(k)
    ensures Sum(keys, f) == Sum(keys, g)
  {
    if keys != {} {
      var k :| k in keys;
      SumSplit(keys, k, f);
      SumSplit(keys, k, g);
      SumSame(keys - {k}, f, g);
    }
  }

  function EntrySize(m: Index): Data -> nat {
    k => if k in m then |k| + |m[k]| else 0
  }

  function KeySize(): Data -> nat {
    k => |k|
  }

  /** Bytes of all live keys and values, and of all live keys. */
  ghost function LiveBytes(m: Index): nat {
    Sum(m.Keys, EntrySize(m))
  }

  ghost function KeyBytes(m: Index): nat {
    Sum(m.Keys, KeySize())
  }

  /** What the live entries would take as records. */
  ghost function LiveSize(m: Index): nat {
    LiveBytes(m) + 13 * |m|
  }

  lemma LiveWithout(m: Index, k: Data)
    requires k in m
    ensures LiveSize(m) == 13 + |k| + |m[k]| + LiveSize(m - {k})
  {
    SumSplit(m.Keys, k, EntrySize(m));
    assert (m - {k}).Keys == m.Keys - {k};
    SumSame(m.Keys - {k}, EntrySize(m), EntrySize(m - {k}));
    assert |(m - {k}).Keys| == |m.Keys| - 1;
  }

  lemma ApplySize(m: Index, r: Record)
    ensures LiveSize(Apply(m, r)) <= LiveSize(m) + r.Size()
  {
    hide LiveSize;
    if r.key in m {
      LiveWithout(m, r.key);
    } else {
      assert m - {r.key} == m;
    }
    if r.Set? {
      var n := Apply(m, r);
      LiveWithout(n, r.key);
      assert n - {r.key} == m - {r.key};
    }
  }

  lemma {:induction false} ReplaySize(m: Index, rs: seq<Record>)
    ensures LiveSize(ReplayFrom(m, rs)) <= LiveSize(m) + TotalSize(rs)
    decreases |rs|
  {
    hide LiveSize, Apply;
    if rs != [] {
      ApplySize(m, rs[0]);
      ReplaySize(Apply(m, rs[0]), rs[1..]);
    }
  }

  lemma {:induction false} TotalSizeAppend(a: seq<Record>, b: seq<Record>)
    ensures TotalSize(a + b) == TotalSize(a) + TotalSize(b)
  {
    if a == [] {
      assert a + b == b;
    } else {
      assert (a + b)[1..] == a[1..] + b;
      TotalSizeAppend(a[1..], b);
    }
  }

  lemma NoSize()
    ensures TotalSize([]) == 0
  {
  }

  lemma {:induction false} KeptSize(log: seq<Record>, skipped: set<nat>)
    ensures TotalSize(Kept(log, skipped)) <= TotalSize(log)
  {
    hide TotalSize;
    NoSize();
    if log != [] {
      var n := |log| - 1;
      KeptSize(log[..n], skipped);
      assert log == log[..n] + [log[n]];
      TotalSizeAppend(log[..n], [log[n]]);
      TotalSizeAppend(Kept(log[..n], skipped), [log[n]]);
      TotalSizeAppend(Kept(log[..n], skipped), []);
    }
  }

  /** Whenever a worker serves a query, its live entries take no more room than the file has, failed fsyncs or not. */
  lemma LiveFitsFile(crc: Checksum, tr: seq<State>, i: nat)
    requires Run(crc, tr) && i < |tr| && tr[i].phase.Idle?
    ensures LiveSize(tr[i].index) <= |tr[i].content|
  {
    hide Run, Encode, Scan, Replay, LiveSize, TotalSize, LossBounded;
    RunInv(crc, tr, i);
    var s := tr[i];
    assert s.log[..|s.log|] == s.log;
    EncodeAllSize(crc, s.log);
    ReplayFits(Kept(s.log, s.skipped));
    KeptSize(s.log, s.skipped);
  }

  lemma ReplayFits(rs: seq<Record>)
    ensures LiveSize(Replay(rs)) <= TotalSize(rs)
  {
    ReplaySize(map[], rs);
    assert LiveSize(map[]) == 0;
  }

  // ---------- What `Info` reports ----------

  datatype InfoPacket = InfoPacket(
    sizeOnDisk: u32, sizeInMemory: u32, minKeySize: u32, meanKeySize: u32, maxKeySize: u32, keyCount: u32)

  /** The largest 32-bit number that is not above `n`. */
  function Saturate(n: nat): (k: u32)
    ensures k <= n && (k == n || k == U32_LIMIT - 1)
  {
    if n < U32_LIMIT then n else U32_LIMIT - 1
  }

  /** The key statistics are exact while there are fewer than 2^32 keys, each shorter than 2^32 bytes. */
  ghost predicate InfoIsExact(m: Index, fileLen: nat, p: InfoPacket) {
    && p.sizeOnDisk == Saturate(fileLen) && p.sizeInMemory == Saturate(LiveBytes(m))
    && (m == map[] ==> p.minKeySize == p.meanKeySize == p.maxKeySize == p.keyCount == 0)
    && (m != map[] && |m| < U32_LIMIT && (forall k | k in m :: |k| < U32_LIMIT) ==>
          && p.keyCount == |m|
          && (forall k | k in m :: p.minKeySize <= |k| <= p.maxKeySize)
          && (exists k :: k in m && |k| == p.minKeySize) && (exists k :: k in m && |k| == p.maxKeySize)
          && p.meanKeySize == KeyBytes(m) / |m|)
  }

  /** The mean lies between the extremes, and memory never seems to need more than the disk. */
  lemma InfoIsSane(m: Index, fileLen: nat, p: InfoPacket)
    requires InfoIsExact(m, fileLen, p) && LiveSize(m) <= fileLen
    ensures p.sizeInMemory <= p.sizeOnDisk
    ensures |m| < U32_LIMIT && (forall k | k in m :: |k| < U32_LIMIT) ==> p.minKeySize <= p.meanKeySize <= p.maxKeySize
  {
    if m != map[] && |m| < U32_LIMIT && (forall k | k in m :: |k| < U32_LIMIT) {
      SumBetween(m.Keys, KeySize(), p.minKeySize, p.maxKeySize);
      MeanBetween(KeyBytes(m), |m|, p.minKeySize, p.maxKeySize);
    }
  }

  lemma {:induction false} SumBetween(keys: set<Data>, f: Data -> nat, lo: nat, hi: nat)
    requires forall k | k in keys :: lo <= f(k) <= hi
    ensures |keys| * lo <= Sum(keys, f) <= |keys| * hi
  {
    if keys != {} {
      hide Sum;
      var k :| k in keys;
      SumSplit(keys, k, f);
      SumBetween(keys - {k}, f, lo, hi);
      OneMore(|keys - {k}|, lo, hi, Sum(keys - {k}, f), f(k));
    }
  }

  lemma OneMore(n: nat, lo: nat, hi: nat, sum: nat, v: nat)
    requires n * lo <= sum <= n * hi && lo <= v <= hi
    ensures (n + 1) * lo <= sum + v <= (n + 1) * hi
  {
    assert (n + 1) * lo == n * lo + lo && (n + 1) * hi == n * hi + hi;
  }

  lemma MeanBetween(sum: nat, n: nat, lo: nat, hi: nat)
    requires n > 0 && n * lo <= sum <= n * hi
    ensures lo <= sum / n <= hi
  {
    var q := sum / n;
    assert sum == q * n + sum % n;
    Grows(q + 1, lo, n);
    Grows(hi + 1, q, n);
  }

  lemma Grows(a: nat, b: nat, n: nat)
    ensures a <= b ==> a * n <= b * n
    ensures (a + 1) * n == a * n + n
  {
  }

  // ---------- The two passes over the live entries ----------

  const USIZE_MAX := 0xFFFF_FFFF_FFFF_FFFF

  ghost predicate Extremes(keys: set<Data>, shortest: nat, longest: nat) {
    && (forall k | k in keys :: shortest <= |k| <= longest)
    && (keys != {} ==> (exists k :: k in keys && |k| == shortest) && (exists k :: k in keys && |k| == longest))
  }

  lemma ExtremesMore(keys: set<Data>, k: Data, shortest: nat, longest: nat)
    requires Extremes(keys, shortest, longest) && |k| <= USIZE_MAX
    requires keys == {} ==> shortest == USIZE_MAX && longest == 0
    ensures Extremes(keys + {k}, if |k| < shortest then |k| else shortest, if |k| > longest then |k| else longest)
  {
    var more := keys + {k};
    assert k in more;
    if keys != {} {
      var a :| a in keys && |a| == shortest;
      var b :| b in keys && |b| == longest;
      assert a in more && b in more;
    }
  }

  method EntryBytes(m: Index) returns (bytes: nat)
    ensures bytes == LiveBytes(m)
  {
    hide EntrySize, Sum;
    var rest := m.Keys;
    bytes := 0;
    assert Sum({}, EntrySize(m)) == 0 by {
      SumEmpty(EntrySize(m));
    }
    while rest != {}
      invariant rest <= m.Keys && bytes + Sum(rest, EntrySize(m)) == LiveBytes(m)
    {
      var k :| k in rest;
      SumSplit(rest, k, EntrySize(m));
      EntrySizeAt(m, k);
      bytes := bytes + |k| + |m[k]|;
      rest := rest - {k};
    }
  }

  lemma SumEmpty(f: Data -> nat)
    ensures Sum({}, f) == 0
  {
  }

  lemma EntrySizeAt(m: Index, k: Data)
    requires k in m
    ensures EntrySize(m)(k) == |k| + |m[k]|
  {
  }

  method KeyLengths(m: Index) returns (shortest: nat, longest: nat, total: nat)
    requires forall k | k in m :: |k| <= USIZE_MAX
    ensures Extremes(m.Keys, shortest, longest) && total == KeyBytes(m)
  {
    hide Sum, Extremes;
    var rest := m.Keys;
    shortest, longest, total := USIZE_MAX, 0, 0;
    SumEmpty(KeySize());
    NoExtremes(USIZE_MAX, 0);
    assert m.Keys - rest == {};
    while rest != {}
      invariant rest <= m.Keys && total + Sum(rest, KeySize()) == KeyBytes(m)
      invariant Extremes(m.Keys - rest, shortest, longest)
      invariant m.Keys - rest == {} ==> shortest == USIZE_MAX && longest == 0
    {
      var k :| k in rest;
      SumSplit(rest, k, KeySize());
      ExtremesMore(m.Keys - rest, k, shortest, longest);
      assert m.Keys - (rest - {k}) == m.Keys - rest + {k};
      shortest := if |k| < shortest then |k| else shortest;
      longest := if |k| > longest then |k| else longest;
      total := total + |k|;
      rest := rest - {k};
    }
    assert m.Keys - {} == m.Keys;
  }

  lemma NoExtremes(shortest: nat, longest: nat)
    ensures Extremes({}, shortest, longest)
  {
  }

  lemma NoTruncation(n: nat)
    ensures n < U32_LIMIT ==> AsU32(n) == n
  {
  }

  lemma ReportIsExact(m: Index, fileLen: nat, shortest: nat, longest: nat, total: nat, p: InfoPacket)
    requires Extremes(m.Keys, shortest, longest) && total == KeyBytes(m)
    requires p.sizeOnDisk == Saturate(fileLen) && p.sizeInMemory == Saturate(LiveBytes(m)) && p.keyCount == AsU32(|m|)
    requires p.minKeySize == (if p.keyCount > 0 then AsU32(shortest) else 0)
    requires p.maxKeySize == (if p.keyCount > 0 then AsU32(longest) else 0)
    requires p.meanKeySize == (if p.keyCount > 0 then AsU32(total / p.keyCount) else 0)
    ensures InfoIsExact(m, fileLen, p)
  {
    hide AsU32, Sum, Saturate;
    NoTruncation(|m|);
    if m != map[] && |m| < U32_LIMIT && (forall k | k in m :: |k| < U32_LIMIT) {
      assert |m.Keys| == |m| > 0;
      NoTruncation(shortest);
      NoTruncation(longest);
      SumBetween(m.Keys, KeySize(), shortest, longest);
      MeanBetween(total, |m|, shortest, longest);
      NoTruncation(total / |m|);
    }
  }

  /** The report on a live index and its file. */
  method Info(m: Index, fileLen: nat) returns (p: InfoPacket)
    requires forall k | k in m :: |k| <= USIZE_MAX
    ensures InfoIsExact(m, fileLen, p)
  {
    hide Sum, Extremes, InfoIsExact;
    var bytes := EntryBytes(m);
    var shortest, longest, total := KeyLengths(m);
    var keyCount := AsU32(|m|);
    p := InfoPacket(Saturate(fileLen), Saturate(bytes),
                    if keyCount > 0 then AsU32(shortest) else 0,
                    if keyCount > 0 then AsU32(total / keyCount) else 0,
                    if keyCount > 0 then AsU32(longest) else 0,
                    keyCount);
    ReportIsExact(m, fileLen, shortest, longest, total, p);
  }
}
