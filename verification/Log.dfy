/** The log format: records, their encoding, the parser of one record, the scan of a whole file, and replay.
    Everything here holds for every checksum function. */
module Log {
  import opened Bytes
  import opened Words

  const HEADER_LEN := 9
  const CRC_LEN := 4
  const OP_SET: byte := 1
  const OP_DELETE: byte := 2

  type Checksum = Data -> Word
  type Index = map<Data, Data>

  datatype Record = Set(key: Data, value: Data) | Delete(key: Data)
  {
    function Op(): byte {
      if Set? then OP_SET else OP_DELETE
    }

    function Payload(): Data {
      if Set? then value else []
    }

    /** Both lengths survive the cast to 32 bits. */
    predicate Fits() {
      |key| < U32_LIMIT && |Payload()| < U32_LIMIT
    }

    predicate Valid() {
      key != [] && Fits()
    }

    function Size(): nat {
      HEADER_LEN + |key| + |Payload()| + CRC_LEN
    }
  }

  predicate AllValid(rs: seq<Record>) {
    forall i | 0 <= i < |rs| :: rs[i].Valid()
  }

  // ---------- Printing ----------

  /** What the checksum covers. */
  function Body(op: byte, key: Data, value: Data): Data {
    [op] + Le32(AsU32(|key|)) + Le32(AsU32(|value|)) + key + value
  }

  function Encode(crc: Checksum, r: Record): (t: Data)
    ensures |t| == r.Size()
  {
    var body := Body(r.Op(), r.key, r.Payload());
    body + LeWord(crc(body))
  }

  function EncodeAll(crc: Checksum, rs: seq<Record>): Data {
    if rs == [] then [] else Encode(crc, rs[0]) + EncodeAll(crc, rs[1..])
  }

  function TotalSize(rs: seq<Record>): nat {
    if rs == [] then 0 else rs[0].Size() + TotalSize(rs[1..])
  }

  // ---------- Parsing ----------

  /** The record that starts `t`, if every check of the recovery loop passes. */
  function ParseOne(crc: Checksum, t: Data): (r: Option<Record>)
    ensures r.Some? ==> r.value.Size() <= |t|
  {
    if |t| < HEADER_LEN + CRC_LEN then None
    else if t[0] != OP_SET && t[0] != OP_DELETE then None
    else
      var klen := FromLe32(t[1..5]);
      var vlen := FromLe32(t[5..9]);
      if klen == 0 then None
      else if t[0] == OP_DELETE && vlen != 0 then None
      else if HEADER_LEN + klen + vlen + CRC_LEN > |t| then None
      else
        var key := t[9..9 + klen];
        var value := t[9 + klen..9 + klen + vlen];
        var end := 9 + klen + vlen;
        if FromLeWord(t[end..end + 4]) != crc(Body(t[0], key, value)) then None
        else Some(if t[0] == OP_SET then Set(key, value) else Delete(key))
  }

  function Scan(crc: Checksum, t: Data): seq<Record>
    decreases |t|
  {
    match ParseOne(crc, t)
    case None => []
    case Some(r) => [r] + Scan(crc, t[r.Size()..])
  }

  // ---------- One record ----------

  /** Where the fields of an encoding lie. */
  lemma EncodeFields(crc: Checksum, r: Record, tail: Data)
    ensures var t := Encode(crc, r) + tail;
            var k, n := 9 + |r.key|, 9 + |r.key| + |r.Payload()|;
            && t[0] == r.Op() && t[1..5] == Le32(AsU32(|r.key|)) && t[5..9] == Le32(AsU32(|r.Payload()|))
            && t[9..k] == r.key && t[k..n] == r.Payload()
            && t[n..n + 4] == LeWord(crc(Body(r.Op(), r.key, r.Payload())))
            && t[r.Size()..] == tail
  {
    hide Le32, AsU32, LeWord;
    var k, v := Le32(AsU32(|r.key|)), Le32(AsU32(|r.Payload()|));
    var w := LeWord(crc(Body(r.Op(), r.key, r.Payload())));
    var t := Encode(crc, r) + tail;
    assert t == [r.Op()] + k + v + r.key + r.Payload() + w + tail;
  }

  /** The parser inverts the printer exactly when both lengths survive the cast to 32 bits. */
  lemma ParseOfEncode(crc: Checksum, r: Record, tail: Data)
    requires r.key != []
    ensures ParseOne(crc, Encode(crc, r) + tail) == Some(r) <==> r.Fits()
  {
    hide Le32, FromLe32, LeWord, FromLeWord;
    EncodeFields(crc, r, tail);
    Le32RoundTrip(AsU32(|r.key|));
    Le32RoundTrip(AsU32(|r.Payload()|));
    LeWordRoundTrip(crc(Body(r.Op(), r.key, r.Payload())));
  }

  lemma SplitFields(t: Data, k: nat, n: nat)
    requires 9 <= k <= n && n + 4 <= |t|
    ensures t[..n + 4] == [t[0]] + t[1..5] + t[5..9] + t[9..k] + t[k..n] + t[n..n + 4]
  {
  }

  /** What an accepted record looked like. */
  lemma ParsedFields(crc: Checksum, t: Data, r: Record)
    requires ParseOne(crc, t) == Some(r)
    ensures r.Valid() && r.Size() <= |t| && t[0] == r.Op()
    ensures FromLe32(t[1..5]) == |r.key| && FromLe32(t[5..9]) == |r.Payload()|
    ensures var k, n := 9 + |r.key|, 9 + |r.key| + |r.Payload()|;
            && t[9..k] == r.key && t[k..n] == r.Payload()
            && FromLeWord(t[n..n + 4]) == crc(Body(r.Op(), r.key, r.Payload()))
  {
    hide FromLe32, FromLeWord, Body;
  }

  /** What the parser accepts is, byte for byte, what the printer writes. */
  lemma EncodeOfParse(crc: Checksum, t: Data, r: Record)
    requires ParseOne(crc, t) == Some(r)
    ensures r.Valid() && Encode(crc, r) <= t
  {
    hide ParseOne, Le32, FromLe32, LeWord, FromLeWord;
    ParsedFields(crc, t, r);
    var k, n := 9 + |r.key|, 9 + |r.key| + |r.Payload()|;
    FromLe32RoundTrip(t[1..5]);
    FromLe32RoundTrip(t[5..9]);
    FromLeWordRoundTrip(t[n..n + 4]);
    SplitFields(t, k, n);
  }

  lemma ParseIff(crc: Checksum, t: Data, r: Record)
    ensures ParseOne(crc, t) == Some(r) <==> r.Valid() && Encode(crc, r) <= t
  {
    hide Encode, ParseOne;
    if ParseOne(crc, t) == Some(r) {
      EncodeOfParse(crc, t, r);
    }
    if r.Valid() && Encode(crc, r) <= t {
      ParseOfEncode(crc, r, t[r.Size()..]);
      assert t == Encode(crc, r) + t[r.Size()..];
    }
  }

  /** A record that parses still parses when more bytes follow. */
  lemma ParseMore(crc: Checksum, t: Data, u: Data)
    requires t <= u && ParseOne(crc, t).Some?
    ensures ParseOne(crc, u) == ParseOne(crc, t)
  {
    hide Encode, ParseOne;
    var r := ParseOne(crc, t).value;
    ParseIff(crc, t, r);
    ParseIff(crc, u, r);
  }

  // ---------- Whole files ----------

  lemma {:induction false} EncodeAllSize(crc: Checksum, rs: seq<Record>)
    ensures |EncodeAll(crc, rs)| == TotalSize(rs)
  {
    if rs != [] {
      EncodeAllSize(crc, rs[1..]);
    }
  }

  lemma {:induction false} EncodeAllAppend(crc: Checksum, a: seq<Record>, b: seq<Record>)
    ensures EncodeAll(crc, a + b) == EncodeAll(crc, a) + EncodeAll(crc, b)
  {
    hide Encode;
    if a == [] {
      assert a + b == b;
    } else {
      assert (a + b)[0] == a[0] && (a + b)[1..] == a[1..] + b;
      EncodeAllAppend(crc, a[1..], b);
    }
  }

  lemma EncodeAllSnoc(crc: Checksum, rs: seq<Record>, r: Record)
    ensures EncodeAll(crc, rs + [r]) == EncodeAll(crc, rs) + Encode(crc, r)
  {
    hide Encode;
    EncodeAllAppend(crc, rs, [r]);
    assert EncodeAll(crc, [r]) == Encode(crc, r) + EncodeAll(crc, []);
  }

  lemma EncodeAllPrefix(crc: Checksum, a: seq<Record>, b: seq<Record>)
    requires a <= b
    ensures EncodeAll(crc, a) <= EncodeAll(crc, b)
  {
    assert b == a + b[|a|..];
    EncodeAllAppend(crc, a, b[|a|..]);
  }

  lemma {:induction false} ScanStep(crc: Checksum, r: Record, tail: Data)
    requires r.Valid()
    ensures Scan(crc, Encode(crc, r) + tail) == [r] + Scan(crc, tail)
  {
    hide Encode, ParseOne;
    var t := Encode(crc, r) + tail;
    ParseOfEncode(crc, r, tail);
    assert t[r.Size()..] == tail;
  }

  /** Records already in the log are recovered whatever follows them. */
  lemma {:induction false} ScanOfEncodeAll(crc: Checksum, rs: seq<Record>, tail: Data)
    requires AllValid(rs)
    ensures Scan(crc, EncodeAll(crc, rs) + tail) == rs + Scan(crc, tail)
    decreases |rs|
  {
    hide Encode, ParseOne, Scan;
    if rs == [] {
      assert EncodeAll(crc, rs) + tail == tail;
    } else {
      var rest := EncodeAll(crc, rs[1..]);
      assert EncodeAll(crc, rs) + tail == Encode(crc, rs[0]) + (rest + tail);
      ScanStep(crc, rs[0], rest + tail);
      ScanOfEncodeAll(crc, rs[1..], tail);
      assert rs == [rs[0]] + rs[1..];
    }
  }

  /** A record is found at the offset its append returned, however many records were appended behind it. */
  lemma OffsetFinds(crc: Checksum, rs: seq<Record>, i: nat, tail: Data)
    requires AllValid(rs) && i < |rs|
    ensures TotalSize(rs[..i]) <= |EncodeAll(crc, rs)|
    ensures ParseOne(crc, (EncodeAll(crc, rs) + tail)[TotalSize(rs[..i])..]) == Some(rs[i])
  {
    hide Encode, ParseOne, TotalSize, EncodeAll;
    var before, behind := rs[..i], rs[i + 1..];
    assert rs == before + [rs[i]] + behind;
    EncodeAllAppend(crc, before + [rs[i]], behind);
    EncodeAllSnoc(crc, before, rs[i]);
    EncodeAllSize(crc, before);
    var rest := EncodeAll(crc, behind) + tail;
    assert EncodeAll(crc, rs) + tail == EncodeAll(crc, before) + (Encode(crc, rs[i]) + rest);
    ParseOfEncode(crc, rs[i], rest);
  }

  lemma ScanRoundTrip(crc: Checksum, rs: seq<Record>)
    requires AllValid(rs)
    ensures Scan(crc, EncodeAll(crc, rs)) == rs
  {
    hide ParseOne;
    ScanOfEncodeAll(crc, rs, []);
    assert EncodeAll(crc, rs) + [] == EncodeAll(crc, rs);
  }

  /** Two logs with the same bytes hold the same records. */
  lemma EncodeAllInjective(crc: Checksum, a: seq<Record>, b: seq<Record>)
    requires AllValid(a) && AllValid(b)
    requires EncodeAll(crc, a) == EncodeAll(crc, b)
    ensures a == b
  {
    ScanRoundTrip(crc, a);
    ScanRoundTrip(crc, b);
  }

  /** What recovery must find, said with the printer alone: `rs` fills the front of the file and no record
      continues it. */
  ghost predicate Recovered(crc: Checksum, t: Data, rs: seq<Record>) {
    && AllValid(rs)
    && EncodeAll(crc, rs) <= t
    && forall r: Record :: r.Valid() ==> !(Encode(crc, r) <= t[|EncodeAll(crc, rs)|..])
  }

  lemma {:induction false} ScanExact(crc: Checksum, t: Data)
    ensures AllValid(Scan(crc, t)) && EncodeAll(crc, Scan(crc, t)) <= t
    ensures ParseOne(crc, t[|EncodeAll(crc, Scan(crc, t))|..]) == None
    decreases |t|
  {
    hide Encode, ParseOne;
    var p := ParseOne(crc, t);
    if p.Some? {
      var r := p.value;
      ParseIff(crc, t, r);
      var u := t[r.Size()..];
      ScanExact(crc, u);
      var rest := EncodeAll(crc, Scan(crc, u));
      assert t == Encode(crc, r) + u;
      assert Scan(crc, t)[1..] == Scan(crc, u);
      assert t[r.Size() + |rest|..] == u[|rest|..];
    } else {
      assert t[0..] == t;
    }
  }

  lemma ScanIsRecovered(crc: Checksum, t: Data)
    ensures Recovered(crc, t, Scan(crc, t))
  {
    hide Encode, ParseOne, Scan;
    var rs := Scan(crc, t);
    ScanExact(crc, t);
    forall r: Record | r.Valid()
      ensures !(Encode(crc, r) <= t[|EncodeAll(crc, rs)|..])
    {
      ParseIff(crc, t[|EncodeAll(crc, rs)|..], r);
    }
  }

  lemma RecoveredIsScan(crc: Checksum, t: Data, rs: seq<Record>)
    requires Recovered(crc, t, rs)
    ensures Scan(crc, t) == rs
  {
    hide Encode, ParseOne, EncodeAll;
    var tail := t[|EncodeAll(crc, rs)|..];
    assert t == EncodeAll(crc, rs) + tail;
    ScanOfEncodeAll(crc, rs, tail);
    var p := ParseOne(crc, tail);
    if p.Some? {
      ParseIff(crc, tail, p.value);
    }
  }

  /** The scan finds exactly the longest list of records that fills the front of the file. */
  lemma ScanIff(crc: Checksum, t: Data, rs: seq<Record>)
    ensures Scan(crc, t) == rs <==> Recovered(crc, t, rs)
  {
    hide Recovered, Scan;
    ScanIsRecovered(crc, t);
    if Recovered(crc, t, rs) {
      RecoveredIsScan(crc, t, rs);
    }
  }

  /** Cutting a file anywhere only drops records at its end. */
  lemma {:induction false} ScanMonotone(crc: Checksum, t: Data, u: Data)
    requires t <= u
    ensures Scan(crc, t) <= Scan(crc, u)
    decreases |t|
  {
    hide Encode, ParseOne;
    var p := ParseOne(crc, t);
    if p.Some? {
      ParseMore(crc, t, u);
      var n := p.value.Size();
      assert t[n..] <= u[n..];
      ScanMonotone(crc, t[n..], u[n..]);
    }
  }

  /** Truncating a file to its recovered records, or cutting its bad tail anywhere, keeps the recovered records. */
  lemma ScanCut(crc: Checksum, t: Data, u: Data)
    requires EncodeAll(crc, Scan(crc, t)) <= u <= t
    ensures Scan(crc, u) == Scan(crc, t)
  {
    ScanExact(crc, t);
    ScanRoundTrip(crc, Scan(crc, t));
    ScanMonotone(crc, EncodeAll(crc, Scan(crc, t)), u);
    ScanMonotone(crc, u, t);
  }

  /** A log cut after `k` bytes keeps exactly the records that end by then; no property of the checksum is used. */
  lemma TornLog(crc: Checksum, rs: seq<Record>, k: nat)
    requires AllValid(rs) && k <= |EncodeAll(crc, rs)|
    ensures var kept := Scan(crc, EncodeAll(crc, rs)[..k]);
            && kept <= rs && TotalSize(kept) <= k
            && (|kept| < |rs| ==> k < TotalSize(rs[..|kept| + 1]))
  {
    hide Encode, ParseOne;
    var t := EncodeAll(crc, rs);
    var kept := Scan(crc, t[..k]);
    ScanRoundTrip(crc, rs);
    ScanMonotone(crc, t[..k], t);
    ScanExact(crc, t[..k]);
    EncodeAllSize(crc, kept);
    if |kept| < |rs| && TotalSize(rs[..|kept| + 1]) <= k {
      var more := rs[..|kept| + 1];
      EncodeAllSize(crc, more);
      EncodeAllPrefix(crc, more, rs);
      ScanRoundTrip(crc, more);
      ScanMonotone(crc, EncodeAll(crc, more), t[..k]);
      assert false;
    }
  }

  /** Recovering twice finds nothing new, and records appended after a recovery are found behind the recovered ones. */
  lemma RecoveryComposes(crc: Checksum, t: Data, more: seq<Record>, tail: Data)
    requires AllValid(more)
    ensures var kept := Scan(crc, t);
            && Scan(crc, EncodeAll(crc, kept)) == kept
            && Scan(crc, EncodeAll(crc, kept) + EncodeAll(crc, more) + tail) == kept + more + Scan(crc, tail)
  {
    hide Encode, ParseOne, Scan;
    var kept := Scan(crc, t);
    ScanExact(crc, t);
    ScanRoundTrip(crc, kept);
    EncodeAllAppend(crc, kept, more);
    ScanOfEncodeAll(crc, kept + more, tail);
  }

  lemma {:induction false} TotalSizeSteps(rs: seq<Record>, k: nat)
    requires k < |rs|
    ensures TotalSize(rs[..k]) < TotalSize(rs[..k + 1]) <= TotalSize(rs)
    decreases |rs|
  {
    assert rs[..k + 1][1..] == rs[1..][..k];
    if k > 0 {
      assert rs[..k][1..] == rs[1..][..k - 1];
      TotalSizeSteps(rs[1..], k - 1);
    }
  }

  /** No list of records ends strictly inside the encoding of another record. */
  lemma NoRecordsEndInside(crc: Checksum, rs: seq<Record>, bad: Record, n: nat, kept: seq<Record>)
    requires AllValid(rs) && bad.Valid() && 0 < n < bad.Size() && AllValid(kept)
    ensures EncodeAll(crc, kept) != EncodeAll(crc, rs) + Encode(crc, bad)[..n]
  {
    hide Encode, EncodeAll, TotalSize, ParseOne, Scan;
    var all, front := rs + [bad], EncodeAll(crc, rs);
    EncodeAllSnoc(crc, rs, bad);
    EncodeAllSize(crc, rs);
    EncodeAllSize(crc, kept);
    EncodeAllSize(crc, all);
    if EncodeAll(crc, kept) == front + Encode(crc, bad)[..n] {
      assert EncodeAll(crc, all)[..|front| + n] == EncodeAll(crc, kept);
      ScanRoundTrip(crc, kept);
      ScanRoundTrip(crc, all);
      ScanMonotone(crc, EncodeAll(crc, kept), EncodeAll(crc, all));
      PrefixSizes(rs, bad, kept);
    }
  }

  lemma PrefixSizes(rs: seq<Record>, bad: Record, kept: seq<Record>)
    requires kept <= rs + [bad]
    ensures TotalSize(kept) <= TotalSize(rs) || kept == rs + [bad]
  {
    if |kept| < |rs| {
      TotalSizeSteps(rs, |kept|);
      assert rs[..|kept|] == (rs + [bad])[..|kept|] == kept;
    } else if |kept| == |rs| {
      assert kept == (rs + [bad])[..|rs|] == rs;
    }
  }

  /** Record `r` was found at offset `at`. */
  predicate FoundAt(found: seq<Record>, at: nat, r: Record) {
    exists k :: 0 <= k < |found| && TotalSize(found[..k]) == at && found[k] == r
  }

  lemma FoundBehind(crc: Checksum, rs: seq<Record>, r: Record, tail: Data)
    requires AllValid(rs) && r.Valid()
    ensures FoundAt(Scan(crc, EncodeAll(crc, rs) + (Encode(crc, r) + tail)), TotalSize(rs), r)
  {
    hide Encode, ParseOne, TotalSize, Scan;
    var rest := Encode(crc, r) + tail;
    var found := Scan(crc, EncodeAll(crc, rs) + rest);
    ScanOfEncodeAll(crc, rs, rest);
    ScanStep(crc, r, tail);
    assert found[..|rs|] == rs && found[|rs|] == r;
  }

  lemma NotFoundBehind(crc: Checksum, rs: seq<Record>, bad: Record, n: nat, r: Record, rest: Data)
    requires AllValid(rs) && bad.Valid() && 0 < n < bad.Size()
    ensures !FoundAt(Scan(crc, EncodeAll(crc, rs) + Encode(crc, bad)[..n] + rest), TotalSize(rs) + n, r)
  {
    hide Encode, ParseOne, TotalSize, Scan;
    var front := EncodeAll(crc, rs) + Encode(crc, bad)[..n];
    var file := front + rest;
    var found := Scan(crc, file);
    EncodeAllSize(crc, rs);
    if FoundAt(found, TotalSize(rs) + n, r) {
      var k :| 0 <= k < |found| && TotalSize(found[..k]) == TotalSize(rs) + n && found[k] == r;
      var kept := found[..k];
      ScanExact(crc, file);
      EncodeAllPrefix(crc, kept, found);
      EncodeAllSize(crc, kept);
      assert EncodeAll(crc, kept) == file[..|front|] == front;
      NoRecordsEndInside(crc, rs, bad, n, kept);
    }
  }

  /** After a failed append that left `n` bytes behind, the record of the next append is recovered where it was written
      if and only if the failed one left nothing or everything: whatever the records, the checksum and what follows. */
  lemma FailedAppendIff(crc: Checksum, rs: seq<Record>, bad: Record, n: nat, r: Record, tail: Data)
    requires AllValid(rs) && bad.Valid() && r.Valid() && n <= bad.Size()
    ensures var found := Scan(crc, EncodeAll(crc, rs) + Encode(crc, bad)[..n] + (Encode(crc, r) + tail));
            FoundAt(found, TotalSize(rs) + n, r) <==> n == 0 || n == bad.Size()
  {
    hide Encode, ParseOne, TotalSize, Scan, FoundAt;
    if n == 0 {
      assert EncodeAll(crc, rs) + Encode(crc, bad)[..n] == EncodeAll(crc, rs);
      FoundBehind(crc, rs, r, tail);
    } else if n == bad.Size() {
      EncodeAllSnoc(crc, rs, bad);
      EncodeAllSize(crc, rs);
      EncodeAllSize(crc, rs + [bad]);
      FoundBehind(crc, rs + [bad], r, tail);
      assert Encode(crc, bad)[..n] == Encode(crc, bad);
    } else {
      NotFoundBehind(crc, rs, bad, n, r, Encode(crc, r) + tail);
    }
  }

  // ---------- Replay ----------

  function Apply(m: Index, r: Record): Index {
    if r.Set? then m[r.key := r.value] else m - {r.key}
  }

  function ReplayFrom(m: Index, rs: seq<Record>): Index
    decreases |rs|
  {
    if rs == [] then m else ReplayFrom(Apply(m, rs[0]), rs[1..])
  }

  function Replay(rs: seq<Record>): Index {
    ReplayFrom(map[], rs)
  }

  lemma {:induction false} ReplayAppend(m: Index, a: seq<Record>, b: seq<Record>)
    ensures ReplayFrom(m, a + b) == ReplayFrom(ReplayFrom(m, a), b)
    decreases |a|
  {
    if a == [] {
      assert a + b == b;
    } else {
      assert (a + b)[0] == a[0] && (a + b)[1..] == a[1..] + b;
      ReplayAppend(Apply(m, a[0]), a[1..], b);
    }
  }

  lemma ReplaySnoc(rs: seq<Record>, r: Record)
    ensures Replay(rs + [r]) == Apply(Replay(rs), r)
  {
    ReplayAppend(map[], rs, [r]);
    assert ReplayFrom(Replay(rs), [r]) == ReplayFrom(Apply(Replay(rs), r), []);
  }

  /** Record `i` sets `key` to `v` and no later record touches the key. */
  predicate LastSet(rs: seq<Record>, key: Data, v: Data, i: int) {
    0 <= i < |rs| && rs[i] == Set(key, v) && forall j :: i < j < |rs| ==> rs[j].key != key
  }

  /** A key is live with value `v` exactly when its last record sets it to `v`. */
  lemma {:induction false} ReplayLastWins(rs: seq<Record>, key: Data, v: Data)
    ensures (key in Replay(rs) && Replay(rs)[key] == v) <==> exists i :: LastSet(rs, key, v, i)
    decreases |rs|
  {
    if rs != [] {
      var n := |rs| - 1;
      var front, r := rs[..n], rs[n];
      assert rs == front + [r];
      ReplaySnoc(front, r);
      ReplayLastWins(front, key, v);
      if r.key == key {
        assert LastSet(rs, key, v, n) <==> r == Set(key, v);
      } else {
        forall i
          ensures LastSet(rs, key, v, i) <==> LastSet(front, key, v, i)
        {
        }
      }
    }
  }
}
