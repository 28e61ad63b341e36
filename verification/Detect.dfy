/** Corruption of one record that leaves its length fields alone is always detected. */
module Detect {
  import opened Bytes
  import opened Words
  import opened Log
  import Crc

  /** `f` differs from `e` only inside some window of four bytes, and not in the two length fields. */
  ghost predicate Corrupts(e: Data, f: Data) {
    && |f| == |e| >= HEADER_LEN && f != e && f[1..9] == e[1..9]
    && exists lo, hi :: 0 <= lo <= hi <= |e| && hi - lo <= 4 && f[..lo] == e[..lo] && f[hi..] == e[hi..]
  }

  lemma EncodingLeavesResidue(r: Record)
    ensures Crc.Fold(Crc.SEED, Encode(Crc.Checksum, r)) == Crc.BitSteps(Crc.SEED, 32)
  {
    hide Crc.Fold, Crc.BitSteps;
    var body := Body(r.Op(), r.key, r.Payload());
    Crc.Residue(body, Crc.Checksum(body));
  }

  lemma SameLengthsSameSize(crc: Checksum, r: Record, s: Record, t: Data, u: Data)
    requires r.Valid() && s.Valid() && Encode(crc, r) <= t && Encode(crc, s) <= u
    requires t[1..9] == u[1..9]
    ensures r.Size() == s.Size()
  {
    hide Le32, AsU32, Encode;
    LengthFields(crc, r, t);
    LengthFields(crc, s, u);
    LengthField(|r.key|, |s.key|);
    LengthField(|r.Payload()|, |s.Payload()|);
  }

  lemma LengthFields(crc: Checksum, r: Record, t: Data)
    requires Encode(crc, r) <= t
    ensures t[1..9][..4] == Le32(AsU32(|r.key|)) && t[1..9][4..] == Le32(AsU32(|r.Payload()|))
  {
    hide Le32, AsU32, Encode;
    assert t == Encode(crc, r) + t[r.Size()..];
    EncodeFields(crc, r, t[r.Size()..]);
  }

  lemma LengthField(m: nat, n: nat)
    requires m < U32_LIMIT && n < U32_LIMIT && Le32(AsU32(m)) == Le32(AsU32(n))
    ensures m == n
  {
    hide Le32, FromLe32;
    Le32RoundTrip(m);
    Le32RoundTrip(n);
  }

  lemma CorruptRecordRejected(r: Record, f: Data, tail: Data)
    requires r.Valid() && Corrupts(Encode(Crc.Checksum, r), f)
    ensures ParseOne(Crc.Checksum, f + tail) == None
  {
    hide ParseOne, Encode, Crc.Fold, Crc.BitSteps, Crc.Checksum;
    var e := Encode(Crc.Checksum, r);
    var p := ParseOne(Crc.Checksum, f + tail);
    if p.Some? {
      var s := p.value;
      ParseIff(Crc.Checksum, f + tail, s);
      assert (f + tail)[1..9] == e[1..9];
      SameLengthsSameSize(Crc.Checksum, r, s, e, f + tail);
      assert Encode(Crc.Checksum, s) == (f + tail)[..|f|] == f;
      EncodingLeavesResidue(r);
      EncodingLeavesResidue(s);
      var lo, hi :| 0 <= lo <= hi <= |e| && hi - lo <= 4 && f[..lo] == e[..lo] && f[hi..] == e[hi..];
      assert e == e[..lo] + e[lo..hi] + e[hi..];
      assert f == e[..lo] + f[lo..hi] + e[hi..];
      Crc.BurstChangesFold(e[..lo], e[lo..hi], f[lo..hi], e[hi..]);
    }
  }

  /** Recovery of a well-formed log with one such corruption keeps exactly the records before it. */
  lemma CorruptionStopsRecovery(rs: seq<Record>, i: nat, f: Data)
    requires AllValid(rs) && i < |rs| && Corrupts(Encode(Crc.Checksum, rs[i]), f)
    ensures Scan(Crc.Checksum, EncodeAll(Crc.Checksum, rs[..i]) + f + EncodeAll(Crc.Checksum, rs[i + 1..])) == rs[..i]
  {
    hide ParseOne, Encode, Crc.Checksum, Corrupts;
    var front, tail := EncodeAll(Crc.Checksum, rs[..i]), EncodeAll(Crc.Checksum, rs[i + 1..]);
    assert front + f + tail == front + (f + tail);
    ScanOfEncodeAll(Crc.Checksum, rs[..i], f + tail);
    CorruptRecordRejected(rs[i], f, tail);
  }

  /** One changed byte is such a corruption, wherever outside the length fields it lies. */
  lemma OneByteCorrupts(e: Data, i: nat, b: byte)
    requires HEADER_LEN <= |e| && i < |e| && !(1 <= i < 9) && b != e[i]
    ensures Corrupts(e, e[i := b])
  {
    var f := e[i := b];
    assert f[i] != e[i];
    assert f[..i] == e[..i] && f[i + 1..] == e[i + 1..];
  }
}
