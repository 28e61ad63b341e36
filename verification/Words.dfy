/** Machine words and bytes, needed for checksums only: conversions to plain bytes without arithmetic casts. */
module Words {
  import opened Bytes

  /** A 32-bit machine word. */
  datatype Word = Word(bits: bv32)

  /** The `k` low bits of a number, least significant first. */
  function Bits(n: nat, k: nat): (bs: seq<bool>)
    ensures |bs| == k
  {
    if k == 0 then [] else [n % 2 == 1] + Bits(n / 2, k - 1)
  }

  function Value(bs: seq<bool>): nat {
    if bs == [] then 0 else (if bs[0] then 1 else 0) + 2 * Value(bs[1..])
  }

  function Pow2(k: nat): nat {
    if k == 0 then 1 else 2 * Pow2(k - 1)
  }

  lemma {:induction false} ValueOfBits(n: nat, k: nat)
    requires n < Pow2(k)
    ensures Value(Bits(n, k)) == n
  {
    if k > 0 {
      ValueOfBits(n / 2, k - 1);
      assert Bits(n, k)[1..] == Bits(n / 2, k - 1);
    }
  }

  lemma {:induction false} BitsOfValue(bs: seq<bool>)
    ensures Value(bs) < Pow2(|bs|) && Bits(Value(bs), |bs|) == bs
  {
    if bs != [] {
      BitsOfValue(bs[1..]);
      assert bs == [bs[0]] + bs[1..];
      assert Value(bs) / 2 == Value(bs[1..]);
    }
  }

  /** The same two functions for machine bytes. */
  function Lanes(v: bv8, k: nat): (bs: seq<bool>)
    ensures |bs| == k
    decreases k
  {
    if k == 0 then [] else [v & 1 == 1] + Lanes(v >> 1, k - 1)
  }

  function Push(on: bool, v: bv8): bv8 {
    (if on then 1 else 0) | (v << 1)
  }

  function Join(bs: seq<bool>): bv8 {
    if bs == [] then 0 else Push(bs[0], Join(bs[1..]))
  }

  predicate Under(v: bv8, k: nat)
    decreases k
  {
    if k == 0 then v == 0 else Under(v >> 1, k - 1)
  }

  lemma PushUnpush(v: bv8)
    ensures Push(v & 1 == 1, v >> 1) == v
  {
  }

  lemma UnpushPush(on: bool, v: bv8)
    requires v <= 0x7F
    ensures (Push(on, v) & 1 == 1) == on && Push(on, v) >> 1 == v
  {
  }

  lemma {:induction false} JoinOfLanes(v: bv8, k: nat)
    requires Under(v, k)
    ensures Join(Lanes(v, k)) == v
    decreases k
  {
    hide Push;
    if k > 0 {
      JoinOfLanes(v >> 1, k - 1);
      assert Lanes(v, k)[1..] == Lanes(v >> 1, k - 1);
      PushUnpush(v);
    }
  }

  lemma {:induction false} LowMore(v: bv8, k: nat, n: nat)
    requires k <= n && Under(v, k)
    ensures Under(v, n)
    decreases n
  {
    if n > k {
      if k == 0 {
        assert v >> 1 == 0;
        LowMore(v >> 1, 0, n - 1);
      } else {
        LowMore(v >> 1, k - 1, n - 1);
      }
    } else if k > 0 {
      LowMore(v >> 1, k - 1, n - 1);
    }
  }

  lemma LowSeven(v: bv8)
    requires Under(v, 7)
    ensures v <= 0x7F
  {
  }

  lemma {:induction false} LanesOfJoin(bs: seq<bool>)
    requires |bs| <= 8
    ensures Under(Join(bs), |bs|) && Lanes(Join(bs), |bs|) == bs
    decreases |bs|
  {
    hide Push;
    if bs != [] {
      LanesOfJoin(bs[1..]);
      LowMore(Join(bs[1..]), |bs| - 1, 7);
      LowSeven(Join(bs[1..]));
      UnpushPush(bs[0], Join(bs[1..]));
      assert bs == [bs[0]] + bs[1..];
    }
  }

  lemma AllUnder(v: bv8)
    ensures Under(v, 8)
  {
  }

  function ToByte(bits: bv8): byte {
    BitsOfValue(Lanes(bits, 8));
    assert Pow2(8) == 256;
    Value(Lanes(bits, 8))
  }

  function FromByte(b: byte): bv8 {
    Join(Bits(b, 8))
  }

  lemma FromByteRoundTrip(b: byte)
    ensures ToByte(FromByte(b)) == b
  {
    LanesOfJoin(Bits(b, 8));
    assert Pow2(8) == 256;
    ValueOfBits(b, 8);
  }

  lemma ToByteRoundTrip(bits: bv8)
    ensures FromByte(ToByte(bits)) == bits
  {
    BitsOfValue(Lanes(bits, 8));
    AllUnder(bits);
    JoinOfLanes(bits, 8);
  }

  /** Byte `i` of a word, least significant first. */
  function Lane(w: bv32, i: nat): bv8
    requires i < 4
  {
    match i
    case 0 => (w & 0xFF) as bv8
    case 1 => ((w >> 8) & 0xFF) as bv8
    case 2 => ((w >> 16) & 0xFF) as bv8
    case _ => (w >> 24) as bv8
  }

  function Merge(a: bv8, b: bv8, c: bv8, d: bv8): bv32 {
    a as bv32 | (b as bv32 << 8) | (c as bv32 << 16) | (d as bv32 << 24)
  }

  lemma MergeLanes(w: bv32)
    ensures Merge(Lane(w, 0), Lane(w, 1), Lane(w, 2), Lane(w, 3)) == w
  {
  }

  lemma LanesOfMerge(a: bv8, b: bv8, c: bv8, d: bv8)
    ensures var w := Merge(a, b, c, d); Lane(w, 0) == a && Lane(w, 1) == b && Lane(w, 2) == c && Lane(w, 3) == d
  {
  }

  function LeWord(w: Word): (b: Data)
    ensures |b| == 4
  {
    [ToByte(Lane(w.bits, 0)), ToByte(Lane(w.bits, 1)), ToByte(Lane(w.bits, 2)), ToByte(Lane(w.bits, 3))]
  }

  function FromLeWord(b: Data): Word
    requires |b| == 4
  {
    Word(Merge(FromByte(b[0]), FromByte(b[1]), FromByte(b[2]), FromByte(b[3])))
  }

  lemma LeWordRoundTrip(w: Word)
    ensures FromLeWord(LeWord(w)) == w
  {
    hide Lane, Merge, ToByte, FromByte;
    MergeLanes(w.bits);
    forall i: nat | i < 4
      ensures FromByte(ToByte(Lane(w.bits, i))) == Lane(w.bits, i)
    {
      ToByteRoundTrip(Lane(w.bits, i));
    }
  }

  lemma FromLeWordRoundTrip(b: Data)
    requires |b| == 4
    ensures LeWord(FromLeWord(b)) == b
  {
    hide Lane, Merge, ToByte, FromByte;
    LanesOfMerge(FromByte(b[0]), FromByte(b[1]), FromByte(b[2]), FromByte(b[3]));
    forall i: nat | i < 4
      ensures ToByte(FromByte(b[i])) == b[i]
    {
      FromByteRoundTrip(b[i]);
    }
  }
}
