/** CRC-32 (section 8 of RFC 1952) bit by bit, its burst detection, and the hasher the log reuses. */
module Crc {
  import opened Bytes
  import opened Words

  // ---------- Definition ----------

  const POLY: bv32 := 0xEDB8_8320
  const SEED := Word(0xFFFF_FFFF)

  function XorBits(a: bv32, b: bv32): bv32 {
    a ^ b
  }

  function Xor(a: Word, b: Word): Word {
    Word(XorBits(a.bits, b.bits))
  }

  /** One bit shifted out of the reflected register. */
  function ShiftBits(s: bv32): bv32 {
    if s & 1 == 1 then (s >> 1) ^ POLY else s >> 1
  }

  function BitStep(s: Word): Word {
    Word(ShiftBits(s.bits))
  }

  function BitSteps(s: Word, n: nat): Word {
    if n == 0 then s else BitStep(BitSteps(s, n - 1))
  }

  function Widen(b: bv8): bv32 {
    b as bv32
  }

  function Low(b: byte): Word {
    Word(Widen(FromByte(b)))
  }

  function ByteStep(s: Word, b: byte): Word {
    BitSteps(Xor(s, Low(b)), 8)
  }

  function Fold(s: Word, data: Data): Word
    decreases |data|
  {
    if data == [] then s else Fold(ByteStep(s, data[0]), data[1..])
  }

  function Checksum(data: Data): Word {
    Xor(Fold(SEED, data), SEED)
  }

  lemma {:induction false} FoldAppend(s: Word, a: Data, b: Data)
    ensures Fold(s, a + b) == Fold(Fold(s, a), b)
    decreases |a|
  {
    if a == [] {
      assert a + b == b;
    } else {
      assert (a + b)[0] == a[0] && (a + b)[1..] == a[1..] + b;
      FoldAppend(ByteStep(s, a[0]), a[1..], b);
    }
  }

  // ---------- Exclusive or ----------

  lemma XorAssoc(a: Word, b: Word, c: Word)
    ensures Xor(Xor(a, b), c) == Xor(a, Xor(b, c))
  {
  }

  lemma XorCommutes(a: Word, b: Word)
    ensures Xor(a, b) == Xor(b, a)
  {
  }

  lemma XorCancel(a: Word, b: Word, c: Word)
    requires Xor(a, b) == Xor(a, c)
    ensures b == c
  {
  }

  // ---------- One bit: invertible and linear ----------

  lemma ShiftBitsInjective(x: bv32, y: bv32)
    requires ShiftBits(x) == ShiftBits(y)
    ensures x == y
  {
  }

  lemma XorShift(x: bv32, y: bv32)
    ensures (x ^ y) >> 1 == (x >> 1) ^ (y >> 1)
  {
  }

  lemma XorLowBit(x: bv32, y: bv32)
    ensures (x ^ y) & 1 == (x & 1) ^ (y & 1)
  {
  }

  lemma LowBit(x: bv32)
    ensures x & 1 == 0 || x & 1 == 1
  {
  }

  lemma XorRegroup(a: bv32, b: bv32, p: bv32)
    ensures (a ^ p) ^ b == (a ^ b) ^ p
    ensures a ^ (b ^ p) == (a ^ b) ^ p
    ensures (a ^ p) ^ (b ^ p) == a ^ b
  {
  }

  lemma ShiftXor(x: bv32, y: bv32)
    ensures ShiftBits(x ^ y) == ShiftBits(x) ^ ShiftBits(y)
  {
    XorShift(x, y);
    XorLowBit(x, y);
    LowBit(x);
    LowBit(y);
    XorRegroup(x >> 1, y >> 1, POLY);
    if x & 1 == 1 {
      if y & 1 == 1 {} else {}
    } else {
      if y & 1 == 1 {} else {}
    }
  }

  lemma ShiftBitsLinear(x: bv32, y: bv32)
    ensures ShiftBits(XorBits(x, y)) == XorBits(ShiftBits(x), ShiftBits(y))
  {
    hide ShiftBits;
    ShiftXor(x, y);
  }

  // ---------- Many bits ----------

  lemma {:induction false} BitStepsInjective(x: Word, y: Word, n: nat)
    requires BitSteps(x, n) == BitSteps(y, n)
    ensures x == y
  {
    hide ShiftBits;
    if n > 0 {
      ShiftBitsInjective(BitSteps(x, n - 1).bits, BitSteps(y, n - 1).bits);
      BitStepsInjective(x, y, n - 1);
    }
  }

  lemma {:induction false} BitStepsLinear(x: Word, y: Word, n: nat)
    ensures BitSteps(Xor(x, y), n) == Xor(BitSteps(x, n), BitSteps(y, n))
  {
    hide ShiftBits, XorBits;
    if n > 0 {
      BitStepsLinear(x, y, n - 1);
      ShiftBitsLinear(BitSteps(x, n - 1).bits, BitSteps(y, n - 1).bits);
    }
  }

  lemma {:induction false} BitStepsAdd(s: Word, m: nat, n: nat)
    ensures BitSteps(s, m + n) == BitSteps(BitSteps(s, m), n)
  {
    hide BitStep;
    if n > 0 {
      BitStepsAdd(s, m, n - 1);
      assert m + n - 1 == m + (n - 1);
    }
  }

  // ---------- Windows of up to four bytes ----------

  function RaiseBits(w: bv32): bv32 {
    w << 8
  }

  /** `w` moved up by one byte. */
  function Raise(w: Word): Word {
    Word(RaiseBits(w.bits))
  }

  /** `w` occupies at most its `n` low bytes. */
  predicate FitsBits(w: bv32, n: nat)
    requires n <= 4
  {
    match n
    case 0 => w == 0
    case 1 => w <= 0xFF
    case 2 => w <= 0xFFFF
    case 3 => w <= 0xFF_FFFF
    case _ => true
  }

  /** Low bits that are 0 are shifted out without touching the polynomial. */
  lemma ShiftNibble(w: bv32)
    requires w <= 0xFFF_FFFF
    ensures ShiftBits(ShiftBits(ShiftBits(ShiftBits(w << 4)))) == w
  {
  }

  lemma RaiseTwice(w: bv32)
    requires FitsBits(w, 3)
    ensures RaiseBits(w) == (w << 4) << 4
    ensures w << 4 <= 0xFFF_FFFF && w <= 0xFFF_FFFF
  {
  }

  lemma RaisedSteps(w: Word)
    requires FitsBits(w.bits, 3)
    ensures BitSteps(Raise(w), 8) == w
  {
    hide ShiftBits, RaiseBits, FitsBits;
    var b := w.bits;
    RaiseTwice(b);
    ShiftNibble(b << 4);
    ShiftNibble(b);
    FourSteps(Raise(w));
    FourSteps(BitSteps(Raise(w), 4));
    BitStepsAdd(Raise(w), 4, 4);
  }

  lemma FourSteps(s: Word)
    ensures BitSteps(s, 4).bits == ShiftBits(ShiftBits(ShiftBits(ShiftBits(s.bits))))
  {
    hide ShiftBits;
    assert BitSteps(s, 1) == BitStep(s);
    assert BitSteps(s, 2) == BitStep(BitSteps(s, 1));
    assert BitSteps(s, 3) == BitStep(BitSteps(s, 2));
  }

  /** The bytes of a window as one little-endian word. */
  function Pack(a: Data): Word
    requires |a| <= 4
    decreases |a|
  {
    if a == [] then Word(0) else Xor(Low(a[0]), Raise(Pack(a[1..])))
  }

  lemma PushFits(b: bv8, w: bv32, n: nat)
    requires n <= 3 && FitsBits(w, n)
    ensures FitsBits(XorBits(Widen(b), RaiseBits(w)), n + 1)
  {
    match n
    case 0 =>
    case 1 =>
    case 2 =>
    case _ =>
  }

  lemma FitsMore(w: bv32, m: nat, n: nat)
    requires m <= n <= 4 && FitsBits(w, m)
    ensures FitsBits(w, n)
  {
  }

  lemma {:induction false} PackFits(a: Data)
    requires |a| <= 3
    ensures FitsBits(Pack(a).bits, |a|)
    decreases |a|
  {
    if a == [] {
    } else {
      hide FitsBits, XorBits, Widen, RaiseBits, FromByte;
      PackFits(a[1..]);
      PushFits(FromByte(a[0]), Pack(a[1..]).bits, |a| - 1);
    }
  }

  lemma PushInjectiveBits(a: bv8, b: bv8, v: bv32, w: bv32)
    requires FitsBits(v, 3) && FitsBits(w, 3)
    requires XorBits(Widen(a), RaiseBits(v)) == XorBits(Widen(b), RaiseBits(w))
    ensures a == b && v == w
  {
  }

  lemma PushInjective(a: byte, b: byte, v: Word, w: Word)
    requires FitsBits(v.bits, 3) && FitsBits(w.bits, 3)
    requires Xor(Low(a), Raise(v)) == Xor(Low(b), Raise(w))
    ensures a == b && v == w
  {
    hide FitsBits, XorBits, Widen, RaiseBits, FromByte;
    PushInjectiveBits(FromByte(a), FromByte(b), v.bits, w.bits);
    FromByteRoundTrip(a);
    FromByteRoundTrip(b);
  }

  lemma {:induction false} PackInjective(a: Data, b: Data)
    requires |a| == |b| <= 4
    requires Pack(a) == Pack(b)
    ensures a == b
    decreases |a|
  {
    hide FitsBits, Xor, Low, Raise;
    if a != [] {
      PackFits(a[1..]);
      PackFits(b[1..]);
      FitsMore(Pack(a[1..]).bits, |a| - 1, 3);
      FitsMore(Pack(b[1..]).bits, |b| - 1, 3);
      PushInjective(a[0], b[0], Pack(a[1..]), Pack(b[1..]));
      PackInjective(a[1..], b[1..]);
      assert a == [a[0]] + a[1..] && b == [b[0]] + b[1..];
    }
  }

  /** Feeding a window is the same as mixing it in as one word and then stepping all its bits. */
  lemma {:induction false} FoldWindow(s: Word, a: Data)
    requires |a| <= 4
    ensures Fold(s, a) == BitSteps(Xor(s, Pack(a)), 8 * |a|)
    decreases |a|
  {
    if a == [] {
    } else {
      hide FitsBits, Xor, Low, Raise, BitSteps;
      var b, w := Low(a[0]), Pack(a[1..]);
      PackFits(a[1..]);
      FitsMore(w.bits, |a| - 1, 3);
      calc {
        Fold(s, a);
        { FoldWindow(ByteStep(s, a[0]), a[1..]); }
        BitSteps(Xor(BitSteps(Xor(s, b), 8), w), 8 * |a[1..]|);
        { RaisedSteps(w); BitStepsLinear(Xor(s, b), Raise(w), 8); }
        BitSteps(BitSteps(Xor(Xor(s, b), Raise(w)), 8), 8 * |a[1..]|);
        { BitStepsAdd(Xor(Xor(s, b), Raise(w)), 8, 8 * |a[1..]|); }
        BitSteps(Xor(Xor(s, b), Raise(w)), 8 * |a|);
        { XorAssoc(s, b, Raise(w)); }
        BitSteps(Xor(s, Pack(a)), 8 * |a|);
      }
    }
  }

  // ---------- Detection ----------

  lemma {:induction false} FoldInjective(s: Word, t: Word, data: Data)
    requires Fold(s, data) == Fold(t, data)
    ensures s == t
    decreases |data|
  {
    hide Xor, Low, BitSteps;
    if data != [] {
      FoldInjective(ByteStep(s, data[0]), ByteStep(t, data[0]), data[1..]);
      BitStepsInjective(Xor(s, Low(data[0])), Xor(t, Low(data[0])), 8);
      XorCommutes(s, Low(data[0]));
      XorCommutes(t, Low(data[0]));
      XorCancel(Low(data[0]), s, t);
    }
  }

  /** Replacing up to four consecutive bytes by different ones always changes the register. */
  lemma BurstChangesFold(front: Data, a: Data, b: Data, back: Data)
    requires |a| == |b| <= 4 && a != b
    ensures Fold(SEED, front + a + back) != Fold(SEED, front + b + back)
  {
    hide Xor, BitSteps, ByteStep, Pack;
    var s := Fold(SEED, front);
    forall w | w == a || w == b
      ensures Fold(SEED, front + w + back) == Fold(Fold(s, w), back)
    {
      FoldAppend(SEED, front + w, back);
      FoldAppend(SEED, front, w);
    }
    if Fold(SEED, front + a + back) == Fold(SEED, front + b + back) {
      FoldInjective(Fold(s, a), Fold(s, b), back);
      FoldWindow(s, a);
      FoldWindow(s, b);
      BitStepsInjective(Xor(s, Pack(a)), Xor(s, Pack(b)), 8 * |a|);
      XorCancel(s, Pack(a), Pack(b));
      PackInjective(a, b);
    }
  }

  lemma PackLanes(w: bv32)
    ensures XorBits(Widen(Lane(w, 0)), RaiseBits(XorBits(Widen(Lane(w, 1)), RaiseBits(
            XorBits(Widen(Lane(w, 2)), RaiseBits(XorBits(Widen(Lane(w, 3)), RaiseBits(0)))))))) == w
  {
  }

  lemma PackOfLeWord(w: Word)
    ensures Pack(LeWord(w)) == w
  {
    hide XorBits, Widen, RaiseBits, Lane, ToByte, FromByte;
    var t, b := LeWord(w), w.bits;
    forall i: nat | i < 4
      ensures FromByte(ToByte(Lane(b, i))) == Lane(b, i)
    {
      ToByteRoundTrip(Lane(b, i));
    }
    PackLanes(b);
    assert t[1..][1..] == t[2..] && t[2..][1..] == t[3..] && t[3..][1..] == [];
    assert Pack(t[3..]) == Xor(Low(t[3]), Raise(Pack([])));
    assert Pack(t[2..]) == Xor(Low(t[2]), Raise(Pack(t[3..])));
    assert Pack(t[1..]) == Xor(Low(t[1]), Raise(Pack(t[2..])));
  }

  /** Data followed by its own checksum always leaves the same register; by any other word, never. */
  lemma Residue(data: Data, w: Word)
    ensures w == Checksum(data) <==> Fold(SEED, data + LeWord(w)) == BitSteps(SEED, 32)
  {
    hide Xor, BitSteps, Pack, LeWord;
    var s := Fold(SEED, data);
    FoldAppend(SEED, data, LeWord(w));
    FoldWindow(s, LeWord(w));
    PackOfLeWord(w);
    if w == Xor(s, SEED) {
      XorAssoc(s, s, SEED);
      XorSelf(s, SEED);
    }
    if BitSteps(Xor(s, w), 32) == BitSteps(SEED, 32) {
      BitStepsInjective(Xor(s, w), SEED, 32);
      XorAssoc(s, s, SEED);
      XorSelf(s, SEED);
      XorCancel(s, w, Xor(s, SEED));
    }
  }

  lemma XorSelf(a: Word, b: Word)
    ensures Xor(Xor(a, a), b) == b
  {
  }

  // ---------- The reused hasher ----------

  /** The running state of `crc32fast::Hasher`, fed byte by byte. */
  class Hasher {
    var state: Word

    constructor ()
      ensures state == SEED
    {
      state := SEED;
    }

    method Update(data: Data)
      modifies this
      ensures state == Fold(old(state), data)
    {
      for i := 0 to |data|
        invariant state == Fold(old(state), data[..i])
      {
        FoldAppend(old(state), data[..i], [data[i]]);
        assert data[..i + 1] == data[..i] + [data[i]];
        ghost var mixed := Xor(state, Low(data[i]));
        assert Fold(state, [data[i]]) == Fold(ByteStep(state, data[i]), []) == BitSteps(mixed, 8);
        state := Xor(state, Low(data[i]));
        for n := 0 to 8
          invariant state == BitSteps(mixed, n)
        {
          state := BitStep(state);
        }
      }
      assert data[..|data|] == data;
    }

    method Finalize() returns (crc: Word)
      ensures crc == Xor(state, SEED)
    {
      crc := Xor(state, SEED);
    }

    method Reset()
      modifies this
      ensures state == SEED
    {
      state := SEED;
    }
  }

  /** Five piecewise updates, finalize, reset: leaves the hasher as good as new. */
  method CrcHash(hasher: Hasher, op: byte, klen: nat, vlen: nat, key: Data, value: Data) returns (crc: Word)
    modifies hasher
    ensures crc == Xor(Fold(old(hasher.state), [op] + Le32(AsU32(klen)) + Le32(AsU32(vlen)) + key + value), SEED)
    ensures hasher.state == SEED
  {
    hide Le32, AsU32, Xor;
    ghost var s, k, v := hasher.state, Le32(AsU32(klen)), Le32(AsU32(vlen));
    hasher.Update([op]);
    hasher.Update(Le32(AsU32(klen)));
    FoldAppend(s, [op], k);
    hasher.Update(Le32(AsU32(vlen)));
    FoldAppend(s, [op] + k, v);
    hasher.Update(key);
    FoldAppend(s, [op] + k + v, key);
    hasher.Update(value);
    FoldAppend(s, [op] + k + v + key, value);
    crc := hasher.Finalize();
    hasher.Reset();
  }
}
