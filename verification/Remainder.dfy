/** The checksum register is CRC-32: the remainder of the data, as a polynomial over the two-element field, divided by
    the generator polynomial of section 8 of RFC 1952. */
module Remainder {
  import opened Bytes
  import opened Words
  import Crc

  // ---------- Polynomials over the two-element field ----------

  /** The exponents whose coefficient is 1. */
  type Poly = set<nat>

  function Add(a: Poly, b: Poly): Poly {
    (a - b) + (b - a)
  }

  /** `p` times the `k`-th power of x. */
  function Shift(p: Poly, k: nat): Poly {
    set e | e in p :: e + k
  }

  /** `p` times the polynomial with the coefficients `q`, highest power first. */
  function Times(q: seq<bool>, p: Poly): Poly {
    if q == [] then {}
    else Add(Shift(Times(q[..|q| - 1], p), 1), if q[|q| - 1] then p else {})
  }

  /** The generator, by its exponents. */
  const GENERATOR: Poly := {32, 26, 23, 22, 16, 12, 11, 10, 8, 7, 5, 4, 2, 1, 0}

  ghost predicate Multiple(p: Poly) {
    exists q :: p == Times(q, GENERATOR)
  }

  lemma ShiftMember(p: Poly, k: nat, e: nat)
    ensures e in Shift(p, k) <==> e >= k && e - k in p
  {
    if e >= k && e - k in p {
      assert (e - k) + k == e;
    }
  }

  lemma ShiftAdd(a: Poly, b: Poly, k: nat)
    ensures Shift(Add(a, b), k) == Add(Shift(a, k), Shift(b, k))
  {
    hide Shift;
    forall e: nat
      ensures e in Shift(Add(a, b), k) <==> e in Add(Shift(a, k), Shift(b, k))
    {
      ShiftMember(Add(a, b), k, e);
      ShiftMember(a, k, e);
      ShiftMember(b, k, e);
    }
  }

  lemma ShiftShift(p: Poly, j: nat, k: nat)
    ensures Shift(Shift(p, j), k) == Shift(p, j + k)
  {
    hide Shift;
    forall e: nat
      ensures e in Shift(Shift(p, j), k) <==> e in Shift(p, j + k)
    {
      ShiftMember(p, j + k, e);
      ShiftMember(Shift(p, j), k, e);
      if e >= k {
        ShiftMember(p, j, e - k);
      }
    }
  }

  lemma ShiftZero(p: Poly)
    ensures Shift(p, 0) == p
  {
  }

  // ---------- Multiples of the generator ----------

  lemma TimesSnoc(q: seq<bool>, b: bool, p: Poly)
    ensures Times(q + [b], p) == Add(Shift(Times(q, p), 1), if b then p else {})
  {
    assert (q + [b])[..|q|] == q;
  }

  lemma {:induction false} TimesAdd(a: seq<bool>, b: seq<bool>, p: Poly) returns (q: seq<bool>)
    ensures Times(q, p) == Add(Times(a, p), Times(b, p))
  {
    if a == [] {
      q := b;
    } else if b == [] {
      q := a;
    } else {
      var m, n := |a| - 1, |b| - 1;
      var front := TimesAdd(a[..m], b[..n], p);
      q := front + [a[m] != b[n]];
      TimesSnoc(front, a[m] != b[n], p);
      ShiftAdd(Times(a[..m], p), Times(b[..n], p), 1);
      hide Shift;
    }
  }

  lemma MultipleAdd(a: Poly, b: Poly)
    requires Multiple(a) && Multiple(b)
    ensures Multiple(Add(a, b))
  {
    var q, r :| a == Times(q, GENERATOR) && b == Times(r, GENERATOR);
    var sum := TimesAdd(q, r, GENERATOR);
  }

  lemma {:induction false} MultipleShift(a: Poly, k: nat)
    requires Multiple(a)
    ensures Multiple(Shift(a, k))
  {
    if k == 0 {
      ShiftZero(a);
    } else {
      MultipleShift(a, k - 1);
      var q :| Shift(a, k - 1) == Times(q, GENERATOR);
      TimesSnoc(q, false, GENERATOR);
      ShiftShift(a, k - 1, 1);
      assert Times(q + [false], GENERATOR) == Shift(a, k);
    }
  }

  lemma NoMultiple()
    ensures Multiple({})
  {
    assert Times([], GENERATOR) == {};
  }

  lemma OneMultiple()
    ensures Multiple(GENERATOR)
  {
    hide GENERATOR;
    TimesOne(GENERATOR);
  }

  lemma TimesOne(p: Poly)
    ensures Times([true], p) == p
  {
    assert Times([], p) == {};
    TimesSnoc([], true, p);
    assert [] + [true] == [true];
    ShiftEmpty();
    hide Shift, Times;
  }

  /** A multiple of the generator other than 0 has degree 32 or more, so there is only one remainder. */
  lemma {:induction false} MultipleIsHigh(q: seq<bool>)
    ensures Times(q, GENERATOR) == {} || exists e :: e in Times(q, GENERATOR) && e >= 32
    decreases |q|
  {
    if q != [] {
      var front := q[..|q| - 1];
      MultipleIsHigh(front);
      var t := Times(front, GENERATOR);
      hide Times, Shift;
      assert q == front + [q[|q| - 1]];
      TimesSnoc(front, q[|q| - 1], GENERATOR);
      if t == {} {
        ShiftEmpty();
        assert q[|q| - 1] ==> 32 in Times(q, GENERATOR);
      } else {
        var e :| e in t && e >= 32;
        ShiftMember(t, 1, e + 1);
        assert e + 1 !in GENERATOR;
        assert e + 1 in Times(q, GENERATOR);
      }
    }
  }

  lemma ShiftEmpty()
    ensures Shift({}, 1) == {}
  {
  }

  // ---------- Data and register as polynomials ----------

  function Below(n: nat): (p: Poly)
    ensures forall e: nat :: e in p <==> e < n
  {
    if n == 0 then {} else Below(n - 1) + {n - 1}
  }

  /** Binary digit `j` of a number. */
  predicate Digit(n: nat, j: nat) {
    if j == 0 then n % 2 == 1 else Digit(n / 2, j - 1)
  }

  /** One byte, its least significant bit at the highest power: the order in which bits are fed. */
  function ByteTerms(b: byte): Poly {
    set e | e in Below(8) && Digit(b, 7 - e)
  }

  /** The data, first byte at the highest powers. */
  function Message(data: Data): Poly {
    if data == [] then {} else Add(Shift(Message(data[..|data| - 1]), 8), ByteTerms(data[|data| - 1]))
  }

  /** What is divided: the data followed by 32 zero bits, the first 32 bits complemented. */
  function Dividend(data: Data): Poly {
    Add(Shift(Message(data), 32), Shift(Below(32), 8 * |data|))
  }

  function Half(w: bv32): bv32 {
    w >> 1
  }

  predicate Odd(w: bv32) {
    w & 1 == 1
  }

  function Halves(w: bv32, n: nat): bv32 {
    if n == 0 then w else Half(Halves(w, n - 1))
  }

  /** Bit `i` of a register, counted from the least significant one. */
  predicate Tap(w: bv32, i: nat) {
    Odd(Halves(w, i))
  }

  /** A register holds its polynomial with the highest power in the least significant bit. */
  function Coefficients(w: Word): Poly {
    set e | e in Below(32) && Tap(w.bits, 31 - e)
  }

  lemma Coefficient(w: Word, e: nat)
    ensures e in Coefficients(w) <==> e < 32 && Tap(w.bits, 31 - e)
  {
    hide Tap;
  }

  // ---------- One step of the register ----------

  lemma OddXor(a: bv32, b: bv32)
    ensures Odd(Crc.XorBits(a, b)) == (Odd(a) != Odd(b))
    ensures Half(Crc.XorBits(a, b)) == Crc.XorBits(Half(a), Half(b))
  {
  }

  lemma {:induction false} HalvesXor(a: bv32, b: bv32, n: nat)
    ensures Halves(Crc.XorBits(a, b), n) == Crc.XorBits(Halves(a, n), Halves(b, n))
  {
    hide Half, Crc.XorBits;
    if n > 0 {
      HalvesXor(a, b, n - 1);
      OddXor(Halves(a, n - 1), Halves(b, n - 1));
    }
  }

  lemma TapXor(a: bv32, b: bv32, i: nat)
    ensures Tap(Crc.XorBits(a, b), i) == (Tap(a, i) != Tap(b, i))
  {
    hide Half, Odd, Crc.XorBits;
    HalvesXor(a, b, i);
    OddXor(Halves(a, i), Halves(b, i));
  }

  lemma {:induction false} HalfFirst(w: bv32, n: nat)
    ensures Halves(Half(w), n) == Halves(w, n + 1)
  {
    hide Half;
    if n > 0 {
      HalfFirst(w, n - 1);
    }
  }

  lemma EightHalves(w: bv32)
    ensures Half(Half(Half(Half(Half(Half(Half(Half(w)))))))) == w >> 8
  {
  }

  lemma {:induction false} MoreHalves(w: bv32, m: nat, n: nat)
    ensures Halves(Halves(w, m), n) == Halves(w, m + n)
  {
    hide Half;
    if n > 0 {
      MoreHalves(w, m, n - 1);
    }
  }

  lemma HalvesByte(w: bv32)
    ensures Halves(w, 8) == w >> 8
  {
    hide Half;
    EightHalves(w);
    assert Halves(w, 1) == Half(w);
    assert Halves(w, 2) == Half(Half(w));
    assert Halves(w, 4) == Half(Half(Half(Half(w))));
    assert Halves(w, 6) == Half(Half(Half(Half(Half(Half(w))))));
  }

  function Down(w: bv32): bv32 {
    w >> 8
  }

  lemma AllDown(w: bv32)
    ensures Down(Down(Down(Down(w)))) == 0
  {
  }

  /** Nothing is left of a register after 32 bits. */
  lemma AllHalves(w: bv32)
    ensures Halves(w, 32) == 0
  {
    hide Halves, Half, Down;
    HalvesDown(w);
    HalvesDown(Down(w));
    HalvesDown(Down(Down(w)));
    HalvesDown(Down(Down(Down(w))));
    MoreHalves(w, 8, 8);
    MoreHalves(w, 16, 8);
    MoreHalves(w, 24, 8);
    AllDown(w);
  }

  lemma HalvesDown(w: bv32)
    ensures Halves(w, 8) == Down(w)
  {
    HalvesByte(w);
  }

  /** The constant of the implementation has the generator's lower exponents, in the register's order. */
  lemma TapPoly(e: nat)
    requires e < 32
    ensures Tap(Crc.POLY, 31 - e) <==> e in GENERATOR
  {
    assert Halves(Crc.POLY, 1) == 0x76DC4190;
    assert Halves(Crc.POLY, 2) == 0x3B6E20C8;
    assert Halves(Crc.POLY, 3) == 0x1DB71064;
    assert Halves(Crc.POLY, 4) == 0x0EDB8832;
    assert Halves(Crc.POLY, 5) == 0x076DC419;
    assert Halves(Crc.POLY, 6) == 0x03B6E20C;
    assert Halves(Crc.POLY, 7) == 0x01DB7106;
    assert Halves(Crc.POLY, 8) == 0x00EDB883;
    assert Halves(Crc.POLY, 9) == 0x0076DC41;
    assert Halves(Crc.POLY, 10) == 0x003B6E20;
    assert Halves(Crc.POLY, 11) == 0x001DB710;
    assert Halves(Crc.POLY, 12) == 0x000EDB88;
    assert Halves(Crc.POLY, 13) == 0x00076DC4;
    assert Halves(Crc.POLY, 14) == 0x0003B6E2;
    assert Halves(Crc.POLY, 15) == 0x0001DB71;
    assert Halves(Crc.POLY, 16) == 0x0000EDB8;
    assert Halves(Crc.POLY, 17) == 0x000076DC;
    assert Halves(Crc.POLY, 18) == 0x00003B6E;
    assert Halves(Crc.POLY, 19) == 0x00001DB7;
    assert Halves(Crc.POLY, 20) == 0x00000EDB;
    assert Halves(Crc.POLY, 21) == 0x0000076D;
    assert Halves(Crc.POLY, 22) == 0x000003B6;
    assert Halves(Crc.POLY, 23) == 0x000001DB;
    assert Halves(Crc.POLY, 24) == 0x000000ED;
    assert Halves(Crc.POLY, 25) == 0x00000076;
    assert Halves(Crc.POLY, 26) == 0x0000003B;
    assert Halves(Crc.POLY, 27) == 0x0000001D;
    assert Halves(Crc.POLY, 28) == 0x0000000E;
    assert Halves(Crc.POLY, 29) == 0x00000007;
    assert Halves(Crc.POLY, 30) == 0x00000003;
    assert Halves(Crc.POLY, 31) == 0x00000001;
  }

  lemma XorZero(w: bv32)
    ensures Crc.XorBits(w, 0) == w
  {
  }

  lemma StepBits(w: bv32)
    ensures Crc.ShiftBits(w) == Crc.XorBits(Half(w), if Odd(w) then Crc.POLY else 0)
  {
    if w & 1 != 1 {
      hide Crc.XorBits;
      XorZero(w >> 1);
    }
  }

  lemma {:induction false} NoTap(i: nat)
    ensures Halves(0, i) == 0 && !Tap(0, i)
  {
    if i > 0 {
      NoTap(i - 1);
    }
  }

  lemma TapStep(w: bv32, i: nat)
    requires i < 32
    ensures Tap(Crc.ShiftBits(w), i) == ((i < 31 && Tap(w, i + 1)) != (Tap(w, 0) && Tap(Crc.POLY, i)))
  {
    hide Half, Odd, Crc.ShiftBits, Crc.XorBits, Crc.POLY;
    StepBits(w);
    var off := if Odd(w) then Crc.POLY else 0;
    TapXor(Half(w), off, i);
    HalfFirst(w, i);
    NoTap(i);
    NoTap(0);
    if i == 31 {
      AllHalves(w);
    }
    assert Halves(w, 0) == w;
  }

  /** One step multiplies by x and takes the generator off when the degree reaches 32. */
  lemma StepLaw(w: Word)
    ensures Multiple(Add(Shift(Coefficients(w), 1), Coefficients(Crc.BitStep(w))))
  {
    hide Tap, Crc.ShiftBits, Shift, Coefficients;
    var a, b := Shift(Coefficients(w), 1), Coefficients(Crc.BitStep(w));
    var off := if Tap(w.bits, 0) then GENERATOR else {};
    forall e: nat
      ensures e in Add(a, b) <==> e in off
    {
      ShiftMember(Coefficients(w), 1, e);
      Coefficient(Crc.BitStep(w), e);
      if e > 0 {
        Coefficient(w, e - 1);
      }
      Coefficient(w, 31);
      if e < 32 {
        TapStep(w.bits, 31 - e);
        TapPoly(e);
      }
    }
    assert Add(a, b) == off;
    NoMultiple();
    OneMultiple();
  }

  lemma {:induction false} StepsLaw(w: Word, n: nat)
    ensures Multiple(Add(Shift(Coefficients(w), n), Coefficients(Crc.BitSteps(w, n))))
  {
    hide Shift, Coefficients, Crc.BitStep, Multiple;
    var a := Coefficients(w);
    if n == 0 {
      ShiftZero(a);
      NoMultiple();
      assert Add(a, a) == {};
    } else {
      var b, c := Coefficients(Crc.BitSteps(w, n - 1)), Coefficients(Crc.BitSteps(w, n));
      StepsLaw(w, n - 1);
      StepLaw(Crc.BitSteps(w, n - 1));
      MultipleShift(Add(Shift(a, n - 1), b), 1);
      ShiftAdd(Shift(a, n - 1), b, 1);
      ShiftShift(a, n - 1, 1);
      MultipleAdd(Add(Shift(a, n), Shift(b, 1)), Add(Shift(b, 1), c));
      assert Add(Add(Shift(a, n), Shift(b, 1)), Add(Shift(b, 1), c)) == Add(Shift(a, n), c);
    }
  }

  lemma CoefficientsXor(a: Word, b: Word)
    ensures Coefficients(Crc.Xor(a, b)) == Add(Coefficients(a), Coefficients(b))
  {
    hide Tap;
    forall i: nat
      ensures Tap(Crc.Xor(a, b).bits, i) == (Tap(a.bits, i) != Tap(b.bits, i))
    {
      TapXor(a.bits, b.bits, i);
    }
  }

  lemma CoefficientsOfOnes()
    ensures Coefficients(Crc.SEED) == Below(32)
  {
    forall i: nat | i < 32
      ensures Tap(0xFFFF_FFFF, i)
    {
      SeedTap(i);
    }
  }

  lemma SeedTap(i: nat)
    requires i < 32
    ensures Tap(0xFFFF_FFFF, i)
  {
    assert Halves(0xFFFF_FFFF, 1) == 0x7FFFFFFF;
    assert Halves(0xFFFF_FFFF, 2) == 0x3FFFFFFF;
    assert Halves(0xFFFF_FFFF, 3) == 0x1FFFFFFF;
    assert Halves(0xFFFF_FFFF, 4) == 0x0FFFFFFF;
    assert Halves(0xFFFF_FFFF, 5) == 0x07FFFFFF;
    assert Halves(0xFFFF_FFFF, 6) == 0x03FFFFFF;
    assert Halves(0xFFFF_FFFF, 7) == 0x01FFFFFF;
    assert Halves(0xFFFF_FFFF, 8) == 0x00FFFFFF;
    assert Halves(0xFFFF_FFFF, 9) == 0x007FFFFF;
    assert Halves(0xFFFF_FFFF, 10) == 0x003FFFFF;
    assert Halves(0xFFFF_FFFF, 11) == 0x001FFFFF;
    assert Halves(0xFFFF_FFFF, 12) == 0x000FFFFF;
    assert Halves(0xFFFF_FFFF, 13) == 0x0007FFFF;
    assert Halves(0xFFFF_FFFF, 14) == 0x0003FFFF;
    assert Halves(0xFFFF_FFFF, 15) == 0x0001FFFF;
    assert Halves(0xFFFF_FFFF, 16) == 0x0000FFFF;
    assert Halves(0xFFFF_FFFF, 17) == 0x00007FFF;
    assert Halves(0xFFFF_FFFF, 18) == 0x00003FFF;
    assert Halves(0xFFFF_FFFF, 19) == 0x00001FFF;
    assert Halves(0xFFFF_FFFF, 20) == 0x00000FFF;
    assert Halves(0xFFFF_FFFF, 21) == 0x000007FF;
    assert Halves(0xFFFF_FFFF, 22) == 0x000003FF;
    assert Halves(0xFFFF_FFFF, 23) == 0x000001FF;
    assert Halves(0xFFFF_FFFF, 24) == 0x000000FF;
    assert Halves(0xFFFF_FFFF, 25) == 0x0000007F;
    assert Halves(0xFFFF_FFFF, 26) == 0x0000003F;
    assert Halves(0xFFFF_FFFF, 27) == 0x0000001F;
    assert Halves(0xFFFF_FFFF, 28) == 0x0000000F;
    assert Halves(0xFFFF_FFFF, 29) == 0x00000007;
    assert Halves(0xFFFF_FFFF, 30) == 0x00000003;
    assert Halves(0xFFFF_FFFF, 31) == 0x00000001;
  }

  // ---------- One byte ----------

  lemma WidenHalf(v: bv8)
    ensures Half(Crc.Widen(v)) == Crc.Widen(v >> 1) && (Odd(Crc.Widen(v)) <==> v & 1 == 1)
  {
  }

  lemma {:induction false} LanesTap(v: bv8, k: nat, i: nat)
    requires i < k
    ensures Lanes(v, k)[i] == Tap(Crc.Widen(v), i)
    decreases k
  {
    hide Half, Odd, Crc.Widen;
    WidenHalf(v);
    if i > 0 {
      LanesTap(v >> 1, k - 1, i - 1);
      HalfFirst(Crc.Widen(v), i - 1);
    } else {
      assert Halves(Crc.Widen(v), 0) == Crc.Widen(v);
    }
  }

  lemma {:induction false} BitsDigit(n: nat, k: nat, i: nat)
    requires i < k
    ensures Bits(n, k)[i] == Digit(n, i)
    decreases k
  {
    if i > 0 {
      BitsDigit(n / 2, k - 1, i - 1);
    }
  }

  lemma ByteTap(b: byte, i: nat)
    requires i < 8
    ensures Tap(Crc.Low(b).bits, i) == Digit(b, i)
  {
    hide Tap, Digit, Lanes, Bits, Join;
    LanesOfJoin(Bits(b, 8));
    LanesTap(FromByte(b), 8, i);
    BitsDigit(b, 8, i);
  }

  lemma WideHigh(v: bv8)
    ensures Down(Crc.Widen(v)) == 0
  {
  }

  lemma HighTap(b: byte, i: nat)
    requires i >= 8
    ensures !Tap(Crc.Low(b).bits, i)
  {
    hide Half, Down, Crc.Widen, FromByte;
    var w := Crc.Low(b).bits;
    HalvesDown(w);
    WideHigh(FromByte(b));
    MoreHalves(w, 8, i - 8);
    NoTap(i - 8);
  }

  lemma ByteTerm(b: byte, k: nat)
    ensures k in ByteTerms(b) <==> k < 8 && Digit(b, 7 - k)
  {
    hide Digit;
  }

  lemma CoefficientsOfByte(b: byte)
    ensures Coefficients(Crc.Low(b)) == Shift(ByteTerms(b), 24)
  {
    hide Tap, Digit, Shift, Crc.Low, Coefficients, ByteTerms;
    forall e: nat
      ensures e in Coefficients(Crc.Low(b)) <==> e in Shift(ByteTerms(b), 24)
    {
      ShiftMember(ByteTerms(b), 24, e);
      Coefficient(Crc.Low(b), e);
      if 24 <= e < 32 {
        ByteTerm(b, e - 24);
        ByteTap(b, 31 - e);
        assert 7 - (e - 24) == 31 - e;
      } else if e < 24 {
        HighTap(b, 31 - e);
      } else {
        ByteTerm(b, e - 24);
      }
    }
  }

  // ---------- The law ----------

  lemma MessageSnoc(data: Data, b: byte)
    ensures Message(data + [b]) == Add(Shift(Message(data), 8), ByteTerms(b))
  {
    hide Shift, ByteTerms, Add;
    assert (data + [b])[..|data|] == data;
  }

  lemma DividendIs(data: Data)
    ensures Dividend(data) == Add(Shift(Message(data), 32), Shift(Below(32), 8 * |data|))
  {
    hide Shift, Message, Add;
  }

  lemma DividendSnoc(data: Data, b: byte)
    ensures Dividend(data + [b]) == Add(Shift(Dividend(data), 8), Shift(ByteTerms(b), 32))
  {
    hide *;
    var m, n := Message(data), 8 * |data|;
    MessageSnoc(data, b);
    DividendIs(data);
    DividendIs(data + [b]);
    ShiftAdd(Shift(m, 8), ByteTerms(b), 32);
    ShiftAdd(Shift(m, 32), Shift(Below(32), n), 8);
    ShiftShift(m, 8, 32);
    ShiftShift(m, 32, 8);
    ShiftShift(Below(32), n, 8);
    assert 8 * |data + [b]| == n + 8;
    AddSwap(Shift(m, 40), Shift(ByteTerms(b), 32), Shift(Below(32), n + 8));
  }

  lemma AddSwap(a: Poly, b: Poly, c: Poly)
    ensures Add(Add(a, b), c) == Add(Add(a, c), b)
  {
  }

  lemma {:induction false} FoldLaw(data: Data)
    ensures Multiple(Add(Dividend(data), Coefficients(Crc.Fold(Crc.SEED, data))))
    decreases |data|
  {
    hide Shift, Coefficients, Multiple, Crc.BitSteps, Crc.Xor, ByteTerms, Dividend, Add;
    if data == [] {
      EmptyLaw();
    } else {
      var n := |data| - 1;
      var front, b := data[..n], data[n];
      assert data == front + [b];
      FoldLaw(front);
      Crc.FoldAppend(Crc.SEED, front, [b]);
      FoldOne(Crc.Fold(Crc.SEED, front), b);
      DividendSnoc(front, b);
      ByteLaw(Dividend(front), Crc.Fold(Crc.SEED, front), b);
    }
  }

  lemma FoldOne(s: Word, b: byte)
    ensures Crc.Fold(s, [b]) == Crc.BitSteps(Crc.Xor(s, Crc.Low(b)), 8)
  {
    assert [b][1..] == [];
    assert Crc.Fold(s, [b]) == Crc.Fold(Crc.ByteStep(s, b), []);
  }

  lemma EmptyLaw()
    ensures Multiple(Add(Dividend([]), Coefficients(Crc.Fold(Crc.SEED, []))))
  {
    hide Coefficients;
    CoefficientsOfOnes();
    ShiftZero(Below(32));
    NoMultiple();
    assert Shift({}, 32) == {};
    assert Dividend([]) == Below(32);
    assert Add(Below(32), Below(32)) == {};
  }

  /** One more byte keeps dividend and register congruent. */
  lemma ByteLaw(d: Poly, s: Word, b: byte)
    requires Multiple(Add(d, Coefficients(s)))
    ensures var t := Crc.BitSteps(Crc.Xor(s, Crc.Low(b)), 8);
            Multiple(Add(Add(Shift(d, 8), Shift(ByteTerms(b), 32)), Coefficients(t)))
  {
    hide Shift, Coefficients, Multiple, Crc.BitSteps, Crc.Xor, ByteTerms, Crc.Low;
    var r, t, x := Coefficients(s), Coefficients(Crc.BitSteps(Crc.Xor(s, Crc.Low(b)), 8)), Shift(ByteTerms(b), 24);
    MultipleShift(Add(d, r), 8);
    ShiftAdd(d, r, 8);
    StepsLaw(Crc.Xor(s, Crc.Low(b)), 8);
    CoefficientsXor(s, Crc.Low(b));
    CoefficientsOfByte(b);
    ShiftAdd(r, x, 8);
    ShiftShift(ByteTerms(b), 24, 8);
    MultipleAdd(Add(Shift(d, 8), Shift(r, 8)), Add(Add(Shift(r, 8), Shift(x, 8)), t));
    assert Add(Add(Shift(d, 8), Shift(r, 8)), Add(Add(Shift(r, 8), Shift(x, 8)), t))
           == Add(Add(Shift(d, 8), Shift(x, 8)), t);
  }

  lemma {:induction false} SameCoefficients(a: Word, b: Word)
    requires Coefficients(a) == Coefficients(b)
    ensures a == b
  {
    forall i: nat | i < 32
      ensures Tap(a.bits, i) == Tap(b.bits, i)
    {
      assert (31 - i) in Coefficients(a) <==> (31 - i) in Coefficients(b);
      assert 31 - (31 - i) == i;
    }
    hide Tap, Coefficients;
    SameTaps(a.bits, b.bits, 32);
  }

  lemma HalfDetermines(a: bv32, b: bv32)
    requires Half(a) == Half(b) && Odd(a) == Odd(b)
    ensures a == b
  {
  }

  lemma {:induction false} SameTaps(a: bv32, b: bv32, n: nat)
    requires n <= 32 && forall i: nat | i < 32 :: Tap(a, i) == Tap(b, i)
    ensures Halves(a, 32 - n) == Halves(b, 32 - n)
    decreases n
  {
    hide Half, Odd;
    if n == 0 {
      AllHalves(a);
      AllHalves(b);
    } else {
      SameTaps(a, b, n - 1);
      assert Tap(a, 32 - n) == Tap(b, 32 - n);
      HalfDetermines(Halves(a, 32 - n), Halves(b, 32 - n));
    }
  }

  /** The checksum is CRC-32 and nothing else is: `w` is the checksum of the data exactly when its complement, as a
      polynomial of degree below 32, is the remainder of the dividend divided by the generator. */
  lemma ChecksumIsRemainder(data: Data, w: Word)
    ensures w == Crc.Checksum(data) <==> Multiple(Add(Dividend(data), Coefficients(Crc.Xor(w, Crc.SEED))))
  {
    hide Shift, Multiple, Crc.Fold, Crc.Xor, Dividend, Coefficients;
    var s, v := Crc.Fold(Crc.SEED, data), Crc.Xor(w, Crc.SEED);
    FoldLaw(data);
    Complement(s);
    Complement(w);
    if Multiple(Add(Dividend(data), Coefficients(v))) {
      OneRemainder(Dividend(data), s, v);
    }
  }

  lemma Complement(w: Word)
    ensures Crc.Xor(Crc.Xor(w, Crc.SEED), Crc.SEED) == w
  {
  }

  lemma OneRemainder(d: Poly, a: Word, b: Word)
    requires Multiple(Add(d, Coefficients(a))) && Multiple(Add(d, Coefficients(b)))
    ensures a == b
  {
    hide Shift, Tap;
    MultipleAdd(Add(d, Coefficients(a)), Add(d, Coefficients(b)));
    assert Add(Add(d, Coefficients(a)), Add(d, Coefficients(b))) == Add(Coefficients(a), Coefficients(b));
    var q :| Add(Coefficients(a), Coefficients(b)) == Times(q, GENERATOR);
    MultipleIsHigh(q);
    hide Times;
    assert Coefficients(a) == Coefficients(b);
    SameCoefficients(a, b);
  }

  // ---------- The check value ----------

  function Eight(s: bv32): bv32 {
    Crc.ShiftBits(Crc.ShiftBits(Crc.ShiftBits(Crc.ShiftBits(
      Crc.ShiftBits(Crc.ShiftBits(Crc.ShiftBits(Crc.ShiftBits(s))))))))
  }

  lemma EightSteps(s: Word)
    ensures Crc.BitSteps(s, 8).bits == Eight(s.bits)
  {
    hide Crc.ShiftBits;
    Crc.FourSteps(s);
    Crc.FourSteps(Crc.BitSteps(s, 4));
    Crc.BitStepsAdd(s, 4, 4);
  }

  predicate Turns(before: bv32, b: byte, after: bv32) {
    Eight(before ^ Crc.Widen(FromByte(b))) == after
  }

  lemma Turn(before: bv32, b: byte, v: bv8, after: bv32)
    requires ToByte(v) == b && Eight(before ^ Crc.Widen(v)) == after
    ensures Turns(before, b, after)
  {
    hide Eight, ToByte, FromByte, Crc.Widen;
    ToByteRoundTrip(v);
  }

  lemma OneTurn(before: bv32, b: byte, after: bv32)
    requires Turns(before, b, after)
    ensures Crc.ByteStep(Word(before), b) == Word(after)
  {
    hide Eight, Crc.BitSteps, FromByte, Crc.Widen;
    EightSteps(Crc.Xor(Word(before), Crc.Low(b)));
  }

  /** The register after some data, by its values on the way. */
  lemma {:induction false} FoldsTo(data: Data, values: seq<bv32>)
    requires |values| == |data| + 1 && forall i | 0 <= i < |data| :: Turns(values[i], data[i], values[i + 1])
    ensures Crc.Fold(Word(values[0]), data) == Word(values[|data|])
    decreases |data|
  {
    hide Turns, Crc.ByteStep;
    if data != [] {
      OneTurn(values[0], data[0], values[1]);
      FoldsTo(data[1..], values[1..]);
    }
  }

  lemma ChecksumBySteps(data: Data, values: seq<bv32>, value: bv32)
    requires |values| == |data| + 1 && forall i | 0 <= i < |data| :: Turns(values[i], data[i], values[i + 1])
    requires values[0] == 0xFFFF_FFFF && values[|data|] ^ 0xFFFF_FFFF == value
    ensures Crc.Checksum(data) == Word(value)
  {
    hide Turns, Crc.Fold;
    FoldsTo(data, values);
  }

  lemma DigitTurns()
    ensures Turns(0xFFFF_FFFF, 0x31, 0x7C23_1048)
    ensures Turns(0x7C23_1048, 0x32, 0xB0AC_BB32)
    ensures Turns(0xB0AC_BB32, 0x33, 0x77B7_9C2D)
    ensures Turns(0x77B7_9C2D, 0x34, 0x641C_1F5C)
    ensures Turns(0x641C_1F5C, 0x35, 0x340A_C5E3)
    ensures Turns(0x340A_C5E3, 0x36, 0xF68D_2C9E)
    ensures Turns(0xF68D_2C9E, 0x37, 0xAFFC_9660)
    ensures Turns(0xAFFC_9660, 0x38, 0x651F_2550)
    ensures Turns(0x651F_2550, 0x39, 0x340B_C6D9)
  {
    hide Turns;
    Turn(0xFFFF_FFFF, 0x31, 0x31, 0x7C23_1048);
    Turn(0x7C23_1048, 0x32, 0x32, 0xB0AC_BB32);
    Turn(0xB0AC_BB32, 0x33, 0x33, 0x77B7_9C2D);
    Turn(0x77B7_9C2D, 0x34, 0x34, 0x641C_1F5C);
    Turn(0x641C_1F5C, 0x35, 0x35, 0x340A_C5E3);
    Turn(0x340A_C5E3, 0x36, 0x36, 0xF68D_2C9E);
    Turn(0xF68D_2C9E, 0x37, 0x37, 0xAFFC_9660);
    Turn(0xAFFC_9660, 0x38, 0x38, 0x651F_2550);
    Turn(0x651F_2550, 0x39, 0x39, 0x340B_C6D9);
  }

  /** The check value that catalogues of checksums give for CRC-32: that of the ASCII digits 1 to 9. */
  lemma CheckValue()
    ensures Crc.Checksum([0x31, 0x32, 0x33, 0x34, 0x35, 0x36, 0x37, 0x38, 0x39]) == Word(0xCBF4_3926)
  {
    hide *;
    DigitTurns();
    ChecksumBySteps([0x31, 0x32, 0x33, 0x34, 0x35, 0x36, 0x37, 0x38, 0x39],
                    [0xFFFF_FFFF, 0x7C23_1048, 0xB0AC_BB32, 0x77B7_9C2D, 0x641C_1F5C, 0x340A_C5E3, 0xF68D_2C9E,
                     0xAFFC_9660, 0x651F_2550, 0x340B_C6D9], 0xCBF4_3926);
  }
}
