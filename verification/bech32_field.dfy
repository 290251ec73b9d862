/** The field with 1024 elements over which the checksum is a BCH code: pairs of five-bit values, where
    e * e = 9 * e + 23. Only multiplication by powers of e is needed; it is linear. */
module Bech32Field {
  import opened Bech32Checksum

  // ---------- Linear maps of ten bits ----------

  datatype Five = Five(a0: bv32, a1: bv32, a2: bv32, a3: bv32, a4: bv32)

  /** A linear map by the images of the ten bits. */
  datatype Ten = Ten(lo: Five, hi: Five)

  function Sum(f: Five, b0: bool, b1: bool, b2: bool, b3: bool, b4: bool): bv32 {
    Add(Add(Add(Add(Add(0, b0, f.a0), b1, f.a1), b2, f.a2), b3, f.a3), b4, f.a4)
  }

  /** The sum of the images of the five low bits of v. */
  function Mix(f: Five, v: bv32): bv32 {
    Sum(f, Bit0(v), Bit1(v), Bit2(v), Bit3(v), Bit4(v))
  }

  function Apply(t: Ten, v: bv32): bv32 {
    Xor(Mix(t.lo, v), Mix(t.hi, Drop(v)))
  }

  lemma {:induction false} SumXor(f: Five, p0: bool, p1: bool, p2: bool, p3: bool, p4: bool,
                                  q0: bool, q1: bool, q2: bool, q3: bool, q4: bool)
    ensures Sum(f, p0 != q0, p1 != q1, p2 != q2, p3 != q3, p4 != q4) == Xor(Sum(f, p0, p1, p2, p3, p4), Sum(f, q0, q1, q2, q3, q4))
  {
    hide Xor, Add;
    var d1, e1 := Add(0, p0, f.a0), Add(0, q0, f.a0);
    var d2, e2 := Add(d1, p1, f.a1), Add(e1, q1, f.a1);
    var d3, e3 := Add(d2, p2, f.a2), Add(e2, q2, f.a2);
    var d4, e4 := Add(d3, p3, f.a3), Add(e3, q3, f.a3);
    XorSelf(0);
    AddXor(0, 0, p0, q0, f.a0);
    AddXor(d1, e1, p1, q1, f.a1);
    AddXor(d2, e2, p2, q2, f.a2);
    AddXor(d3, e3, p3, q3, f.a3);
    AddXor(d4, e4, p4, q4, f.a4);
  }

  lemma {:induction false} MixXor(f: Five, a: bv32, b: bv32)
    ensures Mix(f, Xor(a, b)) == Xor(Mix(f, a), Mix(f, b))
  {
    hide Xor, Sum, Bit0, Bit1, Bit2, Bit3, Bit4;
    BitsXor(a, b);
    SumXor(f, Bit0(a), Bit1(a), Bit2(a), Bit3(a), Bit4(a), Bit0(b), Bit1(b), Bit2(b), Bit3(b), Bit4(b));
  }

  lemma DropXor(a: bv32, b: bv32)
    ensures Drop(Xor(a, b)) == Xor(Drop(a), Drop(b)) && Drop(0) == 0
  {
  }

  lemma {:induction false} ApplyXor(t: Ten, a: bv32, b: bv32)
    ensures Apply(t, Xor(a, b)) == Xor(Apply(t, a), Apply(t, b))
  {
    hide Xor, Mix, Drop;
    DropXor(a, b);
    MixXor(t.lo, a, b);
    MixXor(t.hi, Drop(a), Drop(b));
    XorSwap(Mix(t.lo, a), Mix(t.lo, b), Mix(t.hi, Drop(a)), Mix(t.hi, Drop(b)));
  }

  lemma {:induction false} ApplyZero(t: Ten)
    ensures Apply(t, 0) == 0
  {
    hide Xor, Bit0, Bit1, Bit2, Bit3, Bit4, Drop;
    NoBits();
    DropXor(0, 0);
    XorSelf(0);
  }

  lemma {:induction false} ApplyAdd(t: Ten, d: bv32, b: bool, k: bv32)
    ensures Apply(t, Add(d, b, k)) == Add(Apply(t, d), b, Apply(t, k))
  {
    hide Xor, Apply;
    ApplyXor(t, d, k);
  }

  function Image(s: Ten, f: Five): Five {
    Five(Apply(s, f.a0), Apply(s, f.a1), Apply(s, f.a2), Apply(s, f.a3), Apply(s, f.a4))
  }

  function Compose(s: Ten, t: Ten): Ten {
    Ten(Image(s, t.lo), Image(s, t.hi))
  }

  lemma {:induction false} ApplySum(s: Ten, f: Five, b0: bool, b1: bool, b2: bool, b3: bool, b4: bool)
    ensures Apply(s, Sum(f, b0, b1, b2, b3, b4)) == Sum(Image(s, f), b0, b1, b2, b3, b4)
  {
    hide Add, Apply;
    var d1 := Add(0, b0, f.a0);
    var d2 := Add(d1, b1, f.a1);
    var d3 := Add(d2, b2, f.a2);
    var d4 := Add(d3, b3, f.a3);
    ApplyZero(s);
    ApplyAdd(s, 0, b0, f.a0);
    ApplyAdd(s, d1, b1, f.a1);
    ApplyAdd(s, d2, b2, f.a2);
    ApplyAdd(s, d3, b3, f.a3);
    ApplyAdd(s, d4, b4, f.a4);
  }

  lemma {:induction false} Composed(s: Ten, t: Ten, v: bv32)
    ensures Apply(s, Apply(t, v)) == Apply(Compose(s, t), v)
  {
    hide Xor, Sum, Drop, Bit0, Bit1, Bit2, Bit3, Bit4;
    var w := Drop(v);
    ApplyXor(s, Mix(t.lo, v), Mix(t.hi, w));
    ApplySum(s, t.lo, Bit0(v), Bit1(v), Bit2(v), Bit3(v), Bit4(v));
    ApplySum(s, t.hi, Bit0(w), Bit1(w), Bit2(w), Bit3(w), Bit4(w));
  }

  // ---------- Multiplication by powers of e ----------

  const E1 := Ten(Five(32, 64, 128, 256, 512), Five(311, 583, 430, 860, 945))
  const E2 := Ten(Five(311, 583, 430, 860, 945), Five(139, 278, 517, 298, 596))
  const E4 := Ten(Five(206, 412, 785, 811, 886), Five(553, 370, 717, 186, 349))
  const E5 := Ten(Five(553, 370, 717, 186, 349), Five(934, 620, 504, 985, 699))
  const E8 := Ten(Five(537, 315, 607, 439, 839), Five(145, 267, 534, 293, 586))
  const E16 := Ten(Five(675, 102, 204, 408, 793), Five(840, 944, 617, 498, 973))
  const E21 := Ten(Five(958, 629, 483, 966, 684), Five(948, 609, 482, 964, 680))
  const E32 := Ten(Five(41, 82, 141, 282, 541), Five(23, 7, 14, 28, 17))
  const E33 := Ten(Five(23, 7, 14, 28, 17), Five(736, 224, 448, 896, 544))
  const E64 := Ten(Five(292, 584, 432, 841, 946), Five(747, 246, 453, 906, 564))
  const E85 := Ten(Five(403, 783, 830, 885, 995), Five(146, 269, 538, 317, 595))
  const E93 := Ten(Five(854, 933, 618, 500, 961), Five(106, 212, 385, 770, 804))
  const E128 := Ten(Five(209, 395, 790, 805, 874), Five(457, 914, 557, 378, 733))
  const E144 := Ten(Five(99, 198, 396, 792, 825), Five(784, 809, 882, 1005, 762))
  const E256 := Ten(Five(516, 296, 592, 425, 850), Five(817, 875, 1014, 741, 234))
  const E341 := Ten(Five(365, 730, 189, 339, 655), Five(396, 792, 825, 891, 1023))
  const E485 := Ten(Five(291, 582, 428, 856, 953), Five(523, 310, 581, 426, 852))
  const E512 := Ten(Five(698, 125, 211, 399, 798), Five(104, 208, 393, 786, 813))
  const E997 := Ten(Five(445, 851, 943, 638, 501), Five(101, 202, 404, 769, 802))
  const E998 := Ten(Five(101, 202, 404, 769, 802), Five(976, 681, 114, 205, 410))
  const E999 := Ten(Five(976, 681, 114, 205, 410), Five(260, 520, 304, 585, 434))

  /** v times e^n. */
  function Times(n: nat, v: bv32): bv32 {
    if n == 0 then v else Apply(E1, Times(n - 1, v))
  }

  lemma {:induction false} TimesAdd(m: nat, n: nat, v: bv32)
    ensures Times(m + n, v) == Times(m, Times(n, v))
  {
    hide Apply;
    if m > 0 { TimesAdd(m - 1, n, v); }
  }

  /** The table t is multiplication by e^n. */
  ghost predicate Is(n: nat, t: Ten) {
    forall v :: Times(n, v) == Apply(t, v)
  }

  lemma {:induction false} IsOne()
    ensures Is(1, E1)
  {
    hide Apply;
    forall v: bv32 ensures Times(1, v) == Apply(E1, v) {
      assert Times(0, v) == v;
    }
  }

  lemma {:induction false} IsComposed(m: nat, s: Ten, n: nat, t: Ten)
    requires Is(m, s) && Is(n, t)
    ensures Is(m + n, Compose(s, t))
  {
    hide Apply, Compose, Times;
    forall v: bv32 ensures Times(m + n, v) == Apply(Compose(s, t), v) {
      TimesAdd(m, n, v);
      Composed(s, t, v);
    }
  }

  lemma Product2()
    ensures Compose(E1, E1) == E2
  {
  }

  lemma Product4()
    ensures Compose(E2, E2) == E4
  {
  }

  lemma Product8()
    ensures Compose(E4, E4) == E8
  {
  }

  lemma Product16()
    ensures Compose(E8, E8) == E16
  {
  }

  lemma Product32()
    ensures Compose(E16, E16) == E32
  {
  }

  lemma Product64()
    ensures Compose(E32, E32) == E64
  {
  }

  lemma Product128()
    ensures Compose(E64, E64) == E128
  {
  }

  lemma Product256()
    ensures Compose(E128, E128) == E256
  {
  }

  lemma Product512()
    ensures Compose(E256, E256) == E512
  {
  }

  lemma Product5()
    ensures Compose(E4, E1) == E5
  {
  }

  lemma Product21()
    ensures Compose(E16, E5) == E21
  {
  }

  lemma Product85()
    ensures Compose(E64, E21) == E85
  {
  }

  lemma Product341()
    ensures Compose(E256, E85) == E341
  {
  }

  lemma Product93()
    ensures Compose(E85, E8) == E93
  {
  }

  lemma Product33()
    ensures Compose(E32, E1) == E33
  {
  }

  lemma Product144()
    ensures Compose(E128, E16) == E144
  {
  }

  lemma Product485()
    ensures Compose(E341, E144) == E485
  {
  }

  lemma Product997()
    ensures Compose(E512, E485) == E997
  {
  }

  lemma Product998()
    ensures Compose(E997, E1) == E998
  {
  }

  lemma Product999()
    ensures Compose(E998, E1) == E999
  {
  }

  lemma Product1024()
    ensures Compose(E512, E512) == E1
  {
  }

  /** The powers the proofs use; in particular e^1024 = e. */
  lemma {:induction false} Powers()
    ensures Is(33, E33) && Is(93, E93) && Is(341, E341) && Is(1024, E1)
    ensures Is(997, E997) && Is(998, E998) && Is(999, E999)
  {
    hide Is, Compose;
    IsOne();
    Product2();
    IsComposed(1, E1, 1, E1);
    Product4();
    IsComposed(2, E2, 2, E2);
    Product8();
    IsComposed(4, E4, 4, E4);
    Product16();
    IsComposed(8, E8, 8, E8);
    Product32();
    IsComposed(16, E16, 16, E16);
    Product64();
    IsComposed(32, E32, 32, E32);
    Product128();
    IsComposed(64, E64, 64, E64);
    Product256();
    IsComposed(128, E128, 128, E128);
    Product512();
    IsComposed(256, E256, 256, E256);
    Product5();
    IsComposed(4, E4, 1, E1);
    Product21();
    IsComposed(16, E16, 5, E5);
    Product85();
    IsComposed(64, E64, 21, E21);
    Product341();
    IsComposed(256, E256, 85, E85);
    Product93();
    IsComposed(85, E85, 8, E8);
    Product33();
    IsComposed(32, E32, 1, E1);
    Product144();
    IsComposed(128, E128, 16, E16);
    Product485();
    IsComposed(341, E341, 144, E144);
    Product997();
    IsComposed(512, E512, 485, E485);
    Product998();
    IsComposed(997, E997, 1, E1);
    Product999();
    IsComposed(998, E998, 1, E1);
    Product1024();
    IsComposed(512, E512, 512, E512);
  }

  lemma Inverse33(v: bv32)
    requires v < 1024 && Apply(E33, v) == v
    ensures v == 0
  {
  }

  lemma Inverse93(v: bv32)
    requires v < 1024 && Apply(E93, v) == v
    ensures v == 0
  {
  }

  lemma Inverse341(v: bv32)
    requires v < 1024 && Apply(E341, v) == v
    ensures v == 0
  {
  }

  lemma Inverse1(v: bv32)
    requires v < 1024 && Apply(E1, v) == 0
    ensures v == 0
  {
  }

  lemma OneImages()
    ensures Apply(E997, 1) == 0x1bd && Apply(E998, 1) == 0x065 && Apply(E999, 1) == 0x3d0
  {
  }

  /** The three powers as elements of the field. */
  lemma {:induction false} ThreePowers()
    ensures Times(997, 1) == 0x1bd && Times(998, 1) == 0x065 && Times(999, 1) == 0x3d0
  {
    hide Is, Apply, Times;
    Powers();
    Unfold(997, E997, 1);
    Unfold(998, E998, 1);
    Unfold(999, E999, 1);
    OneImages();
  }

  // ---------- The order of e ----------

  lemma SmallAdd(d: bv32, b: bool, k: bv32)
    requires d < 1024 && k < 1024
    ensures Add(d, b, k) < 1024
  {
  }

  lemma {:induction false} SumSmall(f: Five, b0: bool, b1: bool, b2: bool, b3: bool, b4: bool)
    requires f.a0 < 1024 && f.a1 < 1024 && f.a2 < 1024 && f.a3 < 1024 && f.a4 < 1024
    ensures Sum(f, b0, b1, b2, b3, b4) < 1024
  {
    hide Add;
    var d1 := Add(0, b0, f.a0);
    var d2 := Add(d1, b1, f.a1);
    var d3 := Add(d2, b2, f.a2);
    var d4 := Add(d3, b3, f.a3);
    SmallAdd(0, b0, f.a0);
    SmallAdd(d1, b1, f.a1);
    SmallAdd(d2, b2, f.a2);
    SmallAdd(d3, b3, f.a3);
    SmallAdd(d4, b4, f.a4);
  }

  lemma SmallXor(a: bv32, b: bv32)
    requires a < 1024 && b < 1024
    ensures Xor(a, b) < 1024
  {
  }

  lemma {:induction false} TimesSmall(n: nat, v: bv32)
    requires v < 1024
    ensures Times(n, v) < 1024
  {
    hide Xor, Sum, Drop, Bit0, Bit1, Bit2, Bit3, Bit4;
    if n > 0 {
      TimesSmall(n - 1, v);
      var u := Times(n - 1, v);
      var w := Drop(u);
      SumSmall(E1.lo, Bit0(u), Bit1(u), Bit2(u), Bit3(u), Bit4(u));
      SumSmall(E1.hi, Bit0(w), Bit1(w), Bit2(w), Bit3(w), Bit4(w));
      SmallXor(Mix(E1.lo, u), Mix(E1.hi, w));
    }
  }

  lemma {:induction false} TimesXor(n: nat, a: bv32, b: bv32)
    ensures Times(n, Xor(a, b)) == Xor(Times(n, a), Times(n, b))
  {
    hide Xor, Apply;
    if n > 0 {
      TimesXor(n - 1, a, b);
      ApplyXor(E1, Times(n - 1, a), Times(n - 1, b));
    }
  }

  lemma {:induction false} TimesZero(n: nat)
    ensures Times(n, 0) == 0
  {
    hide Apply;
    if n > 0 {
      TimesZero(n - 1);
      ApplyZero(E1);
    }
  }

  lemma {:induction false} TimesNonzero(n: nat, v: bv32)
    requires v < 1024 && Times(n, v) == 0
    ensures v == 0
  {
    hide Apply;
    if n > 0 {
      TimesSmall(n - 1, v);
      Inverse1(Times(n - 1, v));
      TimesNonzero(n - 1, v);
    }
  }

  lemma {:induction false} TimesInjective(n: nat, a: bv32, b: bv32)
    requires a < 1024 && b < 1024 && Times(n, a) == Times(n, b)
    ensures a == b
  {
    hide Xor, Times;
    TimesXor(n, a, b);
    XorSelf(Times(n, a));
    SmallXor(a, b);
    TimesNonzero(n, Xor(a, b));
    XorEqual(a, b);
  }

  /** e^1023 = 1. */
  lemma {:induction false} Cycle(v: bv32)
    requires v < 1024
    ensures Times(1023, v) == v
  {
    hide Is, Apply, Times;
    Powers();
    IsOne();
    Unfold(1024, E1, v);
    Unfold(1, E1, v);
    TimesAdd(1, 1023, v);
    TimesSmall(1023, v);
    TimesInjective(1, Times(1023, v), v);
  }

  lemma Unfold(n: nat, t: Ten, v: bv32)
    requires Is(n, t)
    ensures Times(n, v) == Apply(t, v)
  {
  }

  lemma {:induction false} FixedSum(m: nat, n: nat, v: bv32)
    requires Times(n, v) == v
    ensures Times(m + n, v) == Times(m, v)
  {
    hide Apply;
    TimesAdd(m, n, v);
  }

  lemma {:induction false} FixedMultiple(k: nat, n: nat, v: bv32)
    requires Times(n, v) == v
    ensures k * n >= 0 && Times(k * n, v) == v
  {
    hide Apply;
    if k > 0 {
      FixedMultiple(k - 1, n, v);
      assert k * n == (k - 1) * n + n;
      FixedSum((k - 1) * n, n, v);
    }
  }

  lemma {:induction false} NoDivisor(p: nat, r: nat, k: nat)
    requires (p == 3 || p == 11 || p == 31) && 1 < r < p
    ensures p != r * k
  {
    if r >= 6 && k >= 6 {
      MulAtLeast(r, k);
    } else if r < 6 {
      assert r == 2 || r == 3 || r == 4 || r == 5;
    } else {
      assert k == 0 || k == 1 || k == 2 || k == 3 || k == 4 || k == 5;
    }
  }

  lemma MulAtLeast(r: nat, k: nat)
    requires r >= 6 && k >= 6
    ensures r * k >= 36
  {
  }

  /** A power of e that fixes v and is not a multiple of p, a prime factor of 1023, brings in the one that is
      free of p only. */
  lemma {:induction false} FixedPart(p: nat, q: nat, r: nat, v: bv32)
    requires (p == 3 && q == 341) || (p == 11 && q == 93) || (p == 31 && q == 33)
    requires 0 < r < p && v < 1024 && Times(q * r, v) == v
    ensures Times(q, v) == v
    decreases r
  {
    hide Times;
    if r > 1 {
      var k, s := p / r, p % r;
      assert p == k * r + s;
      if s == 0 { NoDivisor(p, r, k); }
      PartStep(p, q, r, k, s);
      FixedMultiple(k, q * r, v);
      Cycle(v);
      FixedSum(q * s, k * (q * r), v);
      FixedPart(p, q, s, v);
    }
  }

  lemma PartStep(p: nat, q: nat, r: nat, k: nat, s: nat)
    requires p * q == 1023 && p == k * r + s
    ensures q * s + k * (q * r) == 1023
  {
    assert q * (k * r + s) == q * (k * r) + q * s;
    assert q * (k * r) == k * (q * r);
  }

  lemma {:induction false} FixedFactor(p: nat, q: nat, n: nat, v: bv32)
    requires (p == 3 && q == 341) || (p == 11 && q == 93) || (p == 31 && q == 33)
    requires n % p != 0 && v < 1024 && Times(n, v) == v
    ensures Times(q, v) == v
  {
    hide Times;
    var k, r := n / p, n % p;
    FixedMultiple(q, n, v);
    Cycle(v);
    FixedMultiple(k, 1023, v);
    FactorStep(p, q, n, k, r);
    FixedSum(q * r, k * 1023, v);
    FixedPart(p, q, r, v);
  }

  lemma FactorStep(p: nat, q: nat, n: nat, k: nat, r: nat)
    requires p * q == 1023 && n == k * p + r
    ensures q * n == q * r + k * 1023
  {
    assert q * (k * p + r) == q * (k * p) + q * r;
    assert q * (k * p) == k * (p * q);
  }

  /** e is primitive: a power of it fixes a nonzero element exactly if its exponent is a multiple of 1023. */
  lemma {:induction false} Order(n: nat, v: bv32)
    requires v < 1024
    ensures Times(n, v) == v <==> v == 0 || n % 1023 == 0
  {
    hide Times, Is, Apply;
    if v == 0 {
      TimesZero(n);
    } else if n % 1023 == 0 {
      Cycle(v);
      FixedMultiple(n / 1023, 1023, v);
    } else if Times(n, v) == v {
      Powers();
      if n % 3 == 0 && n % 11 == 0 && n % 31 == 0 { ThreeFactors(n, n / 3, n / 11, n / 31); }
      if n % 3 != 0 {
        FixedFactor(3, 341, n, v);
        Unfold(341, E341, v);
        Inverse341(v);
      } else if n % 11 != 0 {
        FixedFactor(11, 93, n, v);
        Unfold(93, E93, v);
        Inverse93(v);
      } else {
        FixedFactor(31, 33, n, v);
        Unfold(33, E33, v);
        Inverse33(v);
      }
    }
  }

  lemma ThreeFactors(n: nat, a: nat, b: nat, d: nat)
    requires n == 3 * a && n == 11 * b && n == 31 * d
    ensures n % 1023 == 0
  {
    var c := 4 * b - a;
    assert n == 33 * c;
    assert n == 1023 * (16 * d - 17 * c);
  }

  // ---------- e as the source multiplies by it ----------

  /** Twice a five-bit value modulo x^5 + x^3 + 1. */
  function Twice(v: bv32): bv32 { if v & 16 != 0 then Xor(v << 1, 41) else v << 1 }

  function Times9(v: bv32): bv32 { Xor(Twice(Twice(Twice(v))), v) }

  function Times23(v: bv32): bv32 { Xor(Xor(Twice(Twice(Twice(Twice(v)))), Twice(Twice(v))), Xor(Twice(v), v)) }

  function Up(v: bv32): bv32 { v << 5 }

  lemma LowPart(v: bv32)
    ensures Mix(E1.lo, v) == Up(Last(v))
  {
  }

  lemma HighPart(w: bv32)
    requires w < 32
    ensures Mix(E1.hi, w) == Xor(Up(Times9(w)), Times23(w))
  {
  }

  lemma UpXor(a: bv32, b: bv32)
    ensures Up(Xor(a, b)) == Xor(Up(a), Up(b))
  {
  }

  lemma DropSmall(v: bv32)
    requires v < 1024
    ensures Drop(v) < 32
  {
  }

  /** (v1 * e + v0) * e = (9 * v1 + v0) * e + 23 * v1. */
  lemma {:induction false} TimesE(v: bv32)
    requires v < 1024
    ensures Apply(E1, v) == Xor(Up(Xor(Times9(Drop(v)), Last(v))), Times23(Drop(v)))
  {
    hide Xor, Mix, Up, Last, Drop, Times9, Times23;
    var w := Drop(v);
    DropSmall(v);
    LowPart(v);
    HighPart(w);
    UpXor(Times9(w), Last(v));
    XorComm(Up(Times9(w)), Up(Last(v)));
    XorAssoc(Up(Last(v)), Up(Times9(w)), Times23(w));
  }
}
