/** Why any three errors are found: the generator of the checksum has the roots e^997, e^998 and e^999. */
module Bech32Bch {
  import opened Prelude
  import opened Bech32Checksum
  import opened Bech32Field

  // ---------- Evaluating a remainder ----------

  /** One more coefficient of a polynomial evaluated at the element t multiplies by. */
  function At(t: Ten, s: bv32, v: bv32): bv32 { Xor(Apply(t, s), v) }

  /** The polynomial of a remainder at that element. */
  function Value(t: Ten, c: bv32): bv32 {
    var c1 := Drop(c);
    var c2 := Drop(c1);
    var c3 := Drop(c2);
    var c4 := Drop(c3);
    At(t, At(t, At(t, At(t, At(t, Last(Drop(c4)), Last(c4)), Last(c3)), Last(c2)), Last(c1)), Last(c))
  }

  lemma {:induction false} AtXor(t: Ten, s: bv32, s': bv32, v: bv32, v': bv32)
    ensures At(t, Xor(s, s'), Xor(v, v')) == Xor(At(t, s, v), At(t, s', v'))
  {
    hide Xor, Apply;
    ApplyXor(t, s, s');
    XorSwap(Apply(t, s), Apply(t, s'), v, v');
  }

  lemma {:induction false} ValueXor(t: Ten, a: bv32, b: bv32)
    ensures Value(t, Xor(a, b)) == Xor(Value(t, a), Value(t, b))
  {
    hide Xor, At, Last, Drop;
    var a1, b1 := Drop(a), Drop(b);
    var a2, b2 := Drop(a1), Drop(b1);
    var a3, b3 := Drop(a2), Drop(b2);
    var a4, b4 := Drop(a3), Drop(b3);
    var a5, b5 := Drop(a4), Drop(b4);
    DropXor(a, b);
    DropXor(a1, b1);
    DropXor(a2, b2);
    DropXor(a3, b3);
    DropXor(a4, b4);
    LastXor(a, b);
    LastXor(a1, b1);
    LastXor(a2, b2);
    LastXor(a3, b3);
    LastXor(a4, b4);
    LastXor(a5, b5);
    var s4, r4 := At(t, Last(a5), Last(a4)), At(t, Last(b5), Last(b4));
    var s3, r3 := At(t, s4, Last(a3)), At(t, r4, Last(b3));
    var s2, r2 := At(t, s3, Last(a2)), At(t, r3, Last(b2));
    var s1, r1 := At(t, s2, Last(a1)), At(t, r2, Last(b1));
    AtXor(t, Last(a5), Last(b5), Last(a4), Last(b4));
    AtXor(t, s4, r4, Last(a3), Last(b3));
    AtXor(t, s3, r3, Last(a2), Last(b2));
    AtXor(t, s2, r2, Last(a1), Last(b1));
    AtXor(t, s1, r1, Last(a), Last(b));
  }

  lemma {:induction false} AtZero(t: Ten, v: bv32)
    ensures At(t, 0, v) == v
  {
    hide Xor, Apply;
    ApplyZero(t);
    XorComm(0, v);
    XorSelf(v);
  }

  lemma {:induction false} ValueZero(t: Ten)
    ensures Value(t, 0) == 0
  {
    hide At, Last, Drop;
    DropXor(0, 0);
    LastZero();
    AtZero(t, 0);
  }

  lemma NoSixth(l: bv32)
    requires l < 0x200_0000
    ensures Last(Drop(Drop(Drop(Drop(Drop(l)))))) == 0
  {
  }

  lemma {:induction false} ValuePush(t: Ten, l: bv32, v: bv32)
    requires l < 0x200_0000 && v < 32
    ensures Value(t, Push(l, v)) == At(t, Value(t, l), v)
  {
    NoSixth(l);
    hide At, Last, Drop, Push;
    PushSplit(l, v);
    AtZero(t, Last(Drop(Drop(Drop(Drop(l))))));
  }

  lemma {:induction false} ValueAdd(t: Ten, d: bv32, b: bool, k: bv32)
    ensures Value(t, Add(d, b, k)) == Add(Value(t, d), b, Value(t, k))
  {
    hide Xor, Value;
    ValueXor(t, d, k);
  }

  function Values(t: Ten, f: Five): Five {
    Five(Value(t, f.a0), Value(t, f.a1), Value(t, f.a2), Value(t, f.a3), Value(t, f.a4))
  }

  lemma {:induction false} ValueSum(t: Ten, f: Five, b0: bool, b1: bool, b2: bool, b3: bool, b4: bool)
    ensures Value(t, Sum(f, b0, b1, b2, b3, b4)) == Sum(Values(t, f), b0, b1, b2, b3, b4)
  {
    hide Add, Value;
    var d1 := Add(0, b0, f.a0);
    var d2 := Add(d1, b1, f.a1);
    var d3 := Add(d2, b2, f.a2);
    var d4 := Add(d3, b3, f.a3);
    ValueZero(t);
    ValueAdd(t, 0, b0, f.a0);
    ValueAdd(t, d1, b1, f.a1);
    ValueAdd(t, d2, b2, f.a2);
    ValueAdd(t, d3, b3, f.a3);
    ValueAdd(t, d4, b4, f.a4);
  }

  // ---------- The roots of the generator ----------

  const HIGH := Five(0x200_0000, 0x400_0000, 0x800_0000, 0x1000_0000, 0x2000_0000)
  const GENERATOR := Five(0x3b6a57b2, 0x26508e6d, 0x1ea119fa, 0x3d4233dd, 0x2a1462b3)

  /** The generator vanishes there: x^6 and its remainder have the same value, times every bit. */
  ghost predicate Root(t: Ten) {
    Values(t, GENERATOR) == Image(t, Values(t, HIGH))
  }

  lemma Root997Bit0()
    ensures Value(E997, 0x3b6a57b2) == Apply(E997, Value(E997, 0x200_0000))
  {
  }

  lemma Root997Bit1()
    ensures Value(E997, 0x26508e6d) == Apply(E997, Value(E997, 0x400_0000))
  {
  }

  lemma Root997Bit2()
    ensures Value(E997, 0x1ea119fa) == Apply(E997, Value(E997, 0x800_0000))
  {
  }

  lemma Root997Bit3()
    ensures Value(E997, 0x3d4233dd) == Apply(E997, Value(E997, 0x1000_0000))
  {
  }

  lemma Root997Bit4()
    ensures Value(E997, 0x2a1462b3) == Apply(E997, Value(E997, 0x2000_0000))
  {
  }

  lemma {:induction false} Root997()
    ensures Root(E997)
  {
    hide Value, Apply;
    Root997Bit0();
    Root997Bit1();
    Root997Bit2();
    Root997Bit3();
    Root997Bit4();
  }

  lemma Root998Bit0()
    ensures Value(E998, 0x3b6a57b2) == Apply(E998, Value(E998, 0x200_0000))
  {
  }

  lemma Root998Bit1()
    ensures Value(E998, 0x26508e6d) == Apply(E998, Value(E998, 0x400_0000))
  {
  }

  lemma Root998Bit2()
    ensures Value(E998, 0x1ea119fa) == Apply(E998, Value(E998, 0x800_0000))
  {
  }

  lemma Root998Bit3()
    ensures Value(E998, 0x3d4233dd) == Apply(E998, Value(E998, 0x1000_0000))
  {
  }

  lemma Root998Bit4()
    ensures Value(E998, 0x2a1462b3) == Apply(E998, Value(E998, 0x2000_0000))
  {
  }

  lemma {:induction false} Root998()
    ensures Root(E998)
  {
    hide Value, Apply;
    Root998Bit0();
    Root998Bit1();
    Root998Bit2();
    Root998Bit3();
    Root998Bit4();
  }

  lemma Root999Bit0()
    ensures Value(E999, 0x3b6a57b2) == Apply(E999, Value(E999, 0x200_0000))
  {
  }

  lemma Root999Bit1()
    ensures Value(E999, 0x26508e6d) == Apply(E999, Value(E999, 0x400_0000))
  {
  }

  lemma Root999Bit2()
    ensures Value(E999, 0x1ea119fa) == Apply(E999, Value(E999, 0x800_0000))
  {
  }

  lemma Root999Bit3()
    ensures Value(E999, 0x3d4233dd) == Apply(E999, Value(E999, 0x1000_0000))
  {
  }

  lemma Root999Bit4()
    ensures Value(E999, 0x2a1462b3) == Apply(E999, Value(E999, 0x2000_0000))
  {
  }

  lemma {:induction false} Root999()
    ensures Root(E999)
  {
    hide Value, Apply;
    Root999Bit0();
    Root999Bit1();
    Root999Bit2();
    Root999Bit3();
    Root999Bit4();
  }

  /** e^997, e^998 and e^999 are roots of the generator. */
  lemma {:induction false} Roots()
    ensures Is(997, E997) && Is(998, E998) && Is(999, E999)
    ensures Root(E997) && Root(E998) && Root(E999)
  {
    hide Is, Root;
    Powers();
    Root997();
    Root998();
    Root999();
  }

  function Low(c: bv32): bv32 { c & 0x1ff_ffff }

  lemma LowHigh(c: bv32)
    requires c < LIMIT
    ensures Low(c) < 0x200_0000
    ensures Sum(HIGH, Bit0(Top(c)), Bit1(Top(c)), Bit2(Top(c)), Bit3(Top(c)), Bit4(Top(c))) == Xor(c, Low(c))
  {
  }

  lemma HighStep(b0: bool, b1: bool, b2: bool, b3: bool, b4: bool)
    ensures Step(Sum(HIGH, b0, b1, b2, b3, b4), 0) == Sum(GENERATOR, b0, b1, b2, b3, b4)
  {
  }

  lemma {:induction false} ValueHigh(t: Ten, b0: bool, b1: bool, b2: bool, b3: bool, b4: bool)
    requires Root(t)
    ensures var h := Sum(HIGH, b0, b1, b2, b3, b4); Value(t, Step(h, 0)) == Apply(t, Value(t, h))
  {
    HighStep(b0, b1, b2, b3, b4);
    hide Value, Apply, Step, Sum;
    ValueSum(t, GENERATOR, b0, b1, b2, b3, b4);
    ValueSum(t, HIGH, b0, b1, b2, b3, b4);
    ApplySum(t, Values(t, HIGH), b0, b1, b2, b3, b4);
  }

  /** At a root of the generator, taking the remainder changes no value: a step appends a coefficient. */
  lemma {:induction false} ValueStep(t: Ten, c: bv32, v: bv32)
    requires Root(t) && c < LIMIT && v < 32
    ensures Value(t, Step(c, v)) == At(t, Value(t, c), v)
  {
    hide Xor, Value, Apply, Step, Sum, Top, Bit0, Bit1, Bit2, Bit3, Bit4, Push, Low;
    var l, h := Low(c), Sum(HIGH, Bit0(Top(c)), Bit1(Top(c)), Bit2(Top(c)), Bit3(Top(c)), Bit4(Top(c)));
    LowHigh(c);
    XorComm(c, l);
    XorMove(l, h, c);
    assert c == Xor(l, h);
    XorSelf(v);
    StepXor(l, h, v, 0);
    SmallStep(l, v);
    ValuePush(t, l, v);
    ValueHigh(t, Bit0(Top(c)), Bit1(Top(c)), Bit2(Top(c)), Bit3(Top(c)), Bit4(Top(c)));
    ValueXor(t, Step(l, v), Step(h, 0));
    ValueXor(t, l, h);
    AtXor(t, Value(t, l), Value(t, h), v, 0);
    XorSelf(Apply(t, Value(t, h)));
  }

  /** The polynomial with coefficients v after s, evaluated by Horner's rule. */
  function Eval(t: Ten, s: bv32, v: Data): bv32
    decreases |v|
  {
    if v == [] then s else Eval(t, At(t, s, v[0]), v[1..])
  }

  /** The remainder has the value of the whole polynomial. */
  lemma {:induction false} ValueFold(t: Ten, c: bv32, v: Data)
    requires Root(t) && c < LIMIT && Fives(v)
    ensures Value(t, Fold(c, v)) == Eval(t, Value(t, c), v)
    decreases |v|
  {
    hide Value, Step, At, Root;
    if v != [] {
      ValueStep(t, c, v[0]);
      StepBound(c, v[0]);
      ValueFold(t, Step(c, v[0]), v[1..]);
    }
  }

  lemma {:induction false} EvalConcat(t: Ten, s: bv32, u: Data, v: Data)
    ensures Eval(t, s, u + v) == Eval(t, Eval(t, s, u), v)
    decreases |u|
  {
    hide At;
    if u == [] {
      assert u + v == v;
    } else {
      EvalConcat(t, At(t, s, u[0]), u[1..], v);
      assert (u + v)[1..] == u[1..] + v;
    }
  }

  /** The exponent of e that n places bring at the root e^j. */
  function Exponent(j: nat, n: nat): nat { j * n }

  lemma ExponentNext(j: nat, n: nat)
    ensures Exponent(j, 0) == 0 && Exponent(j, n + 1) == j + Exponent(j, n) && Exponent(j + 1, n) == n + Exponent(j, n)
  {
  }

  lemma ExponentSum(j: nat, m: nat, k: nat)
    ensures Exponent(j, m + k) == Exponent(j, m) + Exponent(j, k)
  {
  }

  predicate Zero(v: Data) { forall i :: 0 <= i < |v| ==> v[i] == 0 }

  /** A coefficient n places before the end counts e^(j * n) times. */
  lemma {:induction false} EvalZeros(j: nat, t: Ten, s: bv32, v: Data)
    requires Is(j, t) && Zero(v)
    ensures Eval(t, s, v) == Times(Exponent(j, |v|), s)
    decreases |v|
  {
    hide Apply, Xor, Is, Times, Exponent;
    if v == [] {
      ExponentNext(j, 0);
      NoTimes(s);
    } else {
      Unfold(j, t, s);
      XorSelf(Apply(t, s));
      EvalZeros(j, t, Apply(t, s), v[1..]);
      ExponentNext(j, |v[1..]|);
      TimesAdd(Exponent(j, |v[1..]|), j, s);
    }
  }

  lemma NoTimes(v: bv32)
    ensures Times(0, v) == v
  {
  }

  // ---------- Three errors ----------

  /** The powers of e at three consecutive exponents cannot cancel: x is the earliest error, n places before
      the last one, y the middle one, m places before it. */
  lemma {:induction false} NoCancelling(x: bv32, y: bv32, z: bv32, m: nat, n: nat)
    requires x < 1024 && y < 1024 && z < 1024 && 0 < m < n < 1023
    requires Xor(x, y) == z
    requires Xor(Times(n, x), Times(m, y)) == z
    requires Xor(Times(n, Times(n, x)), Times(m, Times(m, y))) == z
    ensures x == 0
  {
    hide Xor, Times;
    var x1, y1 := Times(n, x), Times(m, y);
    var dx, dy := Xor(x, x1), Xor(y, y1);
    TimesSmall(n, x);
    TimesSmall(m, y);
    SmallXor(x, x1);
    XorSwap(x, y, x1, y1);
    XorSelf(z);
    XorEqual(dx, dy);
    TimesXor(n, x, x1);
    TimesXor(m, y, y1);
    XorSwap(x1, y1, Times(n, x1), Times(m, y1));
    XorEqual(Times(n, dx), Times(m, dy));
    TimesAdd(m, n - m, dx);
    TimesSmall(n - m, dx);
    TimesInjective(m, Times(n - m, dx), dx);
    Order(n - m, dx);
    XorEqual(x, x1);
    Order(n, x);
  }

  // The polynomial with three coefficients among zeros.
  lemma {:induction false} EvalPattern(j: nat, t: Ten, x: bv32, b: Data, y: bv32, c: Data, z: bv32)
    requires Is(j, t) && Zero(b) && Zero(c)
    ensures Eval(t, 0, [x] + b + [y] + c + [z]) == Xor(Times(j, Times(Exponent(j, |c|), Xor(Times(j, Times(Exponent(j, |b|), x)), y))), z)
  {
    hide Is, Xor, Times, Apply, Eval, Zero, Exponent;
    EvalConcat(t, 0, [x] + b + [y] + c, [z]);
    EvalConcat(t, 0, [x] + b + [y], c);
    EvalConcat(t, 0, [x] + b, [y]);
    EvalConcat(t, 0, [x], b);
    One(t, 0, x);
    AtZero(t, x);
    EvalZeros(j, t, x, b);
    var s1 := Times(Exponent(j, |b|), x);
    One(t, s1, y);
    Unfold(j, t, s1);
    var s2 := Xor(Times(j, s1), y);
    EvalZeros(j, t, s2, c);
    var s3 := Times(Exponent(j, |c|), s2);
    One(t, s3, z);
    Unfold(j, t, s3);
  }

  /** What an error pattern that leaves no remainder says at one root. */
  lemma {:induction false} Pattern(j: nat, t: Ten, x: bv32, b: Data, y: bv32, c: Data, z: bv32)
    requires Is(j, t) && Root(t) && x < 32 && y < 32 && z < 32 && Zero(b) && Zero(c)
    requires Fold(0, [x] + b + [y] + c + [z]) == 0
    ensures var m, n := |c| + 1, |b| + |c| + 2;
      Xor(Times(Exponent(j, n), x), Times(Exponent(j, m), y)) == z
  {
    hide Is, Root, Xor, Times, Fold, Apply, Value, Eval, Zero, Fives, Exponent;
    var e, m, k := [x] + b + [y] + c + [z], |c| + 1, |b| + 1;
    PatternFives(x, b, y, c, z);
    ValueFold(t, 0, e);
    ValueZero(t);
    EvalPattern(j, t, x, b, y, c, z);
    ExponentNext(j, |b|);
    ExponentNext(j, |c|);
    ExponentSum(j, m, k);
    assert m + k == |b| + |c| + 2;
    var s1 := Times(Exponent(j, |b|), x);
    var s2 := Xor(Times(j, s1), y);
    TimesAdd(j, Exponent(j, |b|), x);
    TimesAdd(j, Exponent(j, |c|), s2);
    XorEqual(Times(j, Times(Exponent(j, |c|), s2)), z);
    TimesXor(Exponent(j, m), Times(Exponent(j, k), x), y);
    TimesAdd(Exponent(j, m), Exponent(j, k), x);
  }

  lemma PatternFives(x: bv32, b: Data, y: bv32, c: Data, z: bv32)
    requires x < 32 && y < 32 && z < 32 && Zero(b) && Zero(c)
    ensures Fives([x] + b + [y] + c + [z])
  {
  }

  lemma One(t: Ten, s: bv32, v: bv32)
    ensures Eval(t, s, [v]) == At(t, s, v)
  {
  }

  lemma {:induction false} NextPower(j: nat, n: nat, x: bv32)
    ensures Times(Exponent(j + 1, n), x) == Times(n, Times(Exponent(j, n), x))
  {
    hide Times, Exponent;
    ExponentNext(j, n);
    TimesAdd(n, Exponent(j, n), x);
  }

  /** Three errors within 1023 values leave a remainder. */
  lemma {:induction false} ThreeErrors(x: bv32, b: Data, y: bv32, c: Data, z: bv32)
    requires x < 32 && y < 32 && z < 32 && Zero(b) && Zero(c) && |b| + |c| + 3 <= 1023
    requires Fold(0, [x] + b + [y] + c + [z]) == 0
    ensures x == 0
  {
    hide Is, Root, Xor, Times, Fold, Exponent;
    var m, n := |c| + 1, |b| + |c| + 2;
    Roots();
    Pattern(997, E997, x, b, y, c, z);
    Pattern(998, E998, x, b, y, c, z);
    Pattern(999, E999, x, b, y, c, z);
    NextPower(997, n, x);
    NextPower(998, n, x);
    NextPower(997, m, y);
    NextPower(998, m, y);
    Small(x, y, z);
    TimesSmall(Exponent(997, n), x);
    TimesSmall(Exponent(997, m), y);
    NoCancelling(Times(Exponent(997, n), x), Times(Exponent(997, m), y), z, m, n);
    TimesNonzero(Exponent(997, n), x);
  }

  lemma Small(x: bv32, y: bv32, z: bv32)
    requires x < 32 && y < 32 && z < 32
    ensures x < 1024 && y < 1024 && z < 1024
  {
  }

  lemma {:induction false} FoldZeros(v: Data)
    requires Zero(v)
    ensures Fold(0, v) == 0
    decreases |v|
  {
    hide Step;
    if v != [] {
      FirstStep(0);
      FoldZeros(v[1..]);
    }
  }

  // Zeros around an error pattern do not matter.
  lemma {:induction false} Surrounded(p: Data, e: Data, q: Data)
    requires Zero(p) && Zero(q) && Fives(e) && Fold(0, p + e + q) == 0
    ensures Fold(0, e) == 0
  {
    FoldConcat(0, p, e);
    FoldConcat(0, p + e, q);
    FoldZeros(p);
    FoldZeros(q);
    hide Fold;
    ZeroLess();
    FoldBound(0, e);
    FoldInjective(Fold(0, e), 0, q);
  }

  lemma ZeroLess()
    ensures 0 as bv32 < LIMIT
  {
  }

  lemma {:induction false} Cut(d: Data, i: nat, j: nat, k: nat)
    requires i < j < k < |d|
    ensures d == d[..i] + ([d[i]] + d[i + 1..j] + [d[j]] + d[j + 1..k] + [d[k]]) + d[k + 1..]
  {
    assert d[i..k + 1] == [d[i]] + d[i + 1..j] + [d[j]] + d[j + 1..k] + [d[k]];
  }

  lemma {:induction false} XorAllFives(v: Data, w: Data)
    requires |v| == |w| && Fives(v) && Fives(w)
    ensures Fives(XorAll(v, w))
  {
    hide Xor;
    forall p | 0 <= p < |v| ensures XorAll(v, w)[p] < 32 { XorFive(v[p], w[p]); }
  }

  lemma {:induction false} ThreeAt(v: Data, w: Data, i: nat, j: nat, k: nat)
    requires Fives(v) && Fives(w) && |v| == |w| && i < j < k < |v| && k - i < 1023
    requires forall p :: 0 <= p < |v| && p != i && p != j && p != k ==> v[p] == w[p]
    requires PolyMod(v) == PolyMod(w)
    ensures v[i] == w[i]
  {
    hide Fold, Xor;
    var d := XorAll(v, w);
    FoldXor(1, 1, v, w);
    XorSelf(1);
    XorEqual(PolyMod(v), PolyMod(w));
    XorAllFives(v, w);
    forall p | 0 <= p < |v| ensures v[p] == w[p] <==> d[p] == 0 { XorEqual(v[p], w[p]); }
    Cut(d, i, j, k);
    var e := [d[i]] + d[i + 1..j] + [d[j]] + d[j + 1..k] + [d[k]];
    assert Zero(d[i + 1..j]) && Zero(d[j + 1..k]) && Zero(d[..i]) && Zero(d[k + 1..]);
    PatternFives(d[i], d[i + 1..j], d[j], d[j + 1..k], d[k]);
    Surrounded(d[..i], e, d[k + 1..]);
    ThreeErrors(d[i], d[i + 1..j], d[j], d[j + 1..k], d[k]);
  }

  /** Where two messages of the same length differ. */
  ghost function Changed(v: Data, w: Data): set<int>
    requires |v| == |w|
  {
    set p | 0 <= p < |v| && v[p] != w[p]
  }

  lemma {:induction false} FirstChange(v: Data, w: Data) returns (i: nat)
    requires |v| == |w| && v != w
    ensures i < |v| && v[i] != w[i] && forall p :: 0 <= p < i ==> v[p] == w[p]
  {
    if v[0] != w[0] {
      i := 0;
    } else {
      assert v == [v[0]] + v[1..] && w == [w[0]] + w[1..];
      i := FirstChange(v[1..], w[1..]);
      forall p | 0 <= p < i + 1 ensures v[p] == w[p] { if p > 0 { assert v[1..][p - 1] == w[1..][p - 1]; } }
      i := i + 1;
    }
  }

  lemma {:induction false} LastChange(v: Data, w: Data) returns (k: nat)
    requires |v| == |w| && v != w
    ensures k < |v| && v[k] != w[k] && forall p :: k < p < |v| ==> v[p] == w[p]
  {
    var n := |v| - 1;
    if v[n] != w[n] {
      k := n;
    } else {
      assert v == v[..n] + [v[n]] && w == w[..n] + [w[n]];
      k := LastChange(v[..n], w[..n]);
      forall p | k < p < |v| ensures v[p] == w[p] { if p < n { assert v[..n][p] == w[..n][p]; } }
    }
  }

  /** Up to three errors within 1023 values always change the checksum. */
  lemma {:induction false} FewErrorsDetected(v: Data, w: Data)
    requires Fives(v) && Fives(w) && |v| == |w| && v != w && |Changed(v, w)| <= 3
    requires forall p, q :: p in Changed(v, w) && q in Changed(v, w) ==> q - p < 1023
    ensures PolyMod(v) != PolyMod(w)
  {
    hide PolyMod, Fives;
    var i := FirstChange(v, w);
    var k := LastChange(v, w);
    assert i in Changed(v, w) && k in Changed(v, w);
    if k < i + 6 {
      ShortSpan(v, w, i, k);
    } else {
      var j := Middle(v, w, i, k);
      if PolyMod(v) == PolyMod(w) { ThreeAt(v, w, i, j, k); }
    }
  }

  lemma {:induction false} ShortSpan(v: Data, w: Data, i: nat, k: nat)
    requires Fives(v) && Fives(w) && |v| == |w| && i <= k < |v| && k < i + 6 && v[i] != w[i]
    requires (forall p :: 0 <= p < i ==> v[p] == w[p]) && (forall p :: k < p < |v| ==> v[p] == w[p])
    ensures PolyMod(v) != PolyMod(w)
  {
    hide PolyMod;
    var p, x, y, q := v[..i], v[i..k + 1], w[i..k + 1], v[k + 1..];
    assert x[0] == v[i] && y[0] == w[i];
    InThree(v, i, k);
    InThree(w, i, k);
    assert w[..i] == p && w[k + 1..] == q;
    BurstDetected(p, x, y, q);
  }

  lemma InThree(v: Data, i: nat, k: nat)
    requires i <= k < |v|
    ensures v == v[..i] + v[i..k + 1] + v[k + 1..]
    ensures Fives(v) ==> Fives(v[..i]) && Fives(v[i..k + 1]) && Fives(v[k + 1..])
  {
  }

  lemma {:induction false} ShiftSize(s: set<int>, k: int)
    ensures |set x | x in s :: x + k| == |s|
    decreases |s|
  {
    var t := set x | x in s :: x + k;
    if s == {} {
      assert t == {};
    } else {
      Inhabited(s);
      var x: int :| x in s;
      var u := set y | y in s - {x} :: y + k;
      ShiftSize(s - {x}, k);
      forall y: int ensures y in t <==> y in u || y == x + k {
        var z := y - k;
        assert z in s <==> z in s - {x} || z == x;
        assert z in s ==> z + k in t;
        assert z in s - {x} ==> z + k in u;
      }
      assert t == u + {x + k};
    }
  }

  /** The same after any common beginning. */
  lemma {:induction false} FewErrorsAfter(p: Data, v: Data, w: Data)
    requires Fives(p) && Fives(v) && Fives(w) && |v| == |w| <= 1023 && v != w && |Changed(v, w)| <= 3
    ensures PolyMod(p + v) != PolyMod(p + w)
  {
    hide PolyMod;
    var c, d := Changed(v, w), Changed(p + v, p + w);
    var t := set x | x in c :: x + |p|;
    forall x: int ensures x in d <==> x in t {
      if x in d { assert x - |p| in c; }
    }
    assert d == t;
    ShiftSize(c, |p|);
    FirstDiffers(p, v, w);
    FewErrorsDetected(p + v, p + w);
  }

  lemma FirstDiffers(p: Data, v: Data, w: Data)
    requires v != w
    ensures p + v != p + w
  {
    assert (p + v)[|p|..] == v && (p + w)[|p|..] == w;
  }

  // Between the first and the last change there is room for one more; no other differs.
  lemma {:induction false} Middle(v: Data, w: Data, i: nat, k: nat) returns (j: nat)
    requires |v| == |w| && i + 1 < k < |v| && v[i] != w[i] && v[k] != w[k] && |Changed(v, w)| <= 3
    requires (forall p :: 0 <= p < i ==> v[p] == w[p]) && (forall p :: k < p < |v| ==> v[p] == w[p])
    ensures i < j < k && forall p :: 0 <= p < |v| && p != i && p != j && p != k ==> v[p] == w[p]
  {
    if p :| i < p < k && v[p] != w[p] {
      j := p;
      var three: set<int> := {i, j, k};
      assert three <= Changed(v, w);
      SameSize(three, Changed(v, w));
      forall p | 0 <= p < |v| && p !in three ensures v[p] == w[p] { assert p !in Changed(v, w); }
    } else {
      j := i + 1;
    }
  }
}
