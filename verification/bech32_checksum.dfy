/** The checksum polynomial of Bech32 and Bech32m over 30-bit packed remainders. */
module Bech32Checksum {
  type Data = seq<bv32>

  /** All values have five bits. */
  ghost predicate Fives(v: Data) { forall i :: 0 <= i < |v| ==> v[i] < 32 }

  const LIMIT: bv32 := 0x4000_0000  // remainders have 30 bits

  function Xor(a: bv32, b: bv32): bv32 { a ^ b }

  /** The low 25 bits of a remainder, shifted up by one value. */
  function Shifted(c: bv32): bv32 { (c & 0x1ff_ffff) << 5 }

  /** The leading value of a remainder. */
  function Top(c: bv32): bv32 { c >> 25 }

  predicate Bit0(c: bv32) { c & 1 != 0 }
  predicate Bit1(c: bv32) { c & 2 != 0 }
  predicate Bit2(c: bv32) { c & 4 != 0 }
  predicate Bit3(c: bv32) { c & 8 != 0 }
  predicate Bit4(c: bv32) { c & 16 != 0 }

  function Add(d: bv32, b: bool, k: bv32): bv32 { if b then Xor(d, k) else d }

  /** Adds the multiples of the generator's remainder for the set bits. */
  function Reduce(d: bv32, b0: bool, b1: bool, b2: bool, b3: bool, b4: bool): bv32 {
    Add(Add(Add(Add(Add(d, b0, 0x3b6a57b2), b1, 0x26508e6d), b2, 0x1ea119fa), b3, 0x3d4233dd), b4, 0x2a1462b3)
  }

  function Reduced(d: bv32, c0: bv32): bv32 {
    Reduce(d, Bit0(c0), Bit1(c0), Bit2(c0), Bit3(c0), Bit4(c0))
  }

  /** (c(x) * x + v) mod g(x). */
  function Step(c: bv32, v: bv32): bv32 {
    Reduced(Xor(Shifted(c), v), Top(c))
  }

  function Fold(c: bv32, v: Data): bv32
    decreases |v|
  {
    if v == [] then c else Fold(Step(c, v[0]), v[1..])
  }

  function PolyMod(v: Data): bv32 { Fold(1, v) }

  // ---------- Linearity ----------

  lemma XorAssoc(a: bv32, b: bv32, c: bv32)
    ensures Xor(Xor(a, b), c) == Xor(a, Xor(b, c))
  {
  }

  lemma XorComm(a: bv32, b: bv32)
    ensures Xor(a, b) == Xor(b, a)
  {
  }

  lemma XorSelf(a: bv32)
    ensures Xor(a, a) == 0 && Xor(a, 0) == a
  {
  }

  lemma {:induction false} XorSwap(a: bv32, b: bv32, c: bv32, d: bv32)
    ensures Xor(Xor(a, b), Xor(c, d)) == Xor(Xor(a, c), Xor(b, d))
  {
    hide Xor;
    XorAssoc(a, b, Xor(c, d));
    XorAssoc(b, c, d);
    XorComm(b, c);
    XorAssoc(c, b, d);
    XorAssoc(a, c, Xor(b, d));
  }

  lemma BitsXor(a: bv32, b: bv32)
    ensures Bit0(Xor(a, b)) <==> Bit0(a) != Bit0(b)
    ensures Bit1(Xor(a, b)) <==> Bit1(a) != Bit1(b)
    ensures Bit2(Xor(a, b)) <==> Bit2(a) != Bit2(b)
    ensures Bit3(Xor(a, b)) <==> Bit3(a) != Bit3(b)
    ensures Bit4(Xor(a, b)) <==> Bit4(a) != Bit4(b)
  {
  }

  lemma {:induction false} AddXor(d: bv32, e: bv32, p: bool, q: bool, k: bv32)
    ensures Add(Xor(d, e), p != q, k) == Xor(Add(d, p, k), Add(e, q, k))
  {
    hide Xor;
    XorSelf(k);
    XorSelf(Xor(d, e));
    XorSwap(d, e, k, k);
    XorAssoc(d, e, k);
    XorComm(e, k);
    XorAssoc(d, k, e);
  }

  lemma {:induction false} ReduceXor(d: bv32, e: bv32, p0: bool, p1: bool, p2: bool, p3: bool, p4: bool,
                                     q0: bool, q1: bool, q2: bool, q3: bool, q4: bool)
    ensures Reduce(Xor(d, e), p0 != q0, p1 != q1, p2 != q2, p3 != q3, p4 != q4)
      == Xor(Reduce(d, p0, p1, p2, p3, p4), Reduce(e, q0, q1, q2, q3, q4))
  {
    hide Xor, Add;
    var d1, e1 := Add(d, p0, 0x3b6a57b2), Add(e, q0, 0x3b6a57b2);
    var d2, e2 := Add(d1, p1, 0x26508e6d), Add(e1, q1, 0x26508e6d);
    var d3, e3 := Add(d2, p2, 0x1ea119fa), Add(e2, q2, 0x1ea119fa);
    var d4, e4 := Add(d3, p3, 0x3d4233dd), Add(e3, q3, 0x3d4233dd);
    AddXor(d, e, p0, q0, 0x3b6a57b2);
    AddXor(d1, e1, p1, q1, 0x26508e6d);
    AddXor(d2, e2, p2, q2, 0x1ea119fa);
    AddXor(d3, e3, p3, q3, 0x3d4233dd);
    AddXor(d4, e4, p4, q4, 0x2a1462b3);
  }

  lemma {:induction false} ReducedXor(d: bv32, e: bv32, a: bv32, b: bv32)
    ensures Reduced(Xor(d, e), Xor(a, b)) == Xor(Reduced(d, a), Reduced(e, b))
  {
    hide Xor, Reduce, Bit0, Bit1, Bit2, Bit3, Bit4;
    BitsXor(a, b);
    ReduceXor(d, e, Bit0(a), Bit1(a), Bit2(a), Bit3(a), Bit4(a), Bit0(b), Bit1(b), Bit2(b), Bit3(b), Bit4(b));
  }

  lemma ShiftXor(a: bv32, b: bv32)
    ensures Shifted(Xor(a, b)) == Xor(Shifted(a), Shifted(b)) && Top(Xor(a, b)) == Xor(Top(a), Top(b))
  {
  }

  lemma {:induction false} StepXor(a: bv32, b: bv32, u: bv32, v: bv32)
    ensures Step(Xor(a, b), Xor(u, v)) == Xor(Step(a, u), Step(b, v))
  {
    hide Xor, Shifted, Top, Reduced;
    ShiftXor(a, b);
    XorSwap(Shifted(a), Shifted(b), u, v);
    ReducedXor(Xor(Shifted(a), u), Xor(Shifted(b), v), Top(a), Top(b));
  }

  function XorAll(u: Data, v: Data): (r: Data)
    requires |u| == |v|
    ensures |r| == |u| && forall i :: 0 <= i < |r| ==> r[i] == Xor(u[i], v[i])
  {
    seq(|u|, i requires 0 <= i < |u| => Xor(u[i], v[i]))
  }

  /** The remainder is linear in the starting value and all values together. */
  lemma {:induction false} FoldXor(a: bv32, b: bv32, u: Data, v: Data)
    requires |u| == |v|
    ensures Fold(Xor(a, b), XorAll(u, v)) == Xor(Fold(a, u), Fold(b, v))
    decreases |u|
  {
    hide Step, Xor;
    if u != [] {
      StepXor(a, b, u[0], v[0]);
      FoldXor(Step(a, u[0]), Step(b, v[0]), u[1..], v[1..]);
      assert XorAll(u, v)[1..] == XorAll(u[1..], v[1..]);
    }
  }

  lemma {:induction false} FoldConcat(c: bv32, u: Data, v: Data)
    ensures Fold(c, u + v) == Fold(Fold(c, u), v)
    decreases |u|
  {
    hide Step;
    if u == [] {
      assert u + v == v;
    } else {
      FoldConcat(Step(c, u[0]), u[1..], v);
      assert (u + v)[1..] == u[1..] + v;
    }
  }

  lemma AddBound(d: bv32, b: bool, k: bv32)
    requires d < LIMIT && k < LIMIT
    ensures Add(d, b, k) < LIMIT
  {
  }

  lemma ShiftedBound(c: bv32, v: bv32)
    requires v < 32
    ensures Xor(Shifted(c), v) < LIMIT
  {
  }

  lemma {:induction false} StepBound(c: bv32, v: bv32)
    requires v < 32
    ensures Step(c, v) < LIMIT
  {
    hide Xor, Shifted, Top, Add, Bit0, Bit1, Bit2, Bit3, Bit4;
    var d, c0 := Xor(Shifted(c), v), Top(c);
    ShiftedBound(c, v);
    var d1 := Add(d, Bit0(c0), 0x3b6a57b2);
    var d2 := Add(d1, Bit1(c0), 0x26508e6d);
    var d3 := Add(d2, Bit2(c0), 0x1ea119fa);
    var d4 := Add(d3, Bit3(c0), 0x3d4233dd);
    AddBound(d, Bit0(c0), 0x3b6a57b2);
    AddBound(d1, Bit1(c0), 0x26508e6d);
    AddBound(d2, Bit2(c0), 0x1ea119fa);
    AddBound(d3, Bit3(c0), 0x3d4233dd);
    AddBound(d4, Bit4(c0), 0x2a1462b3);
  }

  lemma {:induction false} FoldBound(c: bv32, v: Data)
    requires c < LIMIT && Fives(v)
    ensures Fold(c, v) < LIMIT
    decreases |v|
  {
    hide Step;
    if v != [] {
      StepBound(c, v[0]);
      FoldBound(Step(c, v[0]), v[1..]);
    }
  }

  // ---------- Six values are a remainder ----------

  function Push(c: bv32, v: bv32): bv32 { (c << 5) ^ v }

  function Pack(v: Data): bv32
    requires |v| == 6
  {
    Push(Push(Push(Push(Push(v[0], v[1]), v[2]), v[3]), v[4]), v[5])
  }

  function Last(c: bv32): bv32 { c & 31 }

  function Drop(c: bv32): bv32 { c >> 5 }

  /** The six five-bit groups of a remainder, first one highest. */
  function Groups(mod: bv32): Data {
    var m4 := Drop(mod);
    var m3 := Drop(m4);
    var m2 := Drop(m3);
    var m1 := Drop(m2);
    [Last(Drop(m1)), Last(m1), Last(m2), Last(m3), Last(m4), Last(mod)]
  }

  lemma SmallTop(c: bv32)
    requires c < 0x200_0000
    ensures Top(c) == 0 && Shifted(c) == c << 5
  {
  }

  lemma NoBits()
    ensures !Bit0(0) && !Bit1(0) && !Bit2(0) && !Bit3(0) && !Bit4(0)
  {
  }

  lemma {:induction false} SmallStep(c: bv32, v: bv32)
    requires c < 0x200_0000
    ensures Step(c, v) == Push(c, v)
  {
    hide Top, Shifted, Bit0, Bit1, Bit2, Bit3, Bit4;
    SmallTop(c);
    NoBits();
  }

  lemma FirstStep(v: bv32)
    ensures Step(0, v) == v
  {
    hide Step;
    SmallStep(0, v);
    PushZero(v);
  }

  lemma PushZero(v: bv32)
    ensures Push(0, v) == v
  {
  }

  lemma Push1(c: bv32, v: bv32)
    requires c < 0x20 && v < 32
    ensures Push(c, v) < 0x400
  {
  }

  lemma Push2(c: bv32, v: bv32)
    requires c < 0x400 && v < 32
    ensures Push(c, v) < 0x8000
  {
  }

  lemma Push3(c: bv32, v: bv32)
    requires c < 0x8000 && v < 32
    ensures Push(c, v) < 0x10_0000
  {
  }

  lemma Push4(c: bv32, v: bv32)
    requires c < 0x10_0000 && v < 32
    ensures Push(c, v) < 0x200_0000
  {
  }

  lemma {:induction false} Unfold6(c: bv32, v: Data)
    requires |v| == 6
    ensures Fold(c, v) == Step(Step(Step(Step(Step(Step(c, v[0]), v[1]), v[2]), v[3]), v[4]), v[5])
  {
    hide Step;
    var c1 := Step(c, v[0]);
    var c2 := Step(c1, v[1]);
    var c3 := Step(c2, v[2]);
    var c4 := Step(c3, v[3]);
    var c5 := Step(c4, v[4]);
    assert v[1..][1..] == v[2..] && v[2..][1..] == v[3..] && v[3..][1..] == v[4..] && v[4..][1..] == v[5..] && v[5..][1..] == [];
    assert Fold(c, v) == Fold(c1, v[1..]) == Fold(c2, v[2..]);
    assert Fold(c2, v[2..]) == Fold(c3, v[3..]) == Fold(c4, v[4..]);
    assert Fold(c4, v[4..]) == Fold(c5, v[5..]) == Step(c5, v[5]);
  }

  lemma Wider(c: bv32)
    ensures c < 0x20 ==> c < 0x200_0000
    ensures c < 0x400 ==> c < 0x200_0000
    ensures c < 0x8000 ==> c < 0x200_0000
    ensures c < 0x10_0000 ==> c < 0x200_0000
  {
  }

  /** From zero, six values are packed unchanged. */
  lemma {:induction false} FoldPack(v: Data)
    requires |v| == 6 && Fives(v)
    ensures Fold(0, v) == Pack(v)
  {
    hide Step, Fold, Push;
    Unfold6(0, v);
    var c1 := Push(v[0], v[1]);
    var c2 := Push(c1, v[2]);
    var c3 := Push(c2, v[3]);
    var c4 := Push(c3, v[4]);
    Push1(v[0], v[1]);
    Push2(c1, v[2]);
    Push3(c2, v[3]);
    Push4(c3, v[4]);
    Wider(v[0]);
    Wider(c1);
    Wider(c2);
    Wider(c3);
    FirstStep(v[0]);
    SmallStep(v[0], v[1]);
    SmallStep(c1, v[2]);
    SmallStep(c2, v[3]);
    SmallStep(c3, v[4]);
    SmallStep(c4, v[5]);
  }

  lemma PushSplit(c: bv32, v: bv32)
    requires c < 0x200_0000 && v < 32
    ensures Last(Push(c, v)) == v && Drop(Push(c, v)) == c
  {
  }

  lemma PushJoin(mod: bv32)
    ensures Push(Drop(mod), Last(mod)) == mod && Last(mod) < 32
  {
  }

  lemma DropBound(c: bv32)
    ensures c < LIMIT ==> Drop(c) < 0x200_0000
    ensures c < 0x200_0000 ==> Drop(c) < 0x10_0000
    ensures c < 0x10_0000 ==> Drop(c) < 0x8000
    ensures c < 0x8000 ==> Drop(c) < 0x400
    ensures c < 0x400 ==> Drop(c) < 0x20
  {
  }

  lemma {:induction false} PackOfGroups(mod: bv32)
    requires mod < LIMIT
    ensures Pack(Groups(mod)) == mod && Fives(Groups(mod))
  {
    hide Push, Last, Drop;
    var m4 := Drop(mod);
    var m3 := Drop(m4);
    var m2 := Drop(m3);
    var m1 := Drop(m2);
    DropBound(mod);
    DropBound(m4);
    DropBound(m3);
    DropBound(m2);
    DropBound(m1);
    LastSmall(Drop(m1));
    PushJoin(m1);
    PushJoin(m2);
    PushJoin(m3);
    PushJoin(m4);
    PushJoin(mod);
  }

  lemma {:induction false} GroupsOfPack(v: Data)
    requires |v| == 6 && Fives(v)
    ensures Groups(Pack(v)) == v
  {
    hide Push, Last, Drop;
    var c1 := Push(v[0], v[1]);
    var c2 := Push(c1, v[2]);
    var c3 := Push(c2, v[3]);
    var c4 := Push(c3, v[4]);
    Push1(v[0], v[1]);
    Push2(c1, v[2]);
    Push3(c2, v[3]);
    Push4(c3, v[4]);
    Wider(v[0]);
    Wider(c1);
    Wider(c2);
    Wider(c3);
    PushSplit(v[0], v[1]);
    PushSplit(c1, v[2]);
    PushSplit(c2, v[3]);
    PushSplit(c3, v[4]);
    PushSplit(c4, v[5]);
    LastSmall(v[0]);
  }

  lemma LastSmall(v: bv32)
    requires v < 32
    ensures Last(v) == v
  {
  }

  /** Six values are determined by their remainder from zero, and every remainder has its six. */
  lemma {:induction false} FoldGroups(v: Data, mod: bv32)
    requires |v| == 6 && Fives(v) && mod < LIMIT
    ensures Fold(0, v) == mod <==> v == Groups(mod)
  {
    hide Fold, Pack, Groups;
    FoldPack(v);
    PackOfGroups(mod);
    GroupsOfPack(v);
  }

  // ---------- No information is lost on the way ----------

  lemma LastXor(d: bv32, k: bv32)
    ensures Last(Xor(d, k)) == Xor(Last(d), Last(k))
  {
  }

  lemma {:induction false} LastAdd(d: bv32, b: bool, k: bv32)
    ensures Last(Add(d, b, k)) == Add(Last(d), b, Last(k))
  {
    hide Last, Xor;
    LastXor(d, k);
  }

  lemma Constants()
    ensures Last(0x3b6a57b2) == 18 && Last(0x26508e6d) == 13 && Last(0x1ea119fa) == 26 && Last(0x3d4233dd) == 29
    ensures Last(0x2a1462b3) == 19
  {
  }

  lemma {:induction false} LastReduce(d: bv32, b0: bool, b1: bool, b2: bool, b3: bool, b4: bool)
    ensures Last(Reduce(d, b0, b1, b2, b3, b4)) == Add(Add(Add(Add(Add(Last(d), b0, 18), b1, 13), b2, 26), b3, 29), b4, 19)
  {
    hide Last, Add;
    Constants();
    var d1 := Add(d, b0, 0x3b6a57b2);
    var d2 := Add(d1, b1, 0x26508e6d);
    var d3 := Add(d2, b2, 0x1ea119fa);
    var d4 := Add(d3, b3, 0x3d4233dd);
    LastAdd(d, b0, 0x3b6a57b2);
    LastAdd(d1, b1, 0x26508e6d);
    LastAdd(d2, b2, 0x1ea119fa);
    LastAdd(d3, b3, 0x3d4233dd);
    LastAdd(d4, b4, 0x2a1462b3);
  }

  /** The constants' last values are independent. */
  lemma Independent(b0: bool, b1: bool, b2: bool, b3: bool, b4: bool)
    ensures Add(Add(Add(Add(Add(0, b0, 18), b1, 13), b2, 26), b3, 29), b4, 19) == 0 ==> !b0 && !b1 && !b2 && !b3 && !b4
  {
  }

  lemma ShiftedLast(c: bv32)
    ensures Last(Shifted(c)) == 0
  {
  }

  lemma ZeroParts(c: bv32)
    requires c < LIMIT && Shifted(c) == 0 && !Bit0(Top(c)) && !Bit1(Top(c)) && !Bit2(Top(c)) && !Bit3(Top(c))
    requires !Bit4(Top(c))
    ensures c == 0
  {
  }

  lemma {:induction false} StepZero(c: bv32)
    requires c < LIMIT && Step(c, 0) == 0
    ensures c == 0
  {
    hide Xor, Last, Shifted, Top, Bit0, Bit1, Bit2, Bit3, Bit4, Reduce;
    var c0 := Top(c);
    XorSelf(Shifted(c));
    ShiftedLast(c);
    LastReduce(Shifted(c), Bit0(c0), Bit1(c0), Bit2(c0), Bit3(c0), Bit4(c0));
    LastZero();
    Independent(Bit0(c0), Bit1(c0), Bit2(c0), Bit3(c0), Bit4(c0));
    ReduceNothing(Shifted(c));
    ZeroParts(c);
  }

  lemma LastZero()
    ensures Last(0) == 0
  {
  }

  lemma ReduceNothing(d: bv32)
    ensures Reduce(d, false, false, false, false, false) == d
  {
  }

  lemma XorBound(a: bv32, b: bv32)
    requires a < LIMIT && b < LIMIT
    ensures Xor(a, b) < LIMIT
  {
  }

  lemma XorEqual(a: bv32, b: bv32)
    ensures Xor(a, b) == 0 <==> a == b
  {
    hide Xor;
    XorSelf(b);
    XorAssoc(a, b, b);
    XorComm(0, b);
    XorSelf(a);
  }

  lemma {:induction false} StepInjective(a: bv32, b: bv32, v: bv32)
    requires a < LIMIT && b < LIMIT && Step(a, v) == Step(b, v)
    ensures a == b
  {
    hide Step, Xor;
    StepXor(a, b, v, v);
    XorSelf(v);
    XorSelf(Step(a, v));
    XorBound(a, b);
    StepZero(Xor(a, b));
    XorEqual(a, b);
  }

  lemma {:induction false} FoldInjective(a: bv32, b: bv32, v: Data)
    requires a < LIMIT && b < LIMIT && Fives(v) && Fold(a, v) == Fold(b, v)
    ensures a == b
    decreases |v|
  {
    hide Step;
    if v != [] {
      StepBound(a, v[0]);
      StepBound(b, v[0]);
      FoldInjective(Step(a, v[0]), Step(b, v[0]), v[1..]);
      StepInjective(a, b, v[0]);
    }
  }

  // ---------- Error detection ----------

  lemma {:induction false} FoldFrontZeros(w: Data, n: nat)
    requires |w| <= n
    ensures Fold(0, Padded(w, n)) == Fold(0, w)
    decreases n
  {
    hide Step;
    if n > |w| {
      FirstStep(0);
      FoldFrontZeros(w, n - 1);
      assert Padded(w, n)[1..] == Padded(w, n - 1);
    }
  }

  /** `w` with zeros in front, n values in all. */
  function Padded(w: Data, n: nat): (r: Data)
    requires |w| <= n
    ensures |r| == n
  {
    if |w| == n then w else [0] + Padded(w, n - 1)
  }

  lemma {:induction false} PaddedFives(w: Data, n: nat)
    requires |w| <= n && Fives(w)
    ensures Fives(Padded(w, n)) && Padded(w, n)[n - |w|..] == w
  {
    if |w| < n {
      PaddedFives(w, n - 1);
      assert Padded(w, n)[n - |w|..] == Padded(w, n - 1)[n - 1 - |w|..];
    }
  }

  lemma {:induction false} FoldSmall(w: Data)
    requires |w| <= 6 && Fives(w) && Fold(0, w) == 0
    ensures forall i :: 0 <= i < |w| ==> w[i] == 0
  {
    hide Fold, Padded, Last;
    FoldFrontZeros(w, 6);
    PaddedFives(w, 6);
    FoldGroups(Padded(w, 6), 0);
    LastZero();
    ZeroGroups();
    forall i | 0 <= i < |w| ensures w[i] == 0 { assert w[i] == Padded(w, 6)[6 - |w| + i]; }
  }

  lemma ZeroGroups()
    ensures Groups(0) == [0, 0, 0, 0, 0, 0]
  {
  }

  lemma XorFive(a: bv32, b: bv32)
    requires a < 32 && b < 32
    ensures Xor(a, b) < 32
  {
  }

  /** Any change confined to six consecutive values changes the checksum, whatever surrounds it. */
  lemma {:induction false} BurstDetected(p: Data, x: Data, y: Data, q: Data)
    requires Fives(p) && Fives(x) && Fives(y) && Fives(q) && |x| == |y| <= 6 && x != y
    ensures PolyMod(p + x + q) != PolyMod(p + y + q)
  {
    hide Fold, Xor;
    var c := Fold(1, p);
    FoldBound(1, p);
    FoldConcat(1, p, x);
    FoldConcat(1, p + x, q);
    FoldConcat(1, p, y);
    FoldConcat(1, p + y, q);
    FoldBound(c, x);
    FoldBound(c, y);
    var w := XorAll(x, y);
    forall i | 0 <= i < |w| ensures w[i] < 32 { XorFive(x[i], y[i]); }
    FoldXor(c, c, x, y);
    XorSelf(c);
    XorEqual(Fold(c, x), Fold(c, y));
    if PolyMod(p + x + q) == PolyMod(p + y + q) {
      FoldInjective(Fold(c, x), Fold(c, y), q);
      FoldSmall(w);
      forall i | 0 <= i < |w| ensures x[i] == y[i] { XorEqual(x[i], y[i]); }
    }
  }

  /** In particular, changing one value is always detected. */
  lemma {:induction false} SingleChangeDetected(v: Data, i: nat, a: bv32)
    requires Fives(v) && i < |v| && a < 32 && a != v[i]
    ensures PolyMod(v[i := a]) != PolyMod(v)
  {
    hide PolyMod;
    BurstDetected(v[..i], [v[i]], [a], v[i + 1..]);
    assert v == v[..i] + [v[i]] + v[i + 1..];
    assert v[i := a] == v[..i] + [a] + v[i + 1..];
  }

  /** The six values that make the checksum come out as `target`, and no others. */
  lemma {:induction false} ChecksumUnique(enc: Data, six: Data, target: bv32)
    requires Fives(enc) && |six| == 6 && Fives(six) && target < LIMIT
    ensures PolyMod(enc + six) == target <==> six == Groups(Xor(PolyMod(enc + [0, 0, 0, 0, 0, 0]), target))
  {
    hide Fold, Xor, Groups;
    var c, zeros := Fold(1, enc), [0, 0, 0, 0, 0, 0];
    FoldConcat(1, enc, six);
    FoldConcat(1, enc, zeros);
    FoldBound(1, enc + zeros);
    FoldXor(c, 0, zeros, six);
    XorSelf(c);
    forall i | 0 <= i < 6 ensures Xor(zeros[i], six[i]) == six[i] { XorComm(0, six[i]); XorSelf(six[i]); }
    assert XorAll(zeros, six) == six;
    var base, m := Fold(c, zeros), Fold(0, six);
    XorBound(base, target);
    FoldGroups(six, Xor(base, target));
    XorMove(base, m, target);
  }

  lemma {:induction false} XorMove(a: bv32, b: bv32, c: bv32)
    ensures Xor(a, b) == c <==> b == Xor(a, c)
  {
    hide Xor;
    XorSelf(a);
    XorAssoc(a, a, b);
    XorAssoc(a, a, c);
    XorComm(0, b);
    XorComm(0, c);
    XorSelf(b);
    XorSelf(c);
  }
}
