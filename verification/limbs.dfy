/** Sequences of 32-bit limbs and the numbers they stand for: carries, comparison and
    shifts by fewer than 32 bits. */
module Limbs {
  import opened Numbers

  const WIDTH := 8
  const BASE := 0x1_0000_0000

  type Limb = x: nat | x < BASE

  /** 2^256. */
  function Modulus(): nat {
    Pow(BASE, WIDTH)
  }

  function Number(s: seq<Limb>): nat {
    Value(BASE, s)
  }

  lemma NumberBound(s: seq<Limb>)
    ensures Number(s) < Pow(BASE, |s|)
  {
    ValueBound(BASE, s);
  }

  /** One step of a carry loop: adding x at digit i and splitting off the new carry. */
  lemma {:induction false} CarryStep(lo: nat, carry: nat, x: nat, i: nat)
    ensures var n := carry + x;
            lo + (n % BASE) * Pow(BASE, i) + (n / BASE) * Pow(BASE, i + 1) == lo + carry * Pow(BASE, i) + x * Pow(BASE, i)
  {
    var n, p := carry + x, Pow(BASE, i);
    DivMod(n, BASE);
    MulAssoc(n / BASE, BASE, p);
    Distribute(n / BASE * BASE, n % BASE, p);
    Distribute(carry, x, p);
  }

  lemma Nothing(s: seq<Limb>)
    ensures Number(s[..0]) == 0 && Pow(BASE, 0) == 1
  {
  }

  // The number of a prefix, one limb longer.
  lemma {:induction false} PrefixStep(s: seq<Limb>, i: nat)
    requires i < |s|
    ensures Number(s[..i + 1]) == Number(s[..i]) + s[i] * Pow(BASE, i)
  {
    assert s[..i + 1] == s[..i] + [s[i]];
    ValueAppend(BASE, s[..i], s[i]);
  }

  // Equal tails: the numbers differ only by the prefixes.
  lemma {:induction false} SameTail(s: seq<Limb>, t: seq<Limb>, k: nat)
    requires |s| == |t| && k <= |s| && s[k..] == t[k..]
    ensures Number(s) - Number(s[..k]) == Number(t) - Number(t[..k])
  {
    ValueConcat(BASE, s[..k], s[k..]);
    ValueConcat(BASE, t[..k], t[k..]);
    assert s[..k] + s[k..] == s && t[..k] + t[k..] == t;
  }

  // The highest differing limb decides.
  lemma {:induction false} CompareAt(s: seq<Limb>, t: seq<Limb>, i: nat)
    requires |s| == |t| && i < |s| && s[i + 1..] == t[i + 1..] && s[i] < t[i]
    ensures Number(s) < Number(t)
  {
    SameTail(s, t, i + 1);
    PrefixStep(s, i);
    PrefixStep(t, i);
    NumberBound(s[..i]);
    MulMonotone(s[i] + 1, t[i], Pow(BASE, i));
    Distribute(s[i], 1, Pow(BASE, i));
  }

  // ---------- Bits ----------

  function BitOr(a: nat, b: nat): nat
    decreases a + b
  {
    if a == 0 && b == 0 then 0
    else (if a % 2 == 1 || b % 2 == 1 then 1 else 0) + 2 * BitOr(a / 2, b / 2)
  }

  lemma {:induction false} OrZero(a: nat)
    ensures BitOr(0, a) == a && BitOr(a, 0) == a
  {
    if a > 0 { OrZero(a / 2); }
  }

  /** Or of numbers without common bits is their sum. */
  lemma {:induction false} OrDisjoint(s: nat, x: nat, z: nat)
    requires x < Pow(2, s)
    ensures BitOr(x, z * Pow(2, s)) == x + z * Pow(2, s) == BitOr(z * Pow(2, s), x)
  {
    if s == 0 {
      OrZero(z);
    } else {
      var y := z * Pow(2, s - 1);
      assert z * Pow(2, s) == 2 * y;
      OrDisjoint(s - 1, x / 2, z);
      assert (2 * y) / 2 == y && (2 * y) % 2 == 0;
    }
  }

  lemma BasePow(s: nat)
    requires s <= 32
    ensures Pow(2, s) * Pow(2, 32 - s) == BASE
    ensures Pow(2, s) > 0 && Pow(2, 32 - s) > 0
  {
    PowAdd(2, s, 32 - s);
    PowPositive(2, s);
    PowPositive(2, 32 - s);
    TwoTo32();
  }

  lemma TwoTo32()
    ensures Pow(2, 32) == BASE
  {
    assert Pow(2, 8) == 256;
    PowAdd(2, 8, 8);
    PowAdd(2, 16, 16);
  }

  lemma {:induction false} LimbPow(k: nat)
    ensures Pow(BASE, k) == Pow(2, 32 * k)
  {
    if k > 0 {
      LimbPow(k - 1);
      PowAdd(2, 32, 32 * (k - 1));
      TwoTo32();
      assert 32 + 32 * (k - 1) == 32 * k;
    }
  }

  /** The part of x << s that stays in the limb. */
  function Lo(x: Limb, s: nat): Limb {
    (x * Pow(2, s)) % BASE
  }

  /** The part of x << s that moves into the next limb. */
  function Hi(x: Limb, s: nat): Limb
    requires s < 32
  {
    if s == 0 then 0 else
      PowPositive(2, 32 - s);
      QuotientSmaller(x, Pow(2, 32 - s));
      x / Pow(2, 32 - s)
  }

  lemma QuotientSmaller(x: nat, d: nat)
    requires d > 0
    ensures x / d <= x
  {
    DivMod(x, d);
    MulAtLeast(x / d, d);
  }

  /** Both parts together are the shifted limb, and they fit side by side in one limb. */
  lemma {:induction false} LoHi(x: Limb, s: nat)
    requires s < 32
    ensures x * Pow(2, s) == Hi(x, s) * BASE + Lo(x, s)
    ensures Hi(x, s) < Pow(2, s)
    ensures Pow(2, 32 - s) > 0 && Lo(x, s) == (x % Pow(2, 32 - s)) * Pow(2, s)
  {
    hide Pow;
    var p, q := Pow(2, s), Pow(2, 32 - s);
    BasePow(s);
    DivMod(x, q);
    var h, l := x / q, x % q;
    // x * p == (h * q + l) * p == h * BASE + l * p
    Distribute(h * q, l, p);
    MulAssoc(h, q, p);
    MulStrict(l, q, p);
    DivModUnique(x * p, BASE, h, l * p);
    assert Lo(x, s) == l * p;
    if s == 0 {
      PowZero(2);
      assert q == BASE;
      DivModUnique(x, BASE, 0, x);
    } else if h >= p {
      MulMonotone(p, h, q);
    }
  }

  lemma LoHiSum(x: Limb, s: nat)
    requires s < 32
    ensures x * Pow(2, s) == Hi(x, s) * BASE + Lo(x, s)
  {
    LoHi(x, s);
  }

  // ---------- Shifting left ----------

  /** The limbs of a << s, one limb longer so that nothing is lost. */
  function ShlLimbs(a: seq<Limb>, s: nat): (r: seq<Limb>)
    requires s < 32
    ensures |r| == |a| + 1
    ensures r[|a|] == if a == [] then 0 else Hi(a[|a| - 1], s)
  {
    if a == [] then [0]
    else
      var n := |a| - 1;
      var low := ShlLimbs(a[..n], s);
      FitTogether(a[..n], a[n], s);
      low[..n] + [low[n] + Lo(a[n], s)] + [Hi(a[n], s)]
  }

  lemma {:induction false} FitTogether(a: seq<Limb>, x: Limb, s: nat)
    requires s < 32
    ensures (if a == [] then 0 else Hi(a[|a| - 1], s)) < Pow(2, s)
    ensures (if a == [] then 0 else Hi(a[|a| - 1], s)) + Lo(x, s) < BASE
  {
    hide Pow;
    LoHi(x, s);
    PowPositive(2, s);
    var h: nat := if a == [] then 0 else Hi(a[|a| - 1], s);
    if a != [] { LoHi(a[|a| - 1], s); }
    var z := x % Pow(2, 32 - s);
    BasePow(s);
    MulMonotone(z + 1, Pow(2, 32 - s), Pow(2, s));
    Distribute(z, 1, Pow(2, s));
  }

  // One limb more: its low part joins the top limb, its high part becomes the new top limb.
  lemma {:induction false} ShlExtend(a: seq<Limb>, x: Limb, s: nat)
    requires s < 32
    ensures var low := ShlLimbs(a, s);
            low[|a|] + Lo(x, s) < BASE && ShlLimbs(a + [x], s) == low[..|a|] + [low[|a|] + Lo(x, s)] + [Hi(x, s)]
  {
    assert (a + [x])[..|a|] == a;
    FitTogether(a, x, s);
  }

  lemma {:induction false} ShlValue(a: seq<Limb>, s: nat)
    requires s < 32
    ensures Number(ShlLimbs(a, s)) == Number(a) * Pow(2, s)
  {
    if a == [] {
      ValueOne(BASE, 0);
    } else {
      hide Pow, Value, Lo, Hi, ShlLimbs;
      var n, x := |a| - 1, a[|a| - 1];
      var low := ShlLimbs(a[..n], s);
      assert a == a[..n] + [x];
      ShlValue(a[..n], s);
      ShlExtend(a[..n], x, s);
      var mid: Limb := low[n] + Lo(x, s);
      LoHiSum(x, s);
      ValueAppend(BASE, a[..n], x);
      ValueAppend(BASE, low[..n], low[n]);
      assert low == low[..n] + [low[n]];
      ValueAppend(BASE, low[..n], mid);
      ValueAppend(BASE, low[..n] + [mid], Hi(x, s));
      PowNext(BASE, n);
      ShlAlgebra(Number(low[..n]), low[n], Lo(x, s), Hi(x, s), x, Pow(2, s), Number(a[..n]), Pow(BASE, n));
    }
  }

  lemma {:induction false} ShlAlgebra(low: nat, top: nat, lo: nat, hi: nat, x: nat, p: nat, num: nat, w: nat)
    requires low + top * w == num * p
    requires x * p == hi * BASE + lo
    ensures low + (top + lo) * w + hi * (BASE * w) == (num + x * w) * p
  {
    Distribute(top, lo, w);
    MulAssoc(hi, BASE, w);
    Distribute(hi * BASE, lo, w);
    Distribute(num, x * w, p);
    assert x * w * p == (x * p) * w by {
      MulAssoc(x, w, p);
      MulAssoc(x, p, w);
      assert w * p == p * w;
    }
  }

  function Zeros(k: nat): (r: seq<Limb>)
    ensures |r| == k && forall i :: 0 <= i < k ==> r[i] == 0
  {
    seq(k, _ => 0)
  }

  /** Limb j of a shifted left by k limbs and s bits, before truncation. */
  function ShiftedLimb(a: seq<Limb>, k: nat, s: nat, j: nat): Limb
    requires s < 32
  {
    if k <= j <= k + |a| then ShlLimbs(a, s)[j - k] else 0
  }

  lemma {:induction false} ShiftSplit(shift: nat)
    ensures Pow(2, shift) == Pow(2, shift % 32) * Pow(BASE, shift / 32)
  {
    LimbPow(shift / 32);
    PowAdd(2, shift % 32, 32 * (shift / 32));
  }

  /** The first limbs of the shifted sequence are the shifted number modulo the width. */
  lemma {:induction false} ShiftLeftValue(a: seq<Limb>, shift: nat, r: seq<Limb>)
    requires |r| == |a|
    requires forall j :: 0 <= j < |r| ==> r[j] == ShiftedLimb(a, shift / 32, shift % 32, j)
    ensures Pow(BASE, |a|) > 0 && Number(r) == (Number(a) * Pow(2, shift)) % Pow(BASE, |a|)
  {
    hide Pow, Value, ShlLimbs;
    var k, s := shift / 32, shift % 32;
    var big := Zeros(k) + ShlLimbs(a, s);
    ValueZeros(BASE, Zeros(k));
    ValueConcat(BASE, Zeros(k), ShlLimbs(a, s));
    ShlValue(a, s);
    ShiftSplit(shift);
    MulAssoc(Number(a), Pow(2, s), Pow(BASE, k));
    ValueSplit(BASE, big, |a|);
    assert big[..|a|] == r;
  }

  // What iteration i of the shift loop does to limb j.
  ghost predicate ShiftStep(a: seq<Limb>, i: nat, k: nat, s: nat, j: nat)
    requires s < 32 && i < |a|
  {
    var before, after := ShiftedLimb(a[..i], k, s, j), ShiftedLimb(a[..i + 1], k, s, j);
    if j == i + k then BitOr(before, Lo(a[i], s)) == after
    else if j == i + k + 1 then before == 0 && after == Hi(a[i], s) && BitOr(0, after) == after
    else before == after
  }

  lemma ShiftStart(k: nat, s: nat, j: nat)
    requires s < 32
    ensures ShiftedLimb([], k, s, j) == 0
  {
  }

  lemma {:induction false} ShiftStepHolds(a: seq<Limb>, i: nat, k: nat, s: nat, j: nat)
    requires s < 32 && i < |a|
    ensures ShiftStep(a, i, k, s, j)
  {
    hide Pow, Lo, Hi, ShlLimbs, BitOr;
    assert a[..i + 1] == a[..i] + [a[i]];
    ShlExtend(a[..i], a[i], s);
    OrZero(Hi(a[i], s));
    if j == i + k {
      FitTogether(a[..i], a[i], s);
      LoHi(a[i], s);
      OrDisjoint(s, ShlLimbs(a[..i], s)[i], a[i] % Pow(2, 32 - s));
    }
  }

  // ---------- Shifting right ----------

  /** The part of x >> s that stays in the limb, and the part that moves into the one below. */
  function Down(x: Limb, s: nat): Limb
    requires s < 32
  {
    if s == 0 then x else Hi(x, 32 - s)
  }

  function Up(x: Limb, s: nat): Limb
    requires s < 32
  {
    if s == 0 then 0 else Lo(x, 32 - s)
  }

  lemma {:induction false} UpDown(x: Limb, s: nat)
    requires s < 32
    ensures x * Pow(2, 32 - s) == Down(x, s) * BASE + Up(x, s)
    ensures Down(x, s) < Pow(2, 32 - s)
    ensures Pow(2, s) > 0 && Up(x, s) == (x % Pow(2, s)) * Pow(2, 32 - s) && Down(x, s) == x / Pow(2, s)
  {
    hide Lo, Pow;
    BasePow(s);
    PowZero(2);
    if s == 0 {
      assert Up(x, s) == 0 * Pow(2, 32 - s);
    } else {
      LoHi(x, 32 - s);
      assert 32 - (32 - s) == s;
    }
  }

  /** The limbs of a >> s. */
  function ShrLimbs(a: seq<Limb>, s: nat): (r: seq<Limb>)
    requires s < 32
    ensures |r| == |a|
    ensures a != [] ==> r[|a| - 1] == Down(a[|a| - 1], s)
  {
    if a == [] then []
    else
      var n := |a| - 1;
      var low := ShrLimbs(a[..n], s);
      if n == 0 then [Down(a[0], s)]
      else
        MeetBelow(a[n - 1], a[n], s);
        low[..n - 1] + [low[n - 1] + Up(a[n], s)] + [Down(a[n], s)]
  }

  lemma {:induction false} MeetBelow(y: Limb, x: Limb, s: nat)
    requires s < 32
    ensures Down(y, s) + Up(x, s) < BASE && BitOr(Down(y, s), Up(x, s)) == Down(y, s) + Up(x, s)
  {
    hide Pow, BitOr, Up, Down;
    UpDown(x, s);
    UpDown(y, s);
    var z := x % Pow(2, s);
    BasePow(s);
    MulMonotone(z + 1, Pow(2, s), Pow(2, 32 - s));
    Distribute(z, 1, Pow(2, 32 - s));
    OrDisjoint(32 - s, Down(y, s), z);
  }

  lemma {:induction false} ShrExtend(a: seq<Limb>, x: Limb, s: nat)
    requires s < 32
    ensures a == [] ==> ShrLimbs(a + [x], s) == [Down(x, s)]
    ensures a != [] ==>
              var low, n := ShrLimbs(a, s), |a| - 1;
              low[n] + Up(x, s) < BASE && BitOr(low[n], Up(x, s)) == low[n] + Up(x, s) &&
              ShrLimbs(a + [x], s) == low[..n] + [low[n] + Up(x, s)] + [Down(x, s)]
  {
    assert (a + [x])[..|a|] == a;
    if a != [] { MeetBelow(a[|a| - 1], x, s); }
  }

  lemma {:induction false} ShrIdentity(a: seq<Limb>, s: nat)
    requires s < 32 && a != []
    ensures Pow(2, s) > 0 && Number(a) == Number(ShrLimbs(a, s)) * Pow(2, s) + a[0] % Pow(2, s)
  {
    hide Pow, Value, Up, Down, ShrLimbs, BitOr;
    var n, x := |a| - 1, a[|a| - 1];
    BasePow(s);
    UpDown(x, s);
    assert a == a[..n] + [x];
    ShrExtend(a[..n], x, s);
    if n == 0 {
      ValueOne(BASE, x);
      assert a == [x];
      ValueOne(BASE, Down(x, s));
      DivMod(x, Pow(2, s));
    } else {
      var low := ShrLimbs(a[..n], s);
      ShrIdentity(a[..n], s);
      var mid: Limb := low[n - 1] + Up(x, s);
      ValueAppend(BASE, a[..n], x);
      ValueAppend(BASE, low[..n - 1], low[n - 1]);
      assert low == low[..n - 1] + [low[n - 1]];
      ValueAppend(BASE, low[..n - 1], mid);
      ValueAppend(BASE, low[..n - 1] + [mid], Down(x, s));
      PowNext(BASE, n - 1);
      ShrAlgebra(Number(low[..n - 1]), low[n - 1], Up(x, s), Down(x, s), x, Pow(2, s), Pow(2, 32 - s), Pow(BASE, n - 1));
    }
  }

  lemma {:induction false} ShrAlgebra(low: nat, top: nat, up: nat, down: nat, x: nat, p: nat, q: nat, w: nat)
    requires x * q == down * BASE + up && p * q == BASE
    ensures (low + (top + up) * w + down * (BASE * w)) * p == (low + top * w) * p + x * (BASE * w)
  {
    Distribute(top, up, w);
    MulAssoc(down, BASE, w);
    Distribute(down * BASE, up, w);
    assert low + (top + up) * w + down * (BASE * w) == (low + top * w) + (x * q) * w;
    Distribute(low + top * w, x * q * w, p);
    assert x * q * w * p == x * (BASE * w) by {
      MulAssoc(x * q, w, p);
      MulAssoc(x, q, w * p);
      MulAssoc(q, w, p);
      assert q * w * p == q * p * w by { MulAssoc(q, w, p); MulAssoc(q, p, w); assert w * p == p * w; }
      assert q * p == BASE;
    }
  }

  /** Limb j of a[..i] shifted right by k limbs and s bits. */
  function RightLimb(a: seq<Limb>, i: nat, k: nat, s: nat, j: nat): Limb
    requires s < 32 && i <= |a|
  {
    if k < i && j < i - k then ShrLimbs(a[k..i], s)[j] else 0
  }

  // What iteration i of the right-shift loop does to limb j.
  lemma {:induction false} RightStep(a: seq<Limb>, i: nat, k: nat, s: nat, j: nat)
    requires s < 32 && i < |a|
    ensures var before, after := RightLimb(a, i, k, s, j), RightLimb(a, i + 1, k, s, j);
            if k <= i && j == i - k then before == 0 && after == Down(a[i], s) && BitOr(0, after) == after
            else if k < i && j == i - k - 1 then BitOr(before, Up(a[i], s)) == after
            else before == after
  {
    hide Pow, Up, Down, ShrLimbs, BitOr;
    OrZero(Down(a[i], s));
    if k <= i {
      assert a[k..i + 1] == a[k..i] + [a[i]];
      ShrExtend(a[k..i], a[i], s);
    }
  }

  lemma {:induction false} ShiftRightValue(a: seq<Limb>, shift: nat, r: seq<Limb>)
    requires |r| == |a|
    requires forall j :: 0 <= j < |r| ==> r[j] == RightLimb(a, |a|, shift / 32, shift % 32, j)
    ensures Pow(2, shift) > 0 && Number(r) == Number(a) / Pow(2, shift)
  {
    hide Pow, Value, ShrLimbs;
    var k, s := shift / 32, shift % 32;
    ShiftSplit(shift);
    PowPositive(2, shift);
    PowPositive(2, s);
    PowPositive(BASE, k);
    if k < |a| {
      var top := a[k..];
      assert a[k..|a|] == top;
      assert r == ShrLimbs(top, s) + Zeros(k);
      ValueConcat(BASE, ShrLimbs(top, s), Zeros(k));
      ValueZeros(BASE, Zeros(k));
      ShrIdentity(top, s);
      DivModUnique(Number(top), Pow(2, s), Number(ShrLimbs(top, s)), top[0] % Pow(2, s));
      ValueSplit(BASE, a, k);
      DivDiv(Number(a), Pow(BASE, k), Pow(2, s));
      assert Pow(BASE, k) * Pow(2, s) == Pow(2, shift);
    } else {
      ValueZeros(BASE, r);
      ValueBound(BASE, a);
      PowMonotone(BASE, |a|, k);
      MulMonotone(1, Pow(2, s), Pow(BASE, k));
      DivModUnique(Number(a), Pow(2, shift), 0, Number(a));
    }
  }

  // ---------- Single bits ----------

  predicate BitSet(x: nat, n: nat) {
    PowPositive(2, n);
    (x / Pow(2, n)) % 2 == 1
  }

  // Below 2^(n+1), bit n decides which side of 2^n a number is on.
  lemma {:induction false} TopBit(x: nat, n: nat)
    requires x < Pow(2, n + 1)
    ensures BitSet(x, n) <==> x >= Pow(2, n)
  {
    var p := Pow(2, n);
    PowPositive(2, n);
    if x >= p {
      DivModUnique(x, p, 1, x - p);
    } else {
      DivModUnique(x, p, 0, x);
    }
  }

  /** The highest non-zero limb and its highest bit bound the number. */
  lemma {:induction false} TopLimb(s: seq<Limb>, pos: nat, n: nat)
    requires pos < |s| && n < 32 && (forall i :: pos < i < |s| ==> s[i] == 0)
    requires Pow(2, n) <= s[pos] < Pow(2, n + 1)
    ensures Pow(2, 32 * pos + n) <= Number(s) < Pow(2, 32 * pos + n + 1)
  {
    hide Pow, Value;
    var w := Pow(BASE, pos);
    var x: nat := s[pos];
    LimbPow(pos);
    PowPositive(BASE, pos);
    PrefixStep(s, pos);
    NumberBound(s[..pos]);
    ValueConcat(BASE, s[..pos + 1], s[pos + 1..]);
    assert s[..pos + 1] + s[pos + 1..] == s;
    ValueZeros(BASE, s[pos + 1..]);
    PowAdd(2, n, 32 * pos);
    PowAdd(2, n + 1, 32 * pos);
    MulMonotone(Pow(2, n), x, w);
    MulMonotone(x + 1, Pow(2, n + 1), w);
    Distribute(x, 1, w);
    assert 32 * pos + n == n + 32 * pos && 32 * pos + n + 1 == n + 1 + 32 * pos;
  }

  lemma {:induction false} NumberUpdate(s: seq<Limb>, i: nat, y: Limb)
    requires i < |s|
    ensures Number(s[i := y]) == Number(s) + (y - s[i]) * Pow(BASE, i)
  {
    hide Pow, Value;
    var t := s[i := y];
    SameTail(s, t, i + 1);
    PrefixStep(s, i);
    PrefixStep(t, i);
    assert s[..i] == t[..i];
    Distribute(y - s[i], s[i], Pow(BASE, i));
  }

  lemma {:induction false} ModScale(q: nat, r: nat, p: nat, b: nat)
    requires r > 0 && p > 0 && r * p == b
    ensures b > 0 && (q * p) % b == (q % r) * p
  {
    MulPositive(r, p);
    DivMod(q, r);
    Distribute(q / r * r, q % r, p);
    MulAssoc(q / r, r, p);
    MulStrict(q % r, r, p);
    DivModUnique(q * p, b, q / r, (q % r) * p);
  }

  /** In a multiple of 2^(32l+t+1) the limb l has its low t+1 bits clear. */
  lemma {:induction false} LimbDivisible(s: seq<Limb>, l: nat, t: nat, q: nat)
    requires l < |s| && t < 32 && Number(s) == q * Pow(2, 32 * l + t + 1)
    ensures Pow(2, 31 - t) > 0 && s[l] == (q % Pow(2, 31 - t)) * Pow(2, t + 1)
  {
    hide Pow, Value;
    var p, r := Pow(2, t + 1), Pow(2, 31 - t);
    PowPositive(2, 31 - t);
    DropLimbs(s, l, t + 1, q);
    FirstLimb(s[l..]);
    BasePow(t + 1);
    assert 32 - (t + 1) == 31 - t && r * p == BASE;
    ModScale(q, r, p, BASE);
  }

  lemma {:induction false} FirstLimb(s: seq<Limb>)
    requires s != []
    ensures s[0] == Number(s) % BASE
  {
    hide Pow, Value;
    ValueSplit(BASE, s, 1);
    PowOne(BASE);
    assert s[..1] == [s[0]];
    ValueOne(BASE, s[0]);
  }

  lemma {:induction false} DropLimbs(s: seq<Limb>, l: nat, e: nat, q: nat)
    requires l <= |s| && Number(s) == q * Pow(2, 32 * l + e)
    ensures Number(s[l..]) == q * Pow(2, e)
  {
    hide Pow, Value;
    var p, w := Pow(2, e), Pow(BASE, l);
    PowPositive(BASE, l);
    LimbPow(l);
    PowAdd(2, e, 32 * l);
    assert 32 * l + e == e + 32 * l;
    MulAssoc(q, p, w);
    ValueSplit(BASE, s, l);
    DivModUnique(Number(s), w, q * p, 0);
  }

  lemma PowOne(b: nat)
    ensures Pow(b, 1) == b
  {
  }

  /** Setting bit 32l+t of a multiple of 2^(32l+t+1) adds that power of two. */
  lemma {:induction false} SetBit(s: seq<Limb>, l: nat, t: nat, q: nat)
    requires l < |s| && t < 32 && Number(s) == q * Pow(2, 32 * l + t + 1)
    ensures BitOr(s[l], Pow(2, t)) < BASE
    ensures Number(s[l := BitOr(s[l], Pow(2, t))]) == Number(s) + Pow(2, 32 * l + t)
  {
    hide Pow, Value, BitOr;
    LimbDivisible(s, l, t, q);
    var z := q % Pow(2, 31 - t);
    PowPositive(2, t);
    PowDouble(t);
    OrDisjoint(t + 1, Pow(2, t), z);
    BasePow(t + 1);
    assert 32 - (t + 1) == 31 - t;
    MulMonotone(z + 1, Pow(2, 31 - t), Pow(2, t + 1));
    Distribute(z, 1, Pow(2, t + 1));
    NumberUpdate(s, l, BitOr(s[l], Pow(2, t)));
    LimbPow(l);
    PowAdd(2, t, 32 * l);
    assert 32 * l + t == t + 32 * l;
  }

  lemma PowDouble(t: nat)
    ensures Pow(2, t + 1) == 2 * Pow(2, t)
  {
  }

  // ---------- Shift-subtract division ----------

  /** The floor quotient, and what is left in the result when division by zero is refused. */
  function Quotient(x: nat, d: nat): nat {
    if d == 0 then 0 else x / d
  }

  lemma QuotientIs(x: nat, d: nat, q: nat, r: nat)
    requires r < d && x == q * d + r
    ensures Quotient(x, d) == q
  {
    DivModUnique(x, d, q, r);
  }

  lemma DivideByZero(x: nat)
    ensures Quotient(x, 0) == 0
  {
  }

  /** Aligning the divisor's top bit with the numerator's neither overflows nor starts too low. */
  lemma {:induction false} Aligned(x: nat, d: nat, xBits: nat, dBits: nat)
    requires 0 < dBits <= xBits <= 32 * WIDTH && x < Pow(2, xBits) && Pow(2, dBits - 1) <= d < Pow(2, dBits)
    ensures d * Pow(2, xBits - dBits) < Pow(BASE, WIDTH)
    ensures x < d * Pow(2, xBits - dBits + 1)
  {
    hide Pow;
    var k := xBits - dBits;
    PowPositive(2, k);
    MulStrict(d, Pow(2, dBits), Pow(2, k));
    PowAdd(2, dBits, k);
    PowMonotone(2, xBits, 32 * WIDTH);
    LimbPow(WIDTH);
    PowAdd(2, dBits - 1, k + 1);
    MulMonotone(Pow(2, dBits - 1), d, Pow(2, k + 1));
  }

  /** One step: the next quotient bit is 1 exactly when the shifted divisor fits. */
  lemma {:induction false} DivideStep(x: nat, v: nat, d: nat, num: nat, q: nat, p: nat)
    requires x == v * d + num && num < d * (2 * p) && v == q * (2 * p)
    ensures v == (2 * q) * p && v + p == (2 * q + 1) * p
    ensures num >= d * p ==> x == (v + p) * d + (num - d * p) && num - d * p < d * p
  {
    MulAssoc(q, 2, p);
    Distribute(2 * q, 1, p);
    Distribute(v, p, d);
    assert p * d == d * p;
    MulAssoc(d, 2, p);
    assert d * 2 * p == 2 * (d * p);
  }

  lemma {:induction false} HalveShifted(d: nat, shift: nat)
    requires shift > 0
    ensures Pow(2, 1) > 0 && (d * Pow(2, shift)) / Pow(2, 1) == d * Pow(2, shift - 1)
  {
    PowOne(2);
    assert d * Pow(2, shift) == d * Pow(2, shift - 1) * 2;
    DivModUnique(d * Pow(2, shift), 2, d * Pow(2, shift - 1), 0);
  }

  // ---------- Low limbs and products ----------

  lemma {:induction false} LowTwo(s: seq<Limb>)
    requires |s| >= 2 && forall i :: 2 <= i < |s| ==> s[i] == 0
    ensures Number(s) == s[0] + s[1] * BASE
  {
    hide Pow, Value;
    ValueConcat(BASE, s[..2], s[2..]);
    assert s[..2] + s[2..] == s;
    ValueZeros(BASE, s[2..]);
    TwoLimbs(s);
  }

  lemma {:induction false} TwoLimbs(s: seq<Limb>)
    requires |s| >= 2
    ensures Number(s[..2]) == s[0] + s[1] * BASE
  {
    hide Pow, Value;
    Nothing(s);
    PrefixStep(s, 0);
    PrefixStep(s, 1);
    PowOne(BASE);
  }

  lemma {:induction false} Low64(s: seq<Limb>)
    requires |s| >= 2
    ensures s[0] + s[1] * BASE == Number(s) % (BASE * BASE)
  {
    hide Pow, Value;
    TwoLimbs(s);
    ValueSplit(BASE, s, 2);
    PowAdd(BASE, 1, 1);
    PowOne(BASE);
  }

  /** The 64-bit intermediate of a multiply step never overflows, and its carry fits 32 bits. */
  lemma {:induction false} ProductFits(carry: nat, x: Limb, y: Limb, z: Limb)
    requires carry < BASE
    ensures carry + z + x * y < BASE * BASE && (carry + z + x * y) / BASE < BASE
  {
    MulMonotone(x, BASE - 1, y);
    var n := carry + z + x * y;
    DivMod(n, BASE);
  }

  lemma {:induction false} WindowStep(s: seq<Limb>, j: nat, i: nat)
    requires j + i < |s|
    ensures Number(s[j..j + i + 1]) == Number(s[j..j + i]) + s[i + j] * Pow(BASE, i)
  {
    assert s[j..j + i + 1] == s[j..j + i] + [s[i + j]];
    ValueAppend(BASE, s[j..j + i], s[i + j]);
  }

  lemma {:induction false} ModAdd(a: nat, y: nat, m: nat)
    requires m > 0
    ensures (a % m + y) % m == (a + y) % m
  {
    DivMod(a, m);
    ModAddMultiple(a % m + y, a / m, m);
  }

  /** What the inner multiply loop adds up to, truncated to the width. */
  lemma {:induction false} ScaledSum(s: seq<Limb>, t: seq<Limb>, b: seq<Limb>, x: Limb, j: nat, carry: nat)
    requires |s| == |t| == |b| == WIDTH && j < WIDTH && t[..j] == s[..j]
    requires Number(t[j..]) + carry * Pow(BASE, WIDTH - j) == Number(s[j..]) + x * Number(b[..WIDTH - j])
    ensures Pow(BASE, WIDTH) > 0 && Number(t) == (Number(s) + x * Number(b) * Pow(BASE, j)) % Pow(BASE, WIDTH)
  {
    hide Pow, Value;
    var w, v := Pow(BASE, j), Pow(BASE, WIDTH - j);
    PowPositive(BASE, WIDTH);
    PowAdd(BASE, j, WIDTH - j);
    var e := WIDTH - j;
    ValueConcat(BASE, t[..j], t[j..]);
    ValueConcat(BASE, s[..j], s[j..]);
    ValueConcat(BASE, b[..e], b[e..]);
    assert t[..j] + t[j..] == t && s[..j] + s[j..] == s && b[..e] + b[e..] == b;
    NumberBound(t);
    ScaledAlgebra(Number(t[j..]), Number(s[j..]), Number(b[..e]), Number(b[e..]), x, carry, w, v);
    DivModUnique(Number(s) + x * Number(b) * w, Pow(BASE, WIDTH), carry + x * Number(b[e..]), Number(t));
  }

  lemma {:induction false} ScaledAlgebra(t: nat, s: nat, lo: nat, hi: nat, x: nat, carry: nat, w: nat, v: nat)
    requires t + carry * v == s + x * lo
    ensures s * w + x * (lo + hi * v) * w == (carry + x * hi) * (w * v) + t * w
  {
    Distribute(t, carry * v, w);
    Distribute(s, x * lo, w);
    Distribute(lo, hi * v, x);
    assert x * (lo + hi * v) == x * lo + x * hi * v by { MulAssoc(x, hi, v); }
    Distribute(x * lo, x * hi * v, w);
    Distribute(carry, x * hi, w * v);
    assert carry * v * w == carry * (w * v) by { MulAssoc(carry, v, w); assert v * w == w * v; }
    assert x * hi * v * w == x * hi * (w * v) by { MulAssoc(x * hi, v, w); assert v * w == w * v; }
  }

  /** A row of the multiplication after i of its limbs: t holds s plus x times b there, up to the carry. */
  ghost predicate Scaled(s: seq<Limb>, t: seq<Limb>, b: seq<Limb>, x: Limb, j: nat, i: nat, carry: nat) {
    && |s| == |t| == |b| == WIDTH && i + j <= WIDTH && carry < BASE && t[..j] == s[..j]
    && (forall k :: i + j <= k < WIDTH ==> t[k] == s[k])
    && Number(t[j..j + i]) + carry * Pow(BASE, i) == Number(s[j..j + i]) + x * Number(b[..i])
  }

  lemma {:induction false} ScaledStart(s: seq<Limb>, b: seq<Limb>, x: Limb, j: nat)
    requires |s| == |b| == WIDTH && j < WIDTH
    ensures Scaled(s, s, b, x, j, 0, 0)
  {
    hide Pow, Value;
    Nothing(s);
    assert s[j..j] == s[..0] && b[..0] == s[..0];
  }

  lemma {:induction false} ScaledFits(s: seq<Limb>, t: seq<Limb>, b: seq<Limb>, x: Limb, j: nat, i: nat, carry: nat)
    requires Scaled(s, t, b, x, j, i, carry) && i + j < WIDTH
    ensures t[i + j] == s[i + j] && (carry + t[i + j] + x * b[i]) / BASE < BASE
  {
    hide Pow, Value;
    ProductFits(carry, x, b[i], s[i + j]);
  }

  lemma {:induction false} ScaledStep(s: seq<Limb>, t: seq<Limb>, b: seq<Limb>, x: Limb, j: nat, i: nat, carry: nat,
                                      n: nat)
    requires Scaled(s, t, b, x, j, i, carry) && i + j < WIDTH && n == carry + t[i + j] + x * b[i] && n / BASE < BASE
    ensures Scaled(s, t[i + j := n % BASE], b, x, j, i + 1, n / BASE)
  {
    hide Pow, Value, Number;
    var u := t[i + j := n % BASE];
    MultiplyStep(Number(t[j..j + i]), carry, Number(s[j..j + i]), Number(b[..i]), s[i + j], x, b[i], i);
    WindowStep(s, j, i);
    WindowStep(u, j, i);
    PrefixStep(b, i);
    assert u[j..j + i] == t[j..j + i] && u[..j] == t[..j];
    assert j + (i + 1) == j + i + 1;
  }

  lemma {:induction false} ScaledEnd(s: seq<Limb>, t: seq<Limb>, b: seq<Limb>, x: Limb, j: nat, carry: nat)
    requires j < WIDTH && Scaled(s, t, b, x, j, WIDTH - j, carry)
    ensures Pow(BASE, WIDTH) > 0 && Number(t) == (Number(s) + x * Number(b) * Pow(BASE, j)) % Pow(BASE, WIDTH)
  {
    hide Pow, Value;
    assert t[j..WIDTH] == t[j..] && s[j..WIDTH] == s[j..];
    ScaledSum(s, t, b, x, j, carry);
  }

  lemma {:induction false} MultiplyStep(lo: nat, carry: nat, s: nat, b: nat, z: nat, x: nat, y: nat, i: nat)
    requires lo + carry * Pow(BASE, i) == s + x * b
    ensures var n := carry + z + x * y;
            lo + (n % BASE) * Pow(BASE, i) + (n / BASE) * Pow(BASE, i + 1) == (s + z * Pow(BASE, i)) + x * (b + y * Pow(BASE, i))
  {
    hide Pow;
    var p := Pow(BASE, i);
    assert carry + z + x * y == carry + (z + x * y);
    CarryStep(lo, carry, z + x * y, i);
    Distribute(z, x * y, p);
    Distribute(b, y * p, x);
    MulAssoc(x, y, p);
  }

  // One row of the schoolbook product.
  lemma {:induction false} RowStep(x: seq<Limb>, j: nat, m: nat)
    requires j < |x|
    ensures Pow(BASE, WIDTH) > 0
    ensures ((Number(x[..j]) * m) % Pow(BASE, WIDTH) + x[j] * m * Pow(BASE, j)) % Pow(BASE, WIDTH) ==
            (Number(x[..j + 1]) * m) % Pow(BASE, WIDTH)
  {
    hide Pow, Value;
    var p, w: nat := Pow(BASE, j), x[j];
    PowPositive(BASE, WIDTH);
    PrefixStep(x, j);
    Distribute(Number(x[..j]), w * p, m);
    assert w * p * m == w * m * p by { MulAssoc(w, p, m); MulAssoc(w, m, p); assert p * m == m * p; }
    ModAdd(Number(x[..j]) * m, w * m * p, Pow(BASE, WIDTH));
  }

  lemma {:induction false} HighLimb(s: seq<Limb>, i: nat)
    requires 2 <= i < |s| && s[i] != 0
    ensures Number(s) >= BASE * BASE
  {
    hide Pow, Value;
    PrefixStep(s, i);
    PowMonotone(BASE, 2, i);
    PowAdd(BASE, 1, 1);
    PowOne(BASE);
    MulMonotone(1, s[i], Pow(BASE, i));
    ValueConcat(BASE, s[..i + 1], s[i + 1..]);
    assert s[..i + 1] + s[i + 1..] == s;
  }
}
