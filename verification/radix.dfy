/** Big-endian digit strings in any base: reading and writing them are inverse. */
module Radix {
  import opened Numbers

  /** The number a digit string denotes. */
  function FromDigits(b: nat, s: seq<nat>): nat {
    if s == [] then 0 else FromDigits(b, s[..|s| - 1]) * b + s[|s| - 1]
  }

  /** The shortest digit string of a number. */
  function ToDigits(b: nat, v: nat): seq<nat>
    requires b > 1
  {
    if v == 0 then [] else
    Smaller(v, b);
    ToDigits(b, v / b) + [v % b]
  }

  lemma Smaller(v: nat, b: nat)
    requires v > 0 && b > 1
    ensures v / b < v
  {
    DivMod(v, b);
    MulMonotone(2, b, v / b);
  }

  /** No leading zero, every digit below the base. */
  ghost predicate Canonical(b: nat, s: seq<nat>) {
    Digits(b, s) && (s != [] ==> s[0] != 0)
  }

  lemma FromStep(b: nat, t: seq<nat>, x: nat)
    ensures FromDigits(b, t + [x]) == FromDigits(b, t) * b + x
  {
    assert (t + [x])[..|t|] == t;
  }

  lemma {:induction false} ToStep(b: nat, q: nat, r: nat)
    requires b > 1 && r < b && (q > 0 || r > 0)
    ensures ToDigits(b, q * b + r) == ToDigits(b, q) + [r]
  {
    DivModUnique(q * b + r, b, q, r);
    if q > 0 { MulPositive(q, b); }
  }

  lemma {:induction false} ReadBack(b: nat, v: nat)
    requires b > 1
    ensures FromDigits(b, ToDigits(b, v)) == v && Canonical(b, ToDigits(b, v))
  {
    if v > 0 {
      var q, r := v / b, v % b;
      DivMod(v, b);
      Smaller(v, b);
      ReadBack(b, q);
      ReadBackStep(b, q, r);
    }
  }

  lemma {:induction false} ReadBackStep(b: nat, q: nat, r: nat)
    requires b > 1 && r < b && (q > 0 || r > 0) && FromDigits(b, ToDigits(b, q)) == q && Canonical(b, ToDigits(b, q))
    ensures FromDigits(b, ToDigits(b, q * b + r)) == q * b + r && Canonical(b, ToDigits(b, q * b + r))
  {
    ToStep(b, q, r);
    FromStep(b, ToDigits(b, q), r);
    if q == 0 { assert ToDigits(b, q) == []; }
    hide FromDigits;
  }

  lemma {:induction false} Positive(b: nat, s: seq<nat>)
    requires b > 0 && s != [] && s[0] != 0
    ensures FromDigits(b, s) > 0
  {
    if |s| > 1 {
      var n := |s| - 1;
      Positive(b, s[..n]);
      MulPositive(FromDigits(b, s[..n]), b);
    } else {
      assert s[..0] == [];
    }
  }

  lemma {:induction false} WriteBack(b: nat, s: seq<nat>)
    requires b > 1 && Canonical(b, s)
    ensures ToDigits(b, FromDigits(b, s)) == s
  {
    if s != [] {
      var n := |s| - 1;
      Positive(b, s);
      WriteBack(b, s[..n]);
      DivModUnique(FromDigits(b, s), b, FromDigits(b, s[..n]), s[n]);
      assert s == s[..n] + [s[n]];
    }
  }

  lemma {:induction false} FromZeros(b: nat, s: seq<nat>)
    requires forall i :: 0 <= i < |s| ==> s[i] == 0
    ensures FromDigits(b, s) == 0
  {
    if s != [] { FromZeros(b, s[..|s| - 1]); }
  }

  lemma {:induction false} FromConcat(b: nat, s: seq<nat>, t: seq<nat>)
    ensures FromDigits(b, s + t) == FromDigits(b, s) * Pow(b, |t|) + FromDigits(b, t)
  {
    if t == [] {
      assert s + t == s;
    } else {
      var n := |t| - 1;
      FromConcat(b, s, t[..n]);
      assert (s + t)[..|s| + n] == s + t[..n];
      Distribute(FromDigits(b, s) * Pow(b, n), FromDigits(b, t[..n]), b);
      MulAssoc(FromDigits(b, s), Pow(b, n), b);
      assert Pow(b, n) * b == Pow(b, n + 1);
    }
  }

  /** Leading zeros do not count. */
  lemma {:induction false} Leading(b: nat, s: seq<nat>, k: nat)
    requires k <= |s| && forall i :: 0 <= i < k ==> s[i] == 0
    ensures FromDigits(b, s) == FromDigits(b, s[k..])
  {
    assert s == s[..k] + s[k..];
    FromConcat(b, s[..k], s[k..]);
    FromZeros(b, s[..k]);
  }

  lemma {:induction false} FromBound(b: nat, s: seq<nat>)
    requires b > 0 && Digits(b, s)
    ensures FromDigits(b, s) < Pow(b, |s|)
  {
    if s != [] {
      var n := |s| - 1;
      FromBound(b, s[..n]);
      BoundStep(FromDigits(b, s[..n]), Pow(b, n), b, s[n]);
    }
  }

  lemma {:induction false} BoundStep(v: nat, p: nat, b: nat, x: nat)
    requires v < p && x < b
    ensures v * b + x < b * p
  {
    MulMonotone(v + 1, p, b);
    Distribute(v, 1, b);
  }

  // ---------- Buffers that are long enough ----------

  /** A power of one base fits in so many digits of the other. */
  lemma {:induction false} PowTimes(b: nat, m: nat, n: nat)
    ensures Pow(b, m * n) == Pow(Pow(b, m), n)
  {
    if n > 0 {
      PowTimes(b, m, n - 1);
      PowAdd(b, m, m * (n - 1));
      assert m + m * (n - 1) == m * n;
    }
  }

  lemma {:induction false} PowBase(a: nat, b: nat, n: nat)
    requires a <= b
    ensures Pow(a, n) <= Pow(b, n)
  {
    if n > 0 {
      PowBase(a, b, n - 1);
      MulMonotone(a, b, Pow(a, n - 1));
      MulMonotone(Pow(a, n - 1), Pow(b, n - 1), b);
    }
  }

  /** If m digits of base a fit in k of base b, then so for every multiple, with a remainder. */
  lemma {:induction false} FitsMany(a: nat, m: nat, b: nat, k: nat, q: nat, r: nat, c: nat)
    requires Pow(a, m) <= Pow(b, k) && Pow(a, r) <= Pow(b, c)
    ensures Pow(a, m * q + r) <= Pow(b, k * q + c)
  {
    hide Pow;
    PowTimes(a, m, q);
    PowTimes(b, k, q);
    PowBase(Pow(a, m), Pow(b, k), q);
    PowAdd(a, m * q, r);
    PowAdd(b, k * q, c);
    MulMonotone(Pow(a, m * q), Pow(b, k * q), Pow(a, r));
    MulMonotone(Pow(a, r), Pow(b, c), Pow(b, k * q));
  }
}
