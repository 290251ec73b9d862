/** Powers, division and positional values, as the limb and digit algorithms need them. */
module Numbers {

  function Pow(b: nat, e: nat): nat {
    if e == 0 then 1 else b * Pow(b, e - 1)
  }

  lemma PowZero(b: nat)
    ensures Pow(b, 0) == 1
  {
  }

  lemma PowNext(b: nat, e: nat)
    ensures Pow(b, e + 1) == b * Pow(b, e)
  {
  }

  lemma {:induction false} PowAdd(b: nat, m: nat, n: nat)
    ensures Pow(b, m + n) == Pow(b, m) * Pow(b, n)
  {
    if m > 0 {
      PowAdd(b, m - 1, n);
      MulAssoc(b, Pow(b, m - 1), Pow(b, n));
      assert m + n - 1 == (m - 1) + n;
    }
  }

  lemma {:induction false} PowPositive(b: nat, e: nat)
    requires b > 0
    ensures Pow(b, e) > 0
  {
    if e > 0 {
      PowPositive(b, e - 1);
      MulPositive(b, Pow(b, e - 1));
    }
  }

  lemma {:induction false} PowMonotone(b: nat, m: nat, n: nat)
    requires b > 0 && m <= n
    ensures Pow(b, m) <= Pow(b, n)
  {
    PowAdd(b, m, n - m);
    PowPositive(b, n - m);
    MulAtLeast(Pow(b, m), Pow(b, n - m));
  }

  lemma MulAssoc(a: int, b: int, c: int)
    ensures a * (b * c) == (a * b) * c
  {
  }

  lemma MulPositive(a: nat, b: nat)
    requires a > 0 && b > 0
    ensures a * b > 0
  {
  }

  lemma MulAtLeast(a: nat, b: nat)
    requires b > 0
    ensures a * b >= a
  {
  }

  lemma MulMonotone(a: nat, b: nat, c: nat)
    requires a <= b
    ensures a * c <= b * c
  {
  }

  lemma MulStrict(a: nat, b: nat, c: nat)
    requires a < b && c > 0
    ensures a * c < b * c
  {
  }

  lemma Distribute(a: int, b: int, c: int)
    ensures (a + b) * c == a * c + b * c
  {
  }

  lemma DivMod(x: nat, m: nat)
    requires m > 0
    ensures x == (x / m) * m + x % m && x % m < m
  {
  }

  /** Quotient and remainder are determined by the division identity. */
  lemma {:induction false} DivModUnique(x: nat, m: nat, q: nat, r: nat)
    requires r < m && x == q * m + r
    ensures x / m == q && x % m == r
  {
    var q', r' := x / m, x % m;
    DivMod(x, m);
    if q' < q {
      MulMonotone(q' + 1, q, m);
      Distribute(q', 1, m);
    } else if q < q' {
      MulMonotone(q + 1, q', m);
      Distribute(q, 1, m);
    }
  }

  /** Dividing twice is dividing by the product. */
  lemma {:induction false} DivDiv(x: nat, a: nat, b: nat)
    requires a > 0 && b > 0
    ensures a * b > 0 && x / a / b == x / (a * b)
  {
    MulPositive(a, b);
    DivMod(x, a);
    DivMod(x / a, b);
    var q, r := x / a / b, (x / a) % b;
    // x == (q * b + r) * a + x % a
    Distribute(q * b, r, a);
    MulAssoc(q, b, a);
    assert b * a == a * b;
    MulMonotone(r, b - 1, a);
    Distribute(b, -1, a);
    DivModUnique(x, a * b, q, r * a + x % a);
  }

  /** A multiple of m added to x does not change its remainder. */
  lemma {:induction false} ModAddMultiple(x: nat, k: nat, m: nat)
    requires m > 0
    ensures (x + k * m) % m == x % m
  {
    DivMod(x, m);
    Distribute(x / m, k, m);
    DivModUnique(x + k * m, m, x / m + k, x % m);
  }

  // ---------- Positional values, least significant digit first ----------

  function Value(b: nat, s: seq<nat>): nat {
    if s == [] then 0 else Value(b, s[..|s| - 1]) + s[|s| - 1] * Pow(b, |s| - 1)
  }

  ghost predicate Digits(b: nat, s: seq<nat>) {
    forall i :: 0 <= i < |s| ==> s[i] < b
  }

  lemma {:induction false} ValueAppend(b: nat, s: seq<nat>, x: nat)
    ensures Value(b, s + [x]) == Value(b, s) + x * Pow(b, |s|)
  {
    assert (s + [x])[..|s|] == s;
  }

  lemma {:induction false} ValueBound(b: nat, s: seq<nat>)
    requires b > 0 && Digits(b, s)
    ensures Value(b, s) < Pow(b, |s|)
  {
    if s != [] {
      var n := |s| - 1;
      ValueBound(b, s[..n]);
      MulMonotone(s[n], b - 1, Pow(b, n));
      Distribute(b, -1, Pow(b, n));
    }
  }

  lemma {:induction false} ValueConcat(b: nat, s: seq<nat>, t: seq<nat>)
    ensures Value(b, s + t) == Value(b, s) + Value(b, t) * Pow(b, |s|)
  {
    if t == [] {
      assert s + t == s;
    } else {
      var n, x := |t| - 1, t[|t| - 1];
      ValueConcat(b, s, t[..n]);
      assert s + t == (s + t[..n]) + [x];
      ValueAppend(b, s + t[..n], x);
      PowAdd(b, n, |s|);
      MulAssoc(x, Pow(b, n), Pow(b, |s|));
      Distribute(Value(b, t[..n]), x * Pow(b, n), Pow(b, |s|));
    }
  }

  lemma {:induction false} ValueZeros(b: nat, s: seq<nat>)
    requires forall i :: 0 <= i < |s| ==> s[i] == 0
    ensures Value(b, s) == 0
  {
    if s != [] { ValueZeros(b, s[..|s| - 1]); }
  }

  /** Keeping the low digits is taking the remainder; dropping them is dividing. */
  lemma {:induction false} ValueSplit(b: nat, s: seq<nat>, k: nat)
    requires b > 0 && Digits(b, s) && k <= |s|
    ensures Pow(b, k) > 0
    ensures Value(b, s[..k]) == Value(b, s) % Pow(b, k)
    ensures Value(b, s[k..]) == Value(b, s) / Pow(b, k)
  {
    PowPositive(b, k);
    assert s[..k] + s[k..] == s;
    ValueConcat(b, s[..k], s[k..]);
    ValueBound(b, s[..k]);
    DivModUnique(Value(b, s), Pow(b, k), Value(b, s[k..]), Value(b, s[..k]));
  }

  lemma {:induction false} ValueOne(b: nat, x: nat)
    ensures Value(b, [x]) == x
  {
    assert [x] == [] + [x];
    ValueAppend(b, [], x);
  }

  /** Equal values of equally long digit strings have equal digits. */
  lemma {:induction false} ValueInjective(b: nat, s: seq<nat>, t: seq<nat>)
    requires b > 0 && Digits(b, s) && Digits(b, t) && |s| == |t| && Value(b, s) == Value(b, t)
    ensures s == t
  {
    if s != [] {
      hide Value, Pow;
      var n := |s| - 1;
      ValueSplit(b, s, n);
      ValueSplit(b, t, n);
      ValueInjective(b, s[..n], t[..n]);
      assert s[n..] == [s[n]] && t[n..] == [t[n]];
      ValueOne(b, s[n]);
      ValueOne(b, t[n]);
      assert s == s[..n] + [s[n]] && t == t[..n] + [t[n]];
    }
  }
}
