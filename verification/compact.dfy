/** The compact ("nBits") format and the proof a block with a given target stands for. */
module Compact {
  import opened Numbers
  import opened Limbs
  import opened Arith256

  // ---------- Decoding ----------

  function Mantissa(c: nat): nat { c % 0x80_0000 }

  function Exponent(c: nat): nat { c / 0x100_0000 }

  predicate SignBit(c: nat) { (c / 0x80_0000) % 2 == 1 }

  /** The magnitude a compact word denotes, without any width limit: mantissa * 256^(exponent - 3). */
  function Magnitude(c: nat): nat {
    var m, e := Mantissa(c), Exponent(c);
    PowPositive(256, if e <= 3 then 3 - e else 0);
    if e <= 3 then m / Pow(256, 3 - e) else m * Pow(256, e - 3)
  }

  lemma {:induction false} BytePow(k: nat)
    ensures Pow(256, k) == Pow(2, 8 * k)
  {
    if k > 0 {
      BytePow(k - 1);
      PowAdd(2, 8, 8 * (k - 1));
      assert Pow(2, 8) == 256;
      assert 8 + 8 * (k - 1) == 8 * k;
    }
  }

  lemma ModulusBytes()
    ensures Modulus() == Pow(256, 32) && Modulus() > 0
  {
    LimbPow(8);
    BytePow(32);
    PowPositive(256, 32);
  }

  /** The overflow test of the source is exact. */
  lemma {:induction false} OverflowExact(m: nat, e: nat)
    requires m < 0x80_0000 && e > 3
    ensures m * Pow(256, e - 3) >= Modulus() <==>
            m != 0 && (e > 34 || (m > 0xff && e > 33) || (m > 0xffff && e > 32))
  {
    hide Pow;
    ModulusBytes();
    PowPositive(256, e - 3);
    if e > 34 {
      PowMonotone(256, 32, e - 3);
      if m != 0 { MulMonotone(1, m, Pow(256, e - 3)); }
    } else if e >= 32 {
      // 256^32 == 256^(e-3) * 256^(35-e)
      PowAdd(256, e - 3, 35 - e);
      SmallPows();
      var p, q := Pow(256, e - 3), Pow(256, 35 - e);
      if m >= q { MulMonotone(q, m, p); } else { MulStrict(m, q, p); }
    } else {
      PowMonotone(256, e - 3, 28);
      PowAdd(256, 28, 4);
      SmallPows();
      MulStrict(m, 0x80_0000, Pow(256, e - 3));
      MulMonotone(Pow(256, e - 3), Pow(256, 28), 0x80_0000);
      PowPositive(256, 28);
      MulStrict(0x80_0000, Pow(256, 4), Pow(256, 28));
    }
  }

  lemma SmallPows()
    ensures Pow(256, 0) == 1 && Pow(256, 1) == 0x100 && Pow(256, 2) == 0x1_0000 && Pow(256, 3) == 0x100_0000
    ensures Pow(256, 4) == 0x1_0000_0000
  {
    assert Pow(256, 1) == 256;
    assert Pow(256, 2) == 256 * 256;
    assert Pow(256, 3) == 256 * (256 * 256);
  }

  /** Decodes into u: the magnitude modulo 2^256, with exact overflow and sign flags. */
  method SetCompact(u: Uint256, c: nat) returns (negative: bool, overflow: bool)
    requires u.Valid() && c < BASE
    modifies u.pn
    ensures u.Val() == Magnitude(c) % Modulus()
    ensures overflow <==> Magnitude(c) >= Modulus()
    ensures negative <==> Magnitude(c) != 0 && SignBit(c)
  {
    hide Pow, Value;
    var nSize := c / 0x100_0000;
    var nWord := c % 0x80_0000;
    ModulusBytes();
    if nSize <= 3 {
      PowPositive(256, 3 - nSize);
      BytePow(3 - nSize);
      ShiftedWord(nWord, 3 - nSize);
      nWord := nWord / Pow(2, 8 * (3 - nSize));
      u.Assign64(nWord);
      DivModUnique(nWord, Modulus(), 0, nWord);
    } else {
      BytePow(nSize - 3);
      OverflowExact(nWord, nSize);
      PowPositive(256, nSize - 3);
      if nWord != 0 { MulPositive(nWord, Pow(256, nSize - 3)); }
      u.Assign64(nWord);
      u.ShiftLeft(8 * (nSize - 3));
    }
    negative := nWord != 0 && (c / 0x80_0000) % 2 == 1;
    overflow := nWord != 0 && (nSize > 34 || (nWord > 0xff && nSize > 33) || (nWord > 0xffff && nSize > 32));
  }

  lemma {:induction false} ShiftedWord(w: nat, k: nat)
    requires w < 0x80_0000
    ensures Pow(256, k) > 0 && w / Pow(256, k) < 0x80_0000 && 0x80_0000 < Modulus()
  {
    hide Pow;
    PowPositive(256, k);
    QuotientSmaller(w, Pow(256, k));
    ModulusBytes();
    PowMonotone(256, 3, 32);
    SmallPows();
  }

  // ---------- Encoding ----------

  /** The number of bytes x takes. */
  function ByteSize(x: nat): nat {
    if x == 0 then 0 else 1 + ByteSize(x / 256)
  }

  lemma {:induction false} ByteSizeBounds(x: nat)
    requires x > 0
    ensures ByteSize(x) > 0 && Pow(256, ByteSize(x) - 1) <= x < Pow(256, ByteSize(x))
  {
    DivMod(x, 256);
    if x / 256 > 0 {
      ByteSizeBounds(x / 256);
    }
  }

  lemma {:induction false} ByteSizeUnique(x: nat, n: nat)
    requires n > 0 && Pow(256, n - 1) <= x < Pow(256, n)
    ensures ByteSize(x) == n
  {
    hide Pow;
    PowPositive(256, n - 1);
    ByteSizeBounds(x);
    var k := ByteSize(x);
    if k < n { PowMonotone(256, k, n - 1); }
    if n < k { PowMonotone(256, n, k - 1); }
  }

  /** The three leading bytes of x, or x moved up to three bytes. */
  function Leading(x: nat): nat {
    var n := ByteSize(x);
    PowPositive(256, if n <= 3 then 0 else n - 3);
    if n <= 3 then x * Pow(256, 3 - n) else x / Pow(256, n - 3)
  }

  /** The compact word for x: a leading byte with its top bit set moves down by one byte,
      because that bit is the sign. */
  function CompactOf(x: nat): nat {
    if Leading(x) >= 0x80_0000 then Leading(x) / 256 + (ByteSize(x) + 1) * 0x100_0000
    else Leading(x) + ByteSize(x) * 0x100_0000
  }

  lemma {:induction false} LeadingBounds(x: nat)
    requires x > 0
    ensures 0x1_0000 <= Leading(x) < 0x100_0000
  {
    hide Pow, ByteSize;
    var n := ByteSize(x);
    ByteSizeBounds(x);
    SmallPows();
    if n <= 3 {
      var p := Pow(256, 3 - n);
      PowPositive(256, 3 - n);
      PowAdd(256, n - 1, 3 - n);
      PowAdd(256, n, 3 - n);
      MulMonotone(Pow(256, n - 1), x, p);
      MulStrict(x, Pow(256, n), p);
    } else {
      var p := Pow(256, n - 3);
      PowPositive(256, n - 3);
      PowAdd(256, 2, n - 3);
      PowAdd(256, 3, n - 3);
      QuotientBetween(x, p, 0x1_0000, 0x100_0000);
    }
  }

  lemma {:induction false} QuotientBetween(x: nat, p: nat, lo: nat, hi: nat)
    requires p > 0 && lo * p <= x < hi * p
    ensures lo <= x / p < hi
  {
    DivMod(x, p);
    var q := x / p;
    if q < lo {
      MulMonotone(q + 1, lo, p);
      Distribute(q, 1, p);
    }
    if q >= hi {
      MulMonotone(hi, q, p);
    }
  }

  /** The fields of an encoded word read back as they were written. */
  lemma {:induction false} CompactFields(x: nat)
    requires x > 0
    ensures var r, n, c := Leading(x), ByteSize(x), CompactOf(x);
            && !SignBit(c)
            && (r >= 0x80_0000 ==> Mantissa(c) == r / 256 && Exponent(c) == n + 1)
            && (r < 0x80_0000 ==> Mantissa(c) == r && Exponent(c) == n)
  {
    hide Leading, ByteSize;
    LeadingBounds(x);
    if Leading(x) >= 0x80_0000 {
      SplitFields(Leading(x) / 256, ByteSize(x) + 1);
    } else {
      SplitFields(Leading(x), ByteSize(x));
    }
  }

  lemma {:induction false} SplitFields(m: nat, e: nat)
    requires m < 0x80_0000
    ensures var c := m + e * 0x100_0000;
            Mantissa(c) == m && Exponent(c) == e && !SignBit(c)
  {
    var c := m + e * 0x100_0000;
    DivModUnique(c, 0x100_0000, e, m);
    DivModUnique(c, 0x80_0000, 2 * e, m);
  }

  // Small numbers survive encoding exactly.
  lemma {:induction false} SmallExact(x: nat)
    requires x > 0 && ByteSize(x) <= 3 && !(ByteSize(x) == 3 && Leading(x) >= 0x80_0000)
    ensures Magnitude(CompactOf(x)) == x && Exponent(CompactOf(x)) <= 3
  {
    hide Pow, ByteSize, CompactOf;
    var n := ByteSize(x);
    ByteSizeBounds(x);
    CompactFields(x);
    SmallPows();
    LeadingBounds(x);
    if Leading(x) >= 0x80_0000 {
      // Leading(x) == x * 256^(3-n) with n at most 2, then divided by 256
      PowAdd(256, 1, 2 - n);
      var p := Pow(256, 2 - n);
      PowPositive(256, 2 - n);
      assert 3 - n == 1 + (2 - n) && Leading(x) == x * p * 256 by { MulAssoc(x, 256, p); MulAssoc(x, p, 256); }
      DivModUnique(Leading(x), 256, x * p, 0);
      assert 3 - (n + 1) == 2 - n;
      DivModUnique(x * p, p, x, 0);
    } else {
      var p := Pow(256, 3 - n);
      PowPositive(256, 3 - n);
      DivModUnique(x * p, p, x, 0);
    }
  }

  // Larger numbers keep their leading bytes; `k` is how many bytes are dropped.
  lemma {:induction false} LargeTruncates(x: nat)
    requires ByteSize(x) > 3 || (ByteSize(x) == 3 && Leading(x) >= 0x80_0000)
    ensures var c := CompactOf(x);
            var k := Exponent(c) - 3;
            k > 0 && Pow(256, k) > 0 && Mantissa(c) == x / Pow(256, k) && Magnitude(c) == x / Pow(256, k) * Pow(256, k)
  {
    hide Pow, ByteSize, CompactOf;
    var n := ByteSize(x);
    assert x > 0 by { ByteSizeZero(); }
    CompactFields(x);
    SmallPows();
    PowPositive(256, n - 3);
    PowPositive(256, n - 2);
    if Leading(x) >= 0x80_0000 {
      PowAdd(256, n - 3, 1);
      assert n - 2 == n - 3 + 1;
      DivDiv(x, Pow(256, n - 3), 256);
      if n == 3 { assert Leading(x) == x * 1 && Pow(256, 0) == 1; }
    }
  }

  lemma ByteSizeZero()
    ensures ByteSize(0) == 0
  {
  }

  /** Decoding an encoded number never exceeds it, misses it by less than one unit of the
      last kept byte, is never negative, and never overflows. */
  lemma {:induction false} RoundTripClose(x: nat)
    requires x < Modulus()
    ensures var c := CompactOf(x);
            && !SignBit(c) && Magnitude(c) <= x && Magnitude(c) < Modulus()
            && x - Magnitude(c) < Pow(256, if Exponent(c) <= 3 then 0 else Exponent(c) - 3)
  {
    hide Pow, ByteSize, Leading, CompactOf, Magnitude;
    SmallPows();
    if x == 0 {
      ZeroCompact();
    } else {
      CompactFields(x);
      if ByteSize(x) > 3 || (ByteSize(x) == 3 && Leading(x) >= 0x80_0000) {
        LargeTruncates(x);
        DivMod(x, Pow(256, Exponent(CompactOf(x)) - 3));
      } else {
        SmallExact(x);
      }
    }
  }

  lemma ZeroCompact()
    ensures CompactOf(0) == 0 && Magnitude(0) == 0 && !SignBit(0) && Exponent(0) == 0
  {
    assert ByteSize(0) == 0 && Leading(0) == 0;
    assert Mantissa(0) == 0;
    PowPositive(256, 3);
    DivModUnique(0, Pow(256, 3), 0, 0);
  }

  /** Encoding what was decoded from an encoded number gives the same word. */
  lemma {:induction false} Reencode(x: nat)
    ensures CompactOf(Magnitude(CompactOf(x))) == CompactOf(x)
  {
    hide Pow, ByteSize, Leading, CompactOf, Magnitude;
    if x == 0 {
      ZeroCompact();
    } else if ByteSize(x) > 3 || (ByteSize(x) == 3 && Leading(x) >= 0x80_0000) {
      LargeTruncates(x);
      CompactFields(x);
      LeadingBounds(x);
      var c, n := CompactOf(x), ByteSize(x);
      if Leading(x) >= 0x80_0000 {
        RebuildBumped(Mantissa(c), n);
      } else {
        RebuildPlain(Mantissa(c), n);
      }
      CompactShape(x);
    } else {
      SmallExact(x);
    }
  }

  lemma CompactShape(x: nat)
    ensures CompactOf(x) == if Leading(x) >= 0x80_0000 then Leading(x) / 256 + (ByteSize(x) + 1) * 0x100_0000
                            else Leading(x) + ByteSize(x) * 0x100_0000
  {
  }

  lemma {:induction false} RebuildPlain(m: nat, n: nat)
    requires n > 3 && 0x1_0000 <= m < 0x80_0000
    ensures CompactOf(m * Pow(256, n - 3)) == m + n * 0x100_0000
  {
    hide Pow, ByteSize;
    var p := Pow(256, n - 3);
    var v := m * p;
    PowPositive(256, n - 3);
    SmallPows();
    PowAdd(256, 2, n - 3);
    PowAdd(256, 3, n - 3);
    MulMonotone(0x1_0000, m, p);
    MulStrict(m, 0x100_0000, p);
    ByteSizeUnique(v, n);
    DivModUnique(v, p, m, 0);
  }

  lemma {:induction false} RebuildBumped(m: nat, n: nat)
    requires n >= 3 && 0x8000 <= m < 0x1_0000
    ensures CompactOf(m * Pow(256, n - 2)) == m + (n + 1) * 0x100_0000
  {
    hide Pow, ByteSize;
    var p, v := Pow(256, n - 3), m * Pow(256, n - 2);
    PowPositive(256, n - 3);
    PowPositive(256, n - 2);
    SmallPows();
    PowAdd(256, 1, n - 2);
    PowAdd(256, 2, n - 2);
    PowAdd(256, 1, n - 3);
    assert n - 2 == 1 + (n - 3);
    MulMonotone(0x100, m, Pow(256, n - 2));
    MulStrict(m, 0x1_0000, Pow(256, n - 2));
    ByteSizeUnique(v, n);
    MulAssoc(m, 256, p);
    DivModUnique(v, p, m * 256, 0);
    assert Leading(v) == m * 256;
    DivModUnique(m * 256, 256, m, 0);
  }

  // The byte count computed from the bit count.
  lemma {:induction false} BitsToBytes(x: nat, bits: nat)
    requires if bits == 0 then x == 0 else Pow(2, bits - 1) <= x < Pow(2, bits)
    ensures ByteSize(x) == (bits + 7) / 8
  {
    hide Pow;
    if bits > 0 {
      var n := (bits + 7) / 8;
      BytePow(n);
      BytePow(n - 1);
      PowMonotone(2, bits, 8 * n);
      PowMonotone(2, 8 * (n - 1), bits - 1);
      ByteSizeUnique(x, n);
    }
  }

  method GetCompact(u: Uint256, fNegative: bool) returns (c: nat)
    requires u.Valid()
    ensures c == CompactOf(u.Val()) + if fNegative && Mantissa(CompactOf(u.Val())) != 0 then 0x80_0000 else 0
  {
    hide Pow, Value, ByteSize, CompactOf, BitOr;
    ghost var x := u.Val();
    NumberBound(u.pn[..]);
    var bits := u.Bits();
    BitsToBytes(x, bits);
    var nSize := (bits + 7) / 8;
    c := LeadingBytes(u, nSize);
    CompactShape(x);
    if x > 0 { CompactFields(x); LeadingBounds(x); } else { ZeroCompact(); }
    if (c / 0x80_0000) % 2 == 1 {
      c := c / 256;
      nSize := nSize + 1;
    }
    assert c < 0x80_0000 && nSize < 256;
    TwoTo24();
    PowMonotone(2, 23, 24);
    OrDisjoint(24, c, nSize);
    SplitFields(c, nSize);
    c := BitOr(c, nSize * 0x100_0000);
    if fNegative && c % 0x80_0000 != 0 {
      c := c + 0x80_0000;
    }
  }

  lemma TwoTo24()
    ensures Pow(2, 24) == 0x100_0000
  {
    BytePow(3);
    SmallPows();
  }

  lemma {:induction false} ThreeBytes(x: nat)
    requires ByteSize(x) <= 3
    ensures x < 0x100_0000
  {
    hide Pow, ByteSize;
    if x > 0 {
      ByteSizeBounds(x);
      PowMonotone(256, ByteSize(x), 3);
      SmallPows();
    }
  }

  /** A small number fits in the low word and moving it up to three bytes loses nothing. */
  lemma {:induction false} LeadingSmall(x: nat, n: nat, low: nat)
    requires n == ByteSize(x) <= 3 && low == x % (BASE * BASE)
    ensures Leading(x) == (low * Pow(2, 8 * (3 - n))) % BASE
  {
    hide Pow, ByteSize;
    BytePow(3 - n);
    ThreeBytes(x);
    DivModUnique(x, BASE * BASE, 0, x);
    if x == 0 {
      DivModUnique(0, BASE, 0, 0);
    } else {
      LeadingBounds(x);
      DivModUnique(Leading(x), BASE, 0, Leading(x));
    }
  }

  /** Shifting the other bytes out leaves the three leading ones. */
  lemma {:induction false} LeadingLarge(x: nat, n: nat, y: nat, low: nat)
    requires n == ByteSize(x) > 3 && Pow(2, 8 * (n - 3)) > 0 && y == x / Pow(2, 8 * (n - 3)) && low == y % (BASE * BASE)
    ensures Leading(x) == low % BASE
  {
    hide Pow, ByteSize;
    BytePow(n - 3);
    ByteSizeZero();
    assert x > 0;
    LeadingBounds(x);
    assert Leading(x) == y;
    DivModUnique(y, BASE * BASE, 0, y);
    DivModUnique(y, BASE, 0, y);
  }

  method LeadingBytes(u: Uint256, nSize: nat) returns (c: nat)
    requires u.Valid() && nSize == ByteSize(u.Val())
    ensures c == Leading(u.Val())
  {
    hide Pow, Value, ByteSize, Leading;
    if nSize <= 3 {
      var low := u.GetLow64();
      LeadingSmall(u.Val(), nSize, low);
      c := (low * Pow(2, 8 * (3 - nSize))) % BASE;
    } else {
      var bn := new Uint256.Copy(u);
      bn.ShiftRight(8 * (nSize - 3));
      var low := bn.GetLow64();
      LeadingLarge(u.Val(), nSize, bn.Val(), low);
      c := low % BASE;
    }
  }

  // ---------- Work ----------

  /** Expected hashes for a target: floor(2^256 / (target + 1)), and 0 for an invalid one. */
  function BlockProof(nBits: nat): nat {
    var t := Magnitude(nBits);
    if t == 0 || t >= Modulus() || SignBit(nBits) then 0 else Modulus() / (t + 1)
  }

  // A target that fits is never the largest number, so adding one does not wrap.
  lemma {:induction false} TargetNotMaximal(c: nat)
    requires Magnitude(c) < Modulus()
    ensures Magnitude(c) + 1 < Modulus()
  {
    hide Pow;
    ModulusBytes();
    var m, e := Mantissa(c), Exponent(c);
    PowMonotone(256, 4, 32);
    SmallPows();
    if e <= 3 {
      PowPositive(256, 3 - e);
      QuotientSmaller(m, Pow(256, 3 - e));
    } else {
      PowAdd(256, 1, e - 4);
      PowAdd(256, 1, 31);
      assert e - 3 == 1 + (e - 4);
      var k, r := Pow(256, e - 4), Pow(256, 31);
      assert m * Pow(256, e - 3) == 256 * (m * k) by { MulAssoc(m, 256, k); MulAssoc(256, m, k); }
    }
  }

  lemma {:induction false} ProofIdentity(t: nat, m: nat)
    requires 0 < t && t + 1 < m
    ensures Quotient(m - 1 - t, t + 1) + 1 == m / (t + 1) && m / (t + 1) < m
  {
    var d := t + 1;
    var x := m - 1 - t;
    var q, r := x / d, x % d;
    DivMod(x, d);
    Distribute(q, 1, d);
    DivModUnique(m, d, q + 1, r);
    MulStrict(1, d, q + 1);
  }

  /** No step wraps around: the result is exactly the block proof. */
  method GetBlockProof(nBits: nat) returns (r: Uint256)
    requires nBits < BASE
    ensures r.Valid() && fresh(r) && fresh(r.pn) && r.Val() == BlockProof(nBits)
  {
    hide Pow, Value, Magnitude, Quotient;
    var target := new Uint256();
    var negative, overflow := SetCompact(target, nBits);
    ghost var t, m := Magnitude(nBits), Modulus();
    ModulusBytes();
    if !overflow {
      DivModUnique(t, m, 0, t);
    }
    var zero := target.EqualTo(0);
    if negative || overflow || zero {
      r := new Uint256();
      return;
    }
    TargetNotMaximal(nBits);
    ProofIdentity(t, m);
    DivModUnique(t + 1, m, 0, t + 1);
    DivModUnique(m / (t + 1), m, 0, m / (t + 1));
    var one := new Uint256();
    one.Assign64(1);
    r := target.Complement();
    target.AddAssign(one);
    var _ := r.DivAssign(target);
    r.AddAssign(one);
  }
}
