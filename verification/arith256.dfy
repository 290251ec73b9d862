/** 256-bit unsigned integers as eight 32-bit limbs changed in place, each operation
    proved against the number the limbs stand for. */
module Arith256 {
  import opened Numbers
  import opened Limbs

  class Uint256 {
    const pn: array<Limb>

    ghost predicate Valid() {
      pn.Length == WIDTH
    }

    ghost function Val(): (v: nat)
      requires Valid()
      reads pn
    {
      Number(pn[..])
    }

    /** Zero. */
    constructor ()
      ensures Valid() && fresh(pn) && Val() == 0
    {
      pn := new Limb[WIDTH](_ => 0);
      new;
      ValueZeros(BASE, pn[..]);
    }

    constructor Copy(b: Uint256)
      requires b.Valid()
      ensures Valid() && fresh(pn) && pn[..] == b.pn[..]
    {
      pn := new Limb[WIDTH](i requires 0 <= i < WIDTH && b.Valid() reads b, b.pn => b.pn[i]);
    }

    // The carry loop of +=.
    method AddAssign(b: Uint256)
      requires Valid() && b.Valid()
      modifies pn
      ensures Val() == (old(Val()) + old(b.Val())) % Modulus()
    {
      hide Value, Pow;
      ghost var x, y := pn[..], b.pn[..];
      Nothing(x);
      Nothing(y);
      assert pn[..0] == x[..0];
      var carry: nat := 0;
      for i := 0 to WIDTH
        invariant carry <= 1
        invariant forall j :: i <= j < WIDTH ==> pn[j] == x[j] && b.pn[j] == y[j]
        invariant Number(pn[..i]) + carry * Pow(BASE, i) == Number(x[..i]) + Number(y[..i])
      {
        var n: nat := carry + pn[i] as nat + b.pn[i] as nat;
        CarryStep(Number(pn[..i]), carry, x[i] as nat + y[i] as nat, i);
        Distribute(x[i], y[i], Pow(BASE, i));
        PrefixStep(x, i);
        PrefixStep(y, i);
        ghost var lo := pn[..i];
        pn[i] := n % BASE;
        carry := n / BASE;
        assert pn[..i] == lo;
        PrefixStep(pn[..], i);
        assert pn[..][..i] == pn[..i] && pn[..][..i + 1] == pn[..i + 1];
      }
      assert pn[..WIDTH] == pn[..] && x[..WIDTH] == x && y[..WIDTH] == y;
      NumberBound(pn[..]);
      DivModUnique(Number(x) + Number(y), Modulus(), carry, Val());
    }

    /** ~ : every bit flipped. */
    method Complement() returns (r: Uint256)
      requires Valid()
      ensures r.Valid() && fresh(r) && fresh(r.pn)
      ensures r.Val() == Modulus() - 1 - Val()
    {
      hide Value, Pow;
      r := new Uint256();
      Nothing(pn[..]);
      assert pn[..0] == r.pn[..0] == pn[..][..0];
      for i := 0 to WIDTH
        invariant r.Valid() && fresh(r) && fresh(r.pn)
        invariant Number(r.pn[..i]) + Number(pn[..i]) + 1 == Pow(BASE, i)
      {
        ghost var lo := r.pn[..i];
        r.pn[i] := BASE - 1 - pn[i];
        assert r.pn[..i] == lo;
        PrefixStep(r.pn[..], i);
        PrefixStep(pn[..], i);
        assert r.pn[..][..i] == lo && r.pn[..][..i + 1] == r.pn[..i + 1];
        assert pn[..][..i] == pn[..i] && pn[..][..i + 1] == pn[..i + 1];
        PowNext(BASE, i);
        Distribute(BASE - 1 - pn[i], pn[i], Pow(BASE, i));
        Distribute(BASE - 1, 1, Pow(BASE, i));
      }
      assert r.pn[..WIDTH] == r.pn[..] && pn[..WIDTH] == pn[..];
    }

    /** ++ : stops at the first limb that does not wrap. */
    method Increment()
      requires Valid()
      modifies pn
      ensures Val() == (old(Val()) + 1) % Modulus()
    {
      hide Value, Pow;
      ghost var x := pn[..];
      Nothing(x);
      assert pn[..0] == x[..0];
      var i := 0;
      var wrapped := true;
      while i < WIDTH && wrapped
        invariant 0 <= i <= WIDTH
        invariant wrapped ==> (forall j :: i <= j < WIDTH ==> pn[j] == x[j]) && Number(pn[..i]) + Pow(BASE, i) == Number(x[..i]) + 1
        invariant !wrapped ==> Number(pn[..]) == Number(x) + 1
        decreases WIDTH - i, wrapped
      {
        ghost var lo := pn[..i];
        CarryStep(Number(lo), 1, x[i], i);
        PrefixStep(x, i);
        pn[i] := (pn[i] + 1) % BASE;
        assert pn[..i] == lo;
        PrefixStep(pn[..], i);
        assert pn[..][..i] == lo && pn[..][..i + 1] == pn[..i + 1];
        wrapped := pn[i] == 0;
        if wrapped {
          i := i + 1;
        } else {
          SameTail(x, pn[..], i + 1);
        }
      }
      if wrapped {
        assert pn[..WIDTH] == pn[..] && x[..WIDTH] == x;
        NumberBound(pn[..]);
        DivModUnique(Number(x) + 1, Modulus(), 1, Val());
      } else {
        NumberBound(pn[..]);
        DivModUnique(Number(x) + 1, Modulus(), 0, Val());
      }
    }

    /** Unary minus. */
    method Negate() returns (r: Uint256)
      requires Valid()
      ensures r.Valid() && fresh(r) && fresh(r.pn)
      ensures r.Val() == (Modulus() - Val()) % Modulus()
    {
      hide Value, Pow;
      NumberBound(pn[..]);
      r := Complement();
      r.Increment();
    }

    method SubAssign(b: Uint256)
      requires Valid() && b.Valid()
      modifies pn
      ensures Val() == (old(Val()) + Modulus() - old(b.Val())) % Modulus()
    {
      hide Value, Pow;
      NumberBound(pn[..]);
      NumberBound(b.pn[..]);
      ghost var x, y := Val(), b.Val();
      var minus := b.Negate();
      AddAssign(minus);
      if y == 0 {
        DivModUnique(Modulus(), Modulus(), 1, 0);
        ModAddMultiple(x, 1, Modulus());
      } else {
        DivModUnique(Modulus() - y, Modulus(), 0, Modulus() - y);
      }
    }

    method CompareTo(b: Uint256) returns (c: int)
      requires Valid() && b.Valid()
      ensures c == if Val() < b.Val() then -1 else if Val() > b.Val() then 1 else 0
    {
      var i := WIDTH;
      while i > 0
        invariant 0 <= i <= WIDTH
        invariant forall j :: i <= j < WIDTH ==> pn[j] == b.pn[j]
      {
        i := i - 1;
        if pn[i] != b.pn[i] {
          if pn[i] < b.pn[i] {
            CompareAt(pn[..], b.pn[..], i);
            return -1;
          }
          CompareAt(b.pn[..], pn[..], i);
          return 1;
        }
      }
      assert pn[..] == b.pn[..];
      return 0;
    }

    method ShiftLeft(shift: nat)
      requires Valid()
      modifies pn
      ensures Val() == (old(Val()) * Pow(2, shift)) % Modulus()
    {
      hide Pow, Value, ShlLimbs, BitOr, Lo;
      var a := pn[..];
      var k, s := shift / 32, shift % 32;
      for i := 0 to WIDTH
        invariant forall j :: 0 <= j < i ==> pn[j] == 0
      {
        pn[i] := 0;
      }
      forall j: nat ensures ShiftedLimb(a[..0], k, s, j) == 0 { ShiftStart(k, s, j); }
      for i := 0 to WIDTH
        invariant forall j :: 0 <= j < WIDTH ==> pn[j] == ShiftedLimb(a[..i], k, s, j)
      {
        ghost var was := pn[..];
        if i + k + 1 < WIDTH && s != 0 {
          ShiftStepHolds(a, i, k, s, i + k + 1);
          pn[i + k + 1] := BitOr(pn[i + k + 1], Hi(a[i], s));
        }
        if i + k < WIDTH {
          ShiftStepHolds(a, i, k, s, i + k);
          pn[i + k] := BitOr(pn[i + k], Lo(a[i], s));
        }
        forall j | 0 <= j < WIDTH ensures pn[j] == ShiftedLimb(a[..i + 1], k, s, j) {
          ShiftStepHolds(a, i, k, s, j);
          assert was[j] == ShiftedLimb(a[..i], k, s, j);
        }
      }
      assert a[..WIDTH] == a;
      ShiftLeftValue(a, shift, pn[..]);
    }

    method ShiftRight(shift: nat)
      requires Valid()
      modifies pn
      ensures Pow(2, shift) > 0 && Val() == old(Val()) / Pow(2, shift)
    {
      hide Pow, Value, ShrLimbs, BitOr, Lo, Hi;
      var a := pn[..];
      var k, s := shift / 32, shift % 32;
      for i := 0 to WIDTH
        invariant forall j :: 0 <= j < i ==> pn[j] == 0
      {
        pn[i] := 0;
      }
      for i := 0 to WIDTH
        invariant forall j :: 0 <= j < WIDTH ==> pn[j] == RightLimb(a, i, k, s, j)
      {
        ghost var was := pn[..];
        if i - k - 1 >= 0 && s != 0 {
          RightStep(a, i, k, s, i - k - 1);
          pn[i - k - 1] := BitOr(pn[i - k - 1], Up(a[i], s));
        }
        if i - k >= 0 {
          RightStep(a, i, k, s, i - k);
          pn[i - k] := BitOr(pn[i - k], Down(a[i], s));
        }
        forall j | 0 <= j < WIDTH ensures pn[j] == RightLimb(a, i + 1, k, s, j) {
          RightStep(a, i, k, s, j);
          OrZero(was[j]);
          assert was[j] == RightLimb(a, i, k, s, j);
        }
      }
      ShiftRightValue(a, shift, pn[..]);
    }

    /** The position of the highest set bit plus one, or zero. */
    method Bits() returns (n: nat)
      requires Valid()
      ensures n == 0 <==> Val() == 0
      ensures n > 0 ==> Pow(2, n - 1) <= Val() < Pow(2, n)
      ensures n <= 32 * WIDTH
    {
      hide Pow, Value;
      var pos := WIDTH;
      while pos > 0
        invariant 0 <= pos <= WIDTH && forall i :: pos <= i < WIDTH ==> pn[i] == 0
      {
        pos := pos - 1;
        if pn[pos] != 0 {
          var nbits := TopBitOf(pn[pos]);
          TopLimb(pn[..], pos, nbits);
          PowPositive(2, 32 * pos + nbits);
          return 32 * pos + nbits + 1;
        }
      }
      ValueZeros(BASE, pn[..]);
      return 0;
    }

    /** A left shift that loses nothing. */
    method ShiftUp(shift: nat)
      requires Valid() && Val() * Pow(2, shift) < Modulus()
      modifies pn
      ensures Val() == old(Val()) * Pow(2, shift)
    {
      hide Pow, Value;
      ghost var v := Val() * Pow(2, shift);
      DivModUnique(v, Modulus(), 0, v);
      ShiftLeft(shift);
    }

    /** Shift-subtract division: the exact floor quotient for every non-zero divisor. */
    method DivAssign(b: Uint256) returns (threw: bool)
      requires Valid() && b.Valid()
      modifies pn
      ensures threw <==> old(b.Val()) == 0
      ensures Val() == Quotient(old(Val()), old(b.Val()))
    {
      hide Pow, Value, BitOr, Quotient;
      ghost var x, d := Val(), b.Val();
      var div := new Uint256.Copy(b);
      var num := new Uint256.Copy(this);
      Assign64(0);
      var numBits := num.Bits();
      var divBits := div.Bits();
      if divBits == 0 {
        DivideByZero(x);
        return true;
      }
      if divBits > numBits {
        PowMonotone(2, numBits, divBits - 1);
        QuotientIs(x, d, 0, x);
        return false;
      }
      Aligned(x, d, numBits, divBits);
      var shift := numBits - divBits;
      div.ShiftUp(shift);
      LongDivide(num, div, shift, x, d);
      return false;
    }

    // The division loop, with the divisor aligned at `top` and the quotient still zero.
    method LongDivide(num: Uint256, div: Uint256, top: nat, ghost x: nat, ghost d: nat)
      requires Valid() && num.Valid() && div.Valid() && pn != num.pn && pn != div.pn && num.pn != div.pn
      requires top < 32 * WIDTH
      requires d > 0 && Val() == 0 && num.Val() == x && div.Val() == d * Pow(2, top) && x < d * Pow(2, top + 1)
      modifies pn, num.pn, div.pn
      ensures Val() == Quotient(x, d)
    {
      hide Pow, Value, BitOr, Quotient;
      var shift: int := top;
      ghost var q: nat := 0;
      while shift >= 0
        invariant -1 <= shift <= top
        invariant shift >= 0 ==> div.Val() == d * Pow(2, shift)
        invariant x == Val() * d + num.Val() && num.Val() < d * Pow(2, shift + 1)
        invariant Val() == q * Pow(2, shift + 1)
      {
        q := DivideBit(num, div, shift, x, d, q);
        div.ShiftRight(1);
        if shift > 0 {
          HalveShifted(d, shift);
        }
        shift := shift - 1;
      }
      PowZero(2);
      QuotientIs(x, d, Val(), num.Val());
    }

    // One turn of the division loop: decide the quotient bit at `shift`.
    method DivideBit(num: Uint256, div: Uint256, shift: nat, ghost x: nat, ghost d: nat, ghost q: nat)
        returns (ghost q': nat)
      requires Valid() && num.Valid() && div.Valid() && pn != num.pn && pn != div.pn && num.pn != div.pn
      requires shift < 32 * WIDTH
      requires div.Val() == d * Pow(2, shift)
      requires x == Val() * d + num.Val() && num.Val() < d * Pow(2, shift + 1) && Val() == q * Pow(2, shift + 1)
      modifies pn, num.pn
      ensures x == Val() * d + num.Val() && num.Val() < d * Pow(2, shift) && Val() == q' * Pow(2, shift)
    {
      hide Pow, Value, BitOr;
      PowDouble(shift);
      DivideStep(x, Val(), d, num.Val(), q, Pow(2, shift));
      var c := num.CompareTo(div);
      if c < 0 {
        return 2 * q;
      }
      NumberBound(num.pn[..]);
      ghost var n, e := num.Val(), div.Val();
      ModAddMultiple(n - e, 1, Modulus());
      DivModUnique(n - e, Modulus(), 0, n - e);
      num.SubAssign(div);
      SetBit(pn[..], shift / 32, shift % 32, q);
      ghost var s := pn[..];
      pn[shift / 32] := BitOr(pn[shift / 32], Pow(2, shift % 32));
      assert pn[..] == s[shift / 32 := pn[shift / 32]];
      return 2 * q + 1;
    }

    /** Assignment from a 64-bit number. */
    method Assign64(b: nat)
      requires Valid() && b < BASE * BASE
      modifies pn
      ensures Val() == b
    {
      hide Pow, Value;
      pn[0] := b % BASE;
      pn[1] := b / BASE;
      for i := 2 to WIDTH
        invariant pn[0] == b % BASE && pn[1] == b / BASE
        invariant forall j :: 2 <= j < i ==> pn[j] == 0
      {
        pn[i] := 0;
      }
      LowTwo(pn[..]);
      DivMod(b, BASE);
    }

    method GetLow64() returns (v: nat)
      requires Valid()
      ensures v == Val() % (BASE * BASE)
    {
      hide Pow, Value;
      v := pn[0] + pn[1] * BASE;
      Low64(pn[..]);
    }

    /** Multiplication by a 32-bit number. */
    method MulAssign32(b: Limb)
      requires Valid()
      modifies pn
      ensures Val() == (old(Val()) * b) % Modulus()
    {
      hide Pow, Value;
      ghost var x := pn[..];
      Nothing(x);
      assert pn[..0] == x[..0];
      var carry: nat := 0;
      for i := 0 to WIDTH
        invariant carry < BASE
        invariant forall j :: i <= j < WIDTH ==> pn[j] == x[j]
        invariant Number(pn[..i]) + carry * Pow(BASE, i) == Number(x[..i]) * b
      {
        var n: nat := carry + b * pn[i];
        ProductFits(carry, b, x[i], 0);
        CarryStep(Number(pn[..i]), carry, b * x[i], i);
        PrefixStep(x, i);
        Distribute(Number(x[..i]), x[i] * Pow(BASE, i), b);
        assert x[i] * Pow(BASE, i) * b == (b * x[i]) * Pow(BASE, i) by { MulAssoc(b, x[i], Pow(BASE, i)); }
        ghost var lo := pn[..i];
        pn[i] := n % BASE;
        carry := n / BASE;
        PrefixStep(pn[..], i);
        assert pn[..][..i] == lo == pn[..i] && pn[..][..i + 1] == pn[..i + 1];
      }
      assert pn[..WIDTH] == pn[..] && x[..WIDTH] == x;
      NumberBound(pn[..]);
      DivModUnique(Number(x) * b, Modulus(), carry, Val());
    }

    // The inner loop of *=: adds x times b, moved up by j limbs.
    method AddScaled(x: Limb, b: Uint256, j: nat)
      requires Valid() && b.Valid() && pn != b.pn && j < WIDTH
      modifies pn
      ensures Val() == (old(Val()) + x * b.Val() * Pow(BASE, j)) % Modulus()
    {
      hide Pow, Value, Scaled;
      ghost var s, m := pn[..], b.pn[..];
      ScaledStart(s, m, x, j);
      var carry: nat := 0;
      for i := 0 to WIDTH - j
        invariant b.pn[..] == m && Scaled(s, pn[..], m, x, j, i, carry)
      {
        ScaledFits(s, pn[..], m, x, j, i, carry);
        var n: nat := carry + pn[i + j] + x * b.pn[i];
        ScaledStep(s, pn[..], m, x, j, i, carry, n);
        ghost var was := pn[..];
        pn[i + j] := n % BASE;
        carry := n / BASE;
        assert pn[..] == was[i + j := pn[i + j]];
      }
      ScaledEnd(s, pn[..], m, x, j, carry);
    }

    /** Schoolbook multiplication. */
    method MulAssign(b: Uint256)
      requires Valid() && b.Valid()
      modifies pn
      ensures Val() == (old(Val()) * old(b.Val())) % Modulus()
    {
      hide Pow, Value;
      ghost var x, m := pn[..], b.Val();
      var a := new Uint256();
      Nothing(x);
      PowPositive(BASE, WIDTH);
      DivModUnique(0, Modulus(), 0, 0);
      for j := 0 to WIDTH
        invariant a.Valid() && fresh(a.pn) && pn[..] == x && b.Val() == m
        invariant a.Val() == (Number(x[..j]) * m) % Modulus()
      {
        a.AddScaled(pn[j], b, j);
        RowStep(x, j, m);
      }
      assert x[..WIDTH] == x;
      Assign(a);
    }

    method Assign(b: Uint256)
      requires Valid() && b.Valid()
      modifies pn
      ensures pn[..] == old(b.pn[..])
    {
      ghost var x := b.pn[..];
      for i := 0 to WIDTH
        invariant forall k :: i <= k < WIDTH ==> b.pn[k] == x[k]
        invariant forall k :: 0 <= k < i ==> pn[k] == x[k]
      {
        pn[i] := b.pn[i];
      }
    }

    /** Equality with a 64-bit number. */
    method EqualTo(b: nat) returns (eq: bool)
      requires Valid() && b < BASE * BASE
      ensures eq <==> Val() == b
    {
      hide Pow, Value;
      var i := WIDTH;
      while i > 2
        invariant 2 <= i <= WIDTH && forall j :: i <= j < WIDTH ==> pn[j] == 0
      {
        i := i - 1;
        if pn[i] != 0 {
          HighLimb(pn[..], i);
          return false;
        }
      }
      LowTwo(pn[..]);
      DivMod(b, BASE);
      DivModUnique(Val(), BASE, pn[1], pn[0]);
      return pn[1] == b / BASE && pn[0] == b % BASE;
    }
  }

  // The scan over the bits of one limb.
  method TopBitOf(x: Limb) returns (nbits: nat)
    requires x != 0
    ensures nbits < 32 && Pow(2, nbits) <= x < Pow(2, nbits + 1)
  {
    hide Pow;
    TwoTo32();
    nbits := 31;
    while nbits > 0
      invariant nbits < 32 && x < Pow(2, nbits + 1)
    {
      TopBit(x, nbits);
      if BitSet(x, nbits) {
        return;
      }
      nbits := nbits - 1;
    }
    PowZero(2);
  }
}
