/** Collection flags packed eight to a byte. */
module CuckooFlags {
  import opened Prelude

  function Mask(i: nat): bv8
    requires i < 8
  {
    1 << i
  }

  predicate HasBit(x: bv8, i: nat)
    requires i < 8
  {
    x & Mask(i) != 0
  }

  function WithBit(x: bv8, i: nat): bv8
    requires i < 8
  {
    x | Mask(i)
  }

  function WithoutBit(x: bv8, i: nat): bv8
    requires i < 8
  {
    x & !Mask(i)
  }

  lemma {:induction false} BitSet(x: bv8, i: nat, j: nat)
    requires i < 8 && j < 8
    ensures HasBit(WithBit(x, i), j) <==> i == j || HasBit(x, j)
  {
    Masks(i);
    Masks(j);
  }

  lemma {:induction false} BitUnset(x: bv8, i: nat, j: nat)
    requires i < 8 && j < 8
    ensures HasBit(WithoutBit(x, i), j) <==> i != j && HasBit(x, j)
  {
    Masks(i);
    Masks(j);
  }

  lemma {:induction false} Masks(i: nat)
    requires i < 8
    ensures Mask(i) == if i == 0 then 1 else if i == 1 then 2 else if i == 2 then 4 else if i == 3 then 8
      else if i == 4 then 16 else if i == 5 then 32 else if i == 6 then 64 else 128
  {
  }

  /** Bytes allocated for `size` flags; the padding is added in 32 bits. */
  function Bytes(size: nat): nat {
    (size + 7) % UINT32_RANGE / 8
  }

  /** There is a bit for every index exactly when adding the padding does not wrap around. */
  lemma FlagsSuffice(size: nat)
    requires size < UINT32_RANGE
    ensures size <= 8 * Bytes(size) <==> size + 7 < UINT32_RANGE
  {
  }

  class BitFlags {
    const mem: array<bv8>

    function IsSet(s: nat): bool
      requires s / 8 < mem.Length
      reads mem
    {
      HasBit(mem[s / 8], s % 8)
    }

    constructor (size: nat)
      ensures fresh(mem) && mem.Length == Bytes(size)
      ensures forall s: nat :: s / 8 < mem.Length ==> IsSet(s)
    {
      mem := new bv8[Bytes(size)](_ => 0xFF);
      new;
      forall s: nat | s / 8 < mem.Length ensures IsSet(s) {
        Masks(s % 8);
      }
    }

    method Set(s: nat)
      requires s / 8 < mem.Length
      modifies mem
      ensures forall t: nat :: t / 8 < mem.Length ==> (IsSet(t) <==> t == s || old(IsSet(t)))
    {
      hide HasBit, WithBit, WithoutBit;
      ghost var byte := mem[s / 8];
      mem[s / 8] := WithBit(mem[s / 8], s % 8);
      forall t: nat | t / 8 < mem.Length ensures IsSet(t) <==> t == s || old(IsSet(t)) {
        BitSet(byte, s % 8, t % 8);
      }
    }

    method Unset(s: nat)
      requires s / 8 < mem.Length
      modifies mem
      ensures forall t: nat :: t / 8 < mem.Length ==> (IsSet(t) <==> t != s && old(IsSet(t)))
    {
      hide HasBit, WithBit, WithoutBit;
      ghost var byte := mem[s / 8];
      mem[s / 8] := WithoutBit(mem[s / 8], s % 8);
      forall t: nat | t / 8 < mem.Length ensures IsSet(t) <==> t != s && old(IsSet(t)) {
        BitUnset(byte, s % 8, t % 8);
      }
    }
  }
}
