/** Base58: the in-place conversion between bases, and why its buffers always suffice. */
module Base58Buffers {
  import opened Numbers
  import opened Radix

  // ---------- Buffer sizes ----------

  /** Base-58 digits needed for r bytes, r < 8. */
  function DigitsForBytes(r: nat): nat
    requires r < 8
  {
    if r == 0 then 0 else if r == 1 then 2 else if r == 2 then 3 else if r == 3 then 5
    else if r == 4 then 6 else if r == 5 then 7 else if r == 6 then 9 else 10
  }

  /** Bytes needed for r base-58 digits, r < 15. */
  function BytesForDigits(r: nat): nat
    requires r < 15
  {
    if r == 0 then 0 else if r == 1 then 1 else if r == 2 then 2 else if r == 3 then 3
    else if r == 4 then 3 else if r == 5 then 4 else if r == 6 then 5 else if r == 7 then 6
    else if r == 8 then 6 else if r == 9 then 7 else if r == 10 then 8 else if r == 11 then 9
    else if r == 12 then 9 else if r == 13 then 10 else 11
  }

  lemma {:induction false} Powers58()
    ensures Pow(58, 0) == 1
    ensures Pow(58, 1) == 58
    ensures Pow(58, 2) == 3364
    ensures Pow(58, 3) == 195112
    ensures Pow(58, 4) == 11316496
    ensures Pow(58, 5) == 656356768
    ensures Pow(58, 6) == 38068692544
    ensures Pow(58, 7) == 2207984167552
    ensures Pow(58, 8) == 128063081718016
    ensures Pow(58, 9) == 7427658739644928
    ensures Pow(58, 10) == 430804206899405824
    ensures Pow(58, 11) == 24986644000165537792
    ensures Pow(58, 12) == 1449225352009601191936
    ensures Pow(58, 13) == 84055070416556869132288
    ensures Pow(58, 14) == 4875194084160298409672704
    ensures Pow(58, 15) == 282761256881297307761016832
    ensures Pow(58, 16) == 16400152899115243850138976256
  {
    hide Pow;
    PowZero(58);
    PowNext(58, 0);
    PowNext(58, 1);
    PowNext(58, 2);
    PowNext(58, 3);
    PowNext(58, 4);
    PowNext(58, 5);
    PowNext(58, 6);
    PowNext(58, 7);
    PowNext(58, 8);
    PowNext(58, 9);
    PowNext(58, 10);
    PowNext(58, 11);
    PowNext(58, 12);
    PowNext(58, 13);
    PowNext(58, 14);
    PowNext(58, 15);
  }

  lemma {:induction false} Powers256()
    ensures Pow(256, 0) == 1
    ensures Pow(256, 1) == 256
    ensures Pow(256, 2) == 65536
    ensures Pow(256, 3) == 16777216
    ensures Pow(256, 4) == 4294967296
    ensures Pow(256, 5) == 1099511627776
    ensures Pow(256, 6) == 281474976710656
    ensures Pow(256, 7) == 72057594037927936
    ensures Pow(256, 8) == 18446744073709551616
    ensures Pow(256, 9) == 4722366482869645213696
    ensures Pow(256, 10) == 1208925819614629174706176
    ensures Pow(256, 11) == 309485009821345068724781056
    ensures Pow(256, 12) == 79228162514264337593543950336
    ensures Pow(256, 13) == 20282409603651670423947251286016
  {
    hide Pow;
    PowZero(256);
    PowNext(256, 0);
    PowNext(256, 1);
    PowNext(256, 2);
    PowNext(256, 3);
    PowNext(256, 4);
    PowNext(256, 5);
    PowNext(256, 6);
    PowNext(256, 7);
    PowNext(256, 8);
    PowNext(256, 9);
    PowNext(256, 10);
    PowNext(256, 11);
    PowNext(256, 12);
  }

  lemma {:induction false} FewBytes(r: nat)
    requires r < 8
    ensures Pow(256, r) <= Pow(58, DigitsForBytes(r))
  {
    hide Pow;
    Powers58();
    Powers256();
  }

  lemma {:induction false} FewDigits(r: nat)
    requires r < 15
    ensures Pow(58, r) <= Pow(256, BytesForDigits(r))
  {
    hide Pow;
    Powers58();
    Powers256();
  }

  lemma EightBytes()
    ensures Pow(256, 8) <= Pow(58, 11)
  {
    hide Pow;
    Powers58();
    Powers256();
  }

  lemma FifteenDigits()
    ensures Pow(58, 15) <= Pow(256, 11)
  {
    hide Pow;
    Powers58();
    Powers256();
  }

  lemma {:induction false} SeventyOneDigits()
    ensures Pow(58, 71) <= Pow(256, 52)
  {
    hide Pow;
    Powers58();
    Powers256();
    PowAdd(58, 16, 16);
    PowAdd(58, 32, 32);
    PowAdd(58, 64, 7);
    PowAdd(256, 13, 13);
    PowAdd(256, 26, 26);
  }

  /** The encoder's buffer: n bytes fit in n * 138 / 100 + 1 base-58 digits. */
  lemma {:induction false} EncodeFits(n: nat)
    ensures Pow(256, n) <= Pow(58, n * 138 / 100 + 1)
  {
    hide Pow, DigitsForBytes;
    var q, r := n / 8, n % 8;
    EightBytes();
    FewBytes(r);
    FitsMany(256, 8, 58, 11, q, r, DigitsForBytes(r));
    EncodeRoom(n, q, r);
    PowMonotone(58, 11 * q + DigitsForBytes(r), n * 138 / 100 + 1);
  }

  lemma EncodeRoom(n: nat, q: nat, r: nat)
    requires n == 8 * q + r && r < 8
    ensures 11 * q + DigitsForBytes(r) <= n * 138 / 100 + 1
  {
  }

  /** The decoder's buffer: n base-58 digits fit in n * 733 / 1000 + 1 bytes. */
  lemma {:induction false} DecodeFits(n: nat)
    ensures Pow(58, n) <= Pow(256, n * 733 / 1000 + 1)
  {
    hide Pow, BytesForDigits;
    var q, t := n / 71, n % 71;
    var a, b := t / 15, t % 15;
    SeventyOneDigits();
    FifteenDigits();
    FewDigits(b);
    FitsMany(58, 15, 256, 11, a, b, BytesForDigits(b));
    FitsMany(58, 71, 256, 52, q, t, 11 * a + BytesForDigits(b));
    DecodeRoom(n, q, a, b);
    PowMonotone(256, 52 * q + (11 * a + BytesForDigits(b)), n * 733 / 1000 + 1);
  }

  lemma DecodeRoom(n: nat, q: nat, a: nat, b: nat)
    requires n == 71 * q + 15 * a + b && a <= 4 && b < 15
    ensures 52 * q + 11 * a + BytesForDigits(b) <= n * 733 / 1000 + 1
  {
  }

  // ---------- Multiply and add in place ----------

  lemma FromHead(b: nat, x: nat, t: seq<nat>)
    ensures FromDigits(b, [x] + t) == x * Pow(b, |t|) + FromDigits(b, t)
  {
    FromConcat(b, [x], t);
    FromStep(b, [], x);
    assert [] + [x] == [x];
  }

  lemma {:induction false} CarryMath(x: nat, d: nat, c0: nat, c1: nat, mult: nat, b: nat, p: nat)
    requires c0 + mult * x == c1 * b + d
    ensures d * p + c1 * (b * p) == c0 * p + mult * (x * p)
  {
    Distribute(c0, mult * x, p);
    Distribute(c1 * b, d, p);
    MulAssoc(mult, x, p);
    MulAssoc(c1, b, p);
  }

  /** One digit of the multiplication: the invariant of the carry loop. */
  lemma {:induction false} CarryDigit(b: nat, mult: nat, x: nat, carry: nat, t: seq<nat>, o: seq<nat>, c: nat,
                                      d: nat, next: nat)
    requires |t| == |o| && carry + mult * x == next * b + d
    requires FromDigits(b, t) + carry * Pow(b, |t|) == mult * FromDigits(b, o) + c
    ensures FromDigits(b, [d] + t) + next * Pow(b, |t| + 1) == mult * FromDigits(b, [x] + o) + c
  {
    FromHead(b, d, t);
    FromHead(b, x, o);
    CarryMath(x, d, carry, next, mult, b, Pow(b, |t|));
    assert Pow(b, |t| + 1) == b * Pow(b, |t|);
    var p, v := x * Pow(b, |t|), FromDigits(b, o);
    assert mult * (p + v) == mult * p + mult * v by { Distribute(p, v, mult); }
  }

  lemma {:induction false} TopDigit(b: nat, s: seq<nat>)
    requires b > 0 && s != [] && Digits(b, s)
    ensures s[0] != 0 <==> FromDigits(b, s) >= Pow(b, |s| - 1)
  {
    var t := s[1..];
    assert s == [s[0]] + t;
    FromHead(b, s[0], t);
    FromBound(b, t);
    if s[0] != 0 { MulMonotone(1, s[0], Pow(b, |t|)); }
  }

  /** The buffer holds a number whose digits are the last `length`, the first of them not zero. */
  ghost predicate Holds(b: nat, buf: seq<nat>, length: nat) {
    length <= |buf| && Digits(b, buf) && (forall i :: 0 <= i < |buf| - length ==> buf[i] == 0) && Canonical(b, buf[|buf| - length..])
  }

  /** The carry loop after `i` digits. */
  ghost predicate Carrying(b: nat, mult: nat, c: nat, was: seq<nat>, now: seq<nat>, i: nat, carry: nat, length: nat) {
    && |now| == |was| && i <= |was| && Digits(b, now) && now[..|was| - i] == was[..|was| - i]
    && FromDigits(b, now[|was| - i..]) + carry * Pow(b, i) == mult * FromDigits(b, was[|was| - i..]) + c
    && (i > length ==> carry != 0 || now[|was| - i] != 0)
  }

  lemma {:induction false} CarryStep(b: nat, mult: nat, c: nat, was: seq<nat>, now: seq<nat>, i: nat, carry: nat,
                                     length: nat, j: nat, d: nat, more: nat)
    requires b > 1 && i < |was| && Holds(b, was, length) && Carrying(b, mult, c, was, now, i, carry, length)
    requires carry != 0 || i < length
    requires j == |was| - 1 - i && d < b && carry + mult * now[j] == more * b + d
    ensures Carrying(b, mult, c, was, now[j := d], i + 1, more, length)
  {
    hide FromDigits, Pow;
    var next := now[j := d];
    assert now[j] == was[j] by { assert now[..j + 1][j] == was[..j + 1][j]; }
    CarryDigit(b, mult, was[j], carry, now[j + 1..], was[j + 1..], c, d, more);
    assert next[j..] == [d] + now[j + 1..];
    assert was[j..] == [was[j]] + was[j + 1..];
    assert next[..j] == was[..j] by { assert next[..j] == now[..j + 1][..j]; }
    if i >= length { assert was[j] == 0; }
  }

  /** Without a carry left, the buffer holds the product plus the carry that came in. */
  lemma {:induction false} CarryDone(b: nat, mult: nat, c: nat, was: seq<nat>, now: seq<nat>, i: nat, length: nat)
    requires b > 1 && mult > 0 && Holds(b, was, length) && Carrying(b, mult, c, was, now, i, 0, length) && i >= length
    ensures Holds(b, now, i) && FromDigits(b, now) == mult * FromDigits(b, was) + c
  {
    hide FromDigits, Pow;
    var j := |was| - i;
    forall k | 0 <= k < j ensures now[k] == 0 { assert now[..j][k] == was[..j][k] == 0; }
    Leading(b, now, j);
    Leading(b, was, j);
    if i == length && i > 0 {
      TopDigit(b, was[j..]);
      TopDigit(b, now[j..]);
      MulMonotone(1, mult, FromDigits(b, was));
    }
  }

  /** With room for the result, no carry is left at the end of the buffer. */
  lemma {:induction false} CarryGone(b: nat, mult: nat, c: nat, was: seq<nat>, now: seq<nat>, carry: nat, length: nat)
    requires b > 1 && Holds(b, was, length) && Carrying(b, mult, c, was, now, |was|, carry, length)
    requires mult * FromDigits(b, was) + c < Pow(b, |was|)
    ensures carry == 0
  {
    hide FromDigits, Pow;
    assert was[0..] == was;
    if carry > 0 { MulMonotone(1, carry, Pow(b, |was|)); }
  }

  lemma CarryBegins(b: nat, mult: nat, c: nat, was: seq<nat>, length: nat)
    requires Holds(b, was, length)
    ensures Carrying(b, mult, c, was, was, 0, c, length)
  {
    assert was[|was|..] == [];
  }

  /** buf := buf * mult + c. The loop may end early, and never with a carry. */
  method MultiplyAdd(buf: array<nat>, b: nat, mult: nat, c: nat, length: nat) returns (newLength: nat)
    requires b > 1 && mult > 0 && Holds(b, buf[..], length)
    requires mult * FromDigits(b, buf[..]) + c < Pow(b, buf.Length)
    modifies buf
    ensures Holds(b, buf[..], newLength) && FromDigits(b, buf[..]) == mult * old(FromDigits(b, buf[..])) + c
  {
    hide FromDigits, Pow, Holds, Carrying;
    ghost var was := buf[..];
    var carry: nat, i: nat := c, 0;
    CarryBegins(b, mult, c, was, length);
    while (carry != 0 || i < length) && i < buf.Length
      invariant i <= buf.Length && Carrying(b, mult, c, was, buf[..], i, carry, length)
      decreases buf.Length - i
    {
      var j := buf.Length - 1 - i;
      var sum: nat := carry + mult * buf[j];
      var digit: nat, more: nat := sum % b, sum / b;
      DivMod(sum, b);
      CarryStep(b, mult, c, was, buf[..], i, carry, length, j, digit, more);
      ghost var before := buf[..];
      buf[j] := digit;
      carry := more;
      assert buf[..] == before[j := digit];
      i := i + 1;
    }
    if i == buf.Length {
      CarryGone(b, mult, c, was, buf[..], carry, length);
    }
    assert carry == 0;
    HoldsLength(b, was, length);
    CarryDone(b, mult, c, was, buf[..], i, length);
    newLength := i;
  }

  lemma HoldsLength(b: nat, buf: seq<nat>, length: nat)
    requires Holds(b, buf, length)
    ensures length <= |buf|
  {
  }
}
