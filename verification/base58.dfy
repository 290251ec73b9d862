/** Base58 text: encoding and decoding are inverse, with and without a checksum. */
module Base58 {
  import opened Prelude
  import opened Numbers
  import opened Radix
  import opened Base58Buffers

  ghost predicate Bytes(s: seq<nat>) { Digits(256, s) }

  // ---------- The alphabet: digits and letters without 0, I, O and l ----------

  function DigitOf(c: char): int {
    if '1' <= c <= '9' then c as int - '1' as int
    else if 'A' <= c <= 'H' then c as int - 'A' as int + 9
    else if 'J' <= c <= 'N' then c as int - 'J' as int + 17
    else if 'P' <= c <= 'Z' then c as int - 'P' as int + 22
    else if 'a' <= c <= 'k' then c as int - 'a' as int + 33
    else if 'm' <= c <= 'z' then c as int - 'm' as int + 44
    else -1
  }

  function CharOf(d: nat): char
    requires d < 58
  {
    if d < 9 then ('1' as int + d) as char
    else if d < 17 then ('A' as int + d - 9) as char
    else if d < 22 then ('J' as int + d - 17) as char
    else if d < 33 then ('P' as int + d - 22) as char
    else if d < 44 then ('a' as int + d - 33) as char
    else ('m' as int + d - 44) as char
  }

  lemma CharDigit(d: nat)
    requires d < 58
    ensures DigitOf(CharOf(d)) == d && !IsSpace(CharOf(d)) && CharOf(d) != NUL
  {
  }

  lemma DigitChar(c: char)
    requires DigitOf(c) >= 0
    ensures DigitOf(c) < 58 && CharOf(DigitOf(c)) == c && !IsSpace(c)
  {
  }

  const NUL: char := 0 as char

  predicate IsSpace(c: char) {
    c == ' ' || c == '\n' || c == '\r' || c == '\t' || c as int == 11 || c as int == 12
  }

  // ---------- Numbers with leading zeros kept ----------

  function Zeros(s: seq<nat>): (z: nat)
    ensures z <= |s| && (forall i :: 0 <= i < z ==> s[i] == 0) && (z < |s| ==> s[z] != 0)
  {
    if s == [] || s[0] != 0 then 0 else 1 + Zeros(s[1..])
  }

  function ZeroRun(n: nat): (r: seq<nat>)
    ensures |r| == n && forall i :: 0 <= i < n ==> r[i] == 0
  {
    if n == 0 then [] else ZeroRun(n - 1) + [0]
  }

  /** Rewrites a base-a string in base b, with one leading zero for each. */
  function Convert(a: nat, b: nat, s: seq<nat>): seq<nat>
    requires b > 1
  {
    ZeroRun(Zeros(s)) + ToDigits(b, FromDigits(a, s))
  }

  lemma {:induction false} ZerosOf(s: seq<nat>, z: nat)
    requires z <= |s| && (forall i :: 0 <= i < z ==> s[i] == 0) && (z < |s| ==> s[z] != 0)
    ensures Zeros(s) == z
  {
  }

  lemma {:induction false} ConvertedDigits(a: nat, b: nat, s: seq<nat>)
    requires b > 1
    ensures Digits(b, Convert(a, b, s)) && Zeros(Convert(a, b, s)) == Zeros(s)
    ensures FromDigits(b, Convert(a, b, s)) == FromDigits(a, s)
  {
    hide ToDigits, FromDigits, ZeroRun, Zeros;
    var z, t := Zeros(s), ToDigits(b, FromDigits(a, s));
    var r := Convert(a, b, s);
    ReadBack(b, FromDigits(a, s));
    assert r[z..] == t;
    Leading(b, r, z);
    ZerosOf(r, z);
  }

  /** Converting there and back changes nothing. */
  lemma {:induction false} ConvertInverse(a: nat, b: nat, s: seq<nat>)
    requires a > 1 && b > 1 && Digits(a, s)
    ensures Convert(b, a, Convert(a, b, s)) == s
  {
    hide ToDigits, FromDigits, ZeroRun, Zeros;
    ConvertedDigits(a, b, s);
    var z := Zeros(s);
    Leading(a, s, z);
    WriteBack(a, s[z..]);
    assert s == ZeroRun(z) + s[z..];
  }

  // ---------- The reference ----------

  function Chars(d: seq<nat>): (r: string)
    requires forall i :: 0 <= i < |d| ==> d[i] < 58
    ensures |r| == |d| && forall i :: 0 <= i < |d| ==> r[i] == CharOf(d[i])
  {
    seq(|d|, i requires 0 <= i < |d| => CharOf(d[i]))
  }

  predicate InAlphabet(s: string) {
    forall i :: 0 <= i < |s| ==> DigitOf(s[i]) >= 0
  }

  function Values(s: string): (r: seq<nat>)
    requires InAlphabet(s)
    ensures |r| == |s| && forall i :: 0 <= i < |s| ==> r[i] == DigitOf(s[i]) < 58
  {
    if s == [] then [] else
    DigitChar(s[|s| - 1]);
    Values(s[..|s| - 1]) + [DigitOf(s[|s| - 1])]
  }

  ghost function Encoded(x: seq<nat>): string
    requires Bytes(x)
  {
    ConvertedDigits(256, 58, x);
    Chars(Convert(256, 58, x))
  }

  function TrimStart(s: string): string {
    if s != [] && IsSpace(s[0]) then TrimStart(s[1..]) else s
  }

  function TrimEnd(s: string): string {
    if s != [] && IsSpace(s[|s| - 1]) then TrimEnd(s[..|s| - 1]) else s
  }

  function Trim(s: string): string { TrimEnd(TrimStart(s)) }

  /** Within the limit; an empty result is never refused. */
  predicate Within(r: seq<nat>, maxRetLen: int) { |r| == 0 || |r| <= maxRetLen }

  ghost function Decoded(s: string, maxRetLen: int): Option<seq<nat>> {
    if NUL in s || !InAlphabet(Trim(s)) then None else
    var r := Convert(58, 256, Values(Trim(s)));
    if Within(r, maxRetLen) then Some(r) else None
  }

  // ---------- Inverses ----------

  lemma {:induction false} ValuesOfChars(d: seq<nat>)
    requires forall i :: 0 <= i < |d| ==> d[i] < 58
    ensures InAlphabet(Chars(d)) && Values(Chars(d)) == d && NUL !in Chars(d) && Trim(Chars(d)) == Chars(d)
  {
    hide DigitOf, CharOf, Values;
    forall i | 0 <= i < |d| ensures DigitOf(Chars(d)[i]) == d[i] && !IsSpace(Chars(d)[i]) && Chars(d)[i] != NUL { CharDigit(d[i]); }
  }

  lemma {:induction false} CharsOfValues(s: string)
    requires InAlphabet(s)
    ensures Chars(Values(s)) == s
  {
    hide DigitOf, CharOf, Values;
    forall i | 0 <= i < |s| ensures CharOf(Values(s)[i]) == s[i] { DigitChar(s[i]); }
  }

  /** Every byte string is decoded from its encoding, given a sufficient limit. */
  lemma {:induction false} DecodeEncode(x: seq<nat>, maxRetLen: int)
    requires Bytes(x) && Within(x, maxRetLen)
    ensures Decoded(Encoded(x), maxRetLen) == Some(x)
  {
    hide Convert, Trim, Values;
    ConvertedDigits(256, 58, x);
    ValuesOfChars(Convert(256, 58, x));
    ConvertInverse(256, 58, x);
  }

  /** Whatever is accepted is, up to surrounding space, the encoding of the result. */
  lemma {:induction false} EncodeDecode(s: string, maxRetLen: int)
    requires Decoded(s, maxRetLen).Some?
    ensures Bytes(Decoded(s, maxRetLen).value) && Encoded(Decoded(s, maxRetLen).value) == Trim(s)
  {
    hide Convert, Trim, Values;
    var t := Trim(s);
    ConvertedDigits(58, 256, Values(t));
    ConvertInverse(58, 256, Values(t));
    CharsOfValues(t);
  }

  // ---------- Encoding in place ----------

  lemma {:induction false} Prefix(b: nat, s: seq<nat>, k: nat)
    requires k < |s|
    ensures FromDigits(b, s[..k + 1]) == b * FromDigits(b, s[..k]) + s[k]
  {
    assert s[..k + 1] == s[..k] + [s[k]];
    FromStep(b, s[..k], s[k]);
  }

  /** There is room for every prefix of the input. */
  lemma {:induction false} Room(a: nat, b: nat, s: seq<nat>, k: nat, size: nat)
    requires a > 0 && Digits(a, s) && k < |s| && Pow(a, |s|) <= Pow(b, size)
    ensures a * FromDigits(a, s[..k]) + s[k] < Pow(b, size)
  {
    hide FromDigits, Pow;
    Prefix(a, s, k);
    FromBound(a, s[..k + 1]);
    PowMonotone(a, k + 1, |s|);
  }

  lemma {:induction false} HeldDigits(b: nat, buf: seq<nat>, length: nat)
    requires b > 1 && Holds(b, buf, length)
    ensures buf[|buf| - length..] == ToDigits(b, FromDigits(b, buf)) && length == |ToDigits(b, FromDigits(b, buf))|
    ensures Digits(b, buf) && (length > 0 ==> buf[|buf| - length] != 0)
  {
    hide FromDigits, ToDigits;
    Leading(b, buf, |buf| - length);
    WriteBack(b, buf[|buf| - length..]);
  }

  lemma HeldNothing(b: nat, buf: seq<nat>)
    requires b > 0 && forall i :: 0 <= i < |buf| ==> buf[i] == 0
    ensures Holds(b, buf, 0) && FromDigits(b, buf) == 0
  {
    FromZeros(b, buf);
  }

  /** Fills a zeroed buffer with the input's value, byte by byte or character by character. */
  method Accumulate(buf: array<nat>, a: nat, b: nat, s: seq<nat>) returns (length: nat)
    requires a > 1 && b > 1 && Digits(a, s) && Pow(a, |s|) <= Pow(b, buf.Length) && forall i :: 0 <= i < buf.Length ==> buf[i] == 0
    modifies buf
    ensures Holds(b, buf[..], length) && FromDigits(b, buf[..]) == FromDigits(a, s)
  {
    hide FromDigits, Pow, Holds;
    length := 0;
    HeldNothing(b, buf[..]);
    FromZeros(a, s[..0]);
    for k := 0 to |s|
      invariant Holds(b, buf[..], length) && FromDigits(b, buf[..]) == FromDigits(a, s[..k])
    {
      Room(a, b, s, k, buf.Length);
      Prefix(a, s, k);
      length := MultiplyAdd(buf, b, a, s[k], length);
    }
    assert s[..|s|] == s;
  }

  lemma {:induction false} EncodedIs(x: seq<nat>, z: nat, digits: seq<nat>)
    requires Bytes(x) && z == Zeros(x) && digits == ToDigits(58, FromDigits(256, x[z..]))
    ensures Digits(58, digits) && Encoded(x) == OneRun(z) + Chars(digits)
  {
    hide FromDigits, ToDigits, Zeros;
    Leading(256, x, z);
    ConvertedDigits(256, 58, x);
    ReadBack(58, FromDigits(256, x));
    assert Convert(256, 58, x) == ZeroRun(z) + digits;
    assert Encoded(x) == OneRun(z) + Chars(digits);
  }

  function OneRun(n: nat): (r: string)
    ensures |r| == n && forall i :: 0 <= i < n ==> r[i] == '1'
  {
    if n == 0 then [] else OneRun(n - 1) + ['1']
  }

  method EncodeBase58(input: seq<nat>) returns (str: string)
    requires Bytes(input)
    ensures str == Encoded(input)
  {
    hide FromDigits, ToDigits, Pow, Holds, Encoded, CharOf, OneRun;
    var zeroes := 0;
    while zeroes < |input| && input[zeroes] == 0
      invariant zeroes <= |input| && forall i :: 0 <= i < zeroes ==> input[i] == 0
    {
      zeroes := zeroes + 1;
    }
    ZerosOf(input, zeroes);
    var rest := input[zeroes..];
    var size := |rest| * 138 / 100 + 1;
    var b58 := new nat[size](_ => 0);
    EncodeFits(|rest|);
    var length := Accumulate(b58, 256, 58, rest);
    HoldsLength(58, b58[..], length);
    HeldDigits(58, b58[..], length);
    EncodedIs(input, zeroes, b58[size - length..]);
    var it := SkipZeros(b58, size - length);
    assert it == size - length;
    var chars := Spell(b58, it);
    str := OneRun(zeroes) + chars;
  }

  method SkipZeros(buf: array<nat>, start: nat) returns (it: nat)
    requires start <= buf.Length
    ensures start <= it <= buf.Length && (forall i :: start <= i < it ==> buf[i] == 0)
    ensures (it < buf.Length ==> buf[it] != 0)
  {
    it := start;
    while it < buf.Length && buf[it] == 0
      invariant start <= it <= buf.Length && forall i :: start <= i < it ==> buf[i] == 0
    {
      it := it + 1;
    }
  }

  method Spell(b58: array<nat>, it: nat) returns (str: string)
    requires it <= b58.Length && Digits(58, b58[..])
    ensures Digits(58, b58[it..]) && str == Chars(b58[it..])
  {
    hide CharOf;
    str := [];
    for k := it to b58.Length
      invariant str == Chars(b58[it..k])
    {
      assert b58[it..k + 1] == b58[it..k] + [b58[k]];
      str := str + [CharOf(b58[k])];
    }
    assert b58[it..b58.Length] == b58[it..];
  }

  // ---------- Decoding in place ----------

  lemma {:induction false} TrimStartIs(s: string, p: nat)
    requires p <= |s| && (forall i :: 0 <= i < p ==> IsSpace(s[i])) && (p < |s| ==> !IsSpace(s[p]))
    ensures TrimStart(s) == s[p..]
  {
    if p > 0 {
      TrimStartIs(s[1..], p - 1);
      assert s[1..][p - 1..] == s[p..];
    }
  }

  lemma {:induction false} TrimEndIs(s: string, q: nat)
    requires q <= |s| && (forall i :: q <= i < |s| ==> IsSpace(s[i])) && (q > 0 ==> !IsSpace(s[q - 1]))
    ensures TrimEnd(s) == s[..q]
  {
    if q < |s| {
      TrimEndIs(s[..|s| - 1], q);
      assert s[..|s| - 1][..q] == s[..q];
    } else {
      assert s[..q] == s;
    }
  }

  /** Trimming at the end keeps everything up to a character that is no space. */
  lemma {:induction false} TrimEndKeeps(s: string, m: nat)
    requires m < |s| && !IsSpace(s[m])
    ensures m < |TrimEnd(s)| && TrimEnd(s)[..m + 1] == s[..m + 1]
  {
    if IsSpace(s[|s| - 1]) {
      TrimEndKeeps(s[..|s| - 1], m);
      assert s[..|s| - 1][..m + 1] == s[..m + 1];
    }
  }

  /** Between `start` and `p` are the first characters of the trimmed text. */
  lemma {:induction false} TrimmedPrefix(s: string, start: nat, p: nat)
    requires start < p <= |s| && (forall i :: 0 <= i < start ==> IsSpace(s[i]))
    requires forall i :: start <= i < p ==> !IsSpace(s[i])
    ensures p - start <= |Trim(s)| && Trim(s)[..p - start] == s[start..p]
  {
    TrimStartIs(s, start);
    TrimEndKeeps(s[start..], p - start - 1);
    assert s[start..][..p - start] == s[start..p];
  }

  lemma {:induction false} TrimmedAll(s: string, start: nat, p: nat)
    requires start <= p <= |s| && (forall i :: 0 <= i < start ==> IsSpace(s[i]))
    requires forall i :: start <= i < p ==> !IsSpace(s[i])
    requires forall i :: p <= i < |s| ==> IsSpace(s[i])
    requires start < |s| ==> !IsSpace(s[start])
    ensures Trim(s) == s[start..p]
  {
    TrimStartIs(s, start);
    TrimEndIs(s[start..], p - start);
    assert s[start..][..p - start] == s[start..p];
  }

  lemma {:induction false} ValuesPrefix(s: string, m: nat)
    requires InAlphabet(s) && m <= |s|
    ensures InAlphabet(s[..m]) && Values(s[..m]) == Values(s)[..m]
  {
    hide DigitOf, Values;
  }

  /** A longer text has at least as long a value. */
  lemma {:induction false} ValueGrows(s: seq<nat>, m: nat)
    requires m <= |s|
    ensures FromDigits(58, s[..m]) <= FromDigits(58, s)
  {
    if m == |s| {
      assert s[..m] == s;
    } else {
      ValueGrows(s[..|s| - 1], m);
      assert s[..|s| - 1][..m] == s[..m];
    }
  }

  lemma {:induction false} LengthGrows(b: nat, v: nat, w: nat)
    requires b > 1 && v <= w
    ensures |ToDigits(b, v)| <= |ToDigits(b, w)|
  {
    if v > 0 {
      Smaller(v, b);
      Smaller(w, b);
      DivMonotone(v, w, b);
      LengthGrows(b, v / b, w / b);
    }
  }

  lemma {:induction false} DivMonotone(v: nat, w: nat, b: nat)
    requires b > 0 && v <= w
    ensures v / b <= w / b
  {
    DivMod(v, b);
    DivMod(w, b);
    if v / b > w / b {
      MulMonotone(w / b + 1, v / b, b);
      Distribute(w / b, 1, b);
    }
  }

  /** What has been read of the text: z ones, then digits of the value v. */
  ghost predicate Read(s: string, start: nat, p: nat, z: nat, v: nat) {
    && start <= p <= |s| && (forall i :: 0 <= i < start ==> IsSpace(s[i])) && (forall i :: start <= i < p ==> DigitOf(s[i]) >= 0)
    && z <= p - start && (forall i :: start <= i < start + z ==> s[i] == '1') && (start + z < p ==> s[start + z] != '1')
    && InAlphabet(s[start..p]) && v == FromDigits(58, Values(s[start..p]))
  }

  /** Too long already: the whole text, if it is valid at all, is longer still. */
  lemma {:induction false} TooLong(s: string, start: nat, p: nat, z: nat, v: nat, maxRetLen: int)
    requires Read(s, start, p, z, v) && start < p && z + |ToDigits(256, v)| > maxRetLen && z + |ToDigits(256, v)| > 0
    ensures Decoded(s, maxRetLen) == None
  {
    hide DigitOf, ToDigits, FromDigits, Trim, Values, Zeros;
    assert forall i :: start <= i < p ==> !IsSpace(s[i]) by {
      forall i | start <= i < p ensures !IsSpace(s[i]) { DigitChar(s[i]); }
    }
    TrimmedPrefix(s, start, p);
    var t, m := Trim(s), p - start;
    if InAlphabet(t) {
      ValuesPrefix(t, m);
      ValueGrows(Values(t), m);
      LengthGrows(256, v, FromDigits(58, Values(t)));
      assert DigitOf('1') == 0 by { OneIsZero(); }
      forall i | 0 <= i < z ensures Values(t)[i] == 0 { assert t[..m][i] == s[start..p][i]; }
      ZerosAtLeast(Values(t), z);
    }
  }

  lemma OneIsZero()
    ensures DigitOf('1') == 0
  {
  }

  lemma ZerosAtLeast(s: seq<nat>, z: nat)
    requires z <= |s| && forall i :: 0 <= i < z ==> s[i] == 0
    ensures Zeros(s) >= z
  {
  }

  /** A character of the trimmed text that is not in the alphabet. */
  lemma {:induction false} BadCharacter(s: string, start: nat, bad: nat, last: nat, maxRetLen: int)
    requires start <= bad <= last < |s| && (forall i :: 0 <= i < start ==> IsSpace(s[i])) && !IsSpace(s[start])
    requires !IsSpace(s[last])
    requires DigitOf(s[bad]) < 0
    ensures Decoded(s, maxRetLen) == None
  {
    hide DigitOf, TrimEnd, TrimStart;
    TrimStartIs(s, start);
    TrimEndKeeps(s[start..], last - start);
    assert Trim(s)[bad - start] == s[bad] by {
      assert Trim(s)[..last - start + 1][bad - start] == s[start..][..last - start + 1][bad - start];
    }
  }

  lemma SpaceIsBad(c: char)
    requires IsSpace(c)
    ensures DigitOf(c) < 0
  {
  }

  lemma {:induction false} ReadOne(s: string, start: nat, p: nat, z: nat, v: nat)
    requires Read(s, start, p, z, v) && p < |s| && s[p] == '1' && z == p - start && v == 0
    ensures Read(s, start, p + 1, z + 1, 0)
  {
    hide DigitOf, FromDigits, Values;
    OneIsZero();
    var t := s[start..p + 1];
    assert t[..p - start] == s[start..p];
    ValuesPrefix(t, p - start);
    FromZeros(58, Values(t));
  }

  lemma {:induction false} ReadDigit(s: string, start: nat, p: nat, z: nat, v: nat)
    requires Read(s, start, p, z, v) && p < |s| && DigitOf(s[p]) >= 0 && (p == start + z ==> s[p] != '1')
    ensures Read(s, start, p + 1, z, 58 * v + DigitOf(s[p]))
  {
    hide DigitOf, FromDigits, Values;
    var t, m := s[start..p + 1], p - start;
    assert t[..m] == s[start..p];
    ValuesPrefix(t, m);
    assert Values(t)[..m + 1] == Values(t);
    Prefix(58, Values(t), m);
  }

  /** There is room for the next character. */
  lemma {:induction false} ReadRoom(s: string, start: nat, p: nat, z: nat, v: nat, size: nat)
    requires Read(s, start, p, z, v) && p < |s| && 0 <= DigitOf(s[p]) < 58 && Pow(58, |s| - start - z) <= Pow(256, size)
    ensures 58 * v + DigitOf(s[p]) < Pow(256, size)
  {
    hide DigitOf, FromDigits, Values, Pow;
    OneIsZero();
    var d, m := Values(s[start..p]), p - start;
    Leading(58, d, z);
    FromBound(58, d[z..]);
    BoundStep(v, Pow(58, m - z), 58, DigitOf(s[p]));
    PowNext(58, m - z);
    PowMonotone(58, m - z + 1, |s| - start - z);
  }

  /** The whole text has been read. */
  lemma {:induction false} ReadAll(s: string, start: nat, p: nat, z: nat, v: nat, maxRetLen: int)
    requires Read(s, start, p, z, v) && (start < |s| ==> !IsSpace(s[start])) && NUL !in s && forall i :: p <= i < |s| ==> IsSpace(s[i])
    requires p > start ==> z + |ToDigits(256, v)| <= maxRetLen
    ensures Decoded(s, maxRetLen) == Some(ZeroRun(z) + ToDigits(256, v))
  {
    hide DigitOf, ToDigits, FromDigits, Trim, Values, Zeros, ZeroRun;
    forall i | start <= i < p ensures !IsSpace(s[i]) { DigitChar(s[i]); }
    TrimmedAll(s, start, p);
    var d := Values(s[start..p]);
    OneIsZero();
    if start + z < p { OnlyOneIsZero(s[start + z]); }
    ZerosOf(d, z);
    if p == start { NothingRead(d); }
  }

  lemma NothingRead(d: seq<nat>)
    requires d == []
    ensures ToDigits(256, FromDigits(58, d)) == []
  {
  }

  lemma OnlyOneIsZero(c: char)
    requires c != '1'
    ensures DigitOf(c) != 0
  {
  }

  lemma ReadNothing(s: string, start: nat)
    requires start <= |s| && forall i :: 0 <= i < start ==> IsSpace(s[i])
    ensures Read(s, start, start, 0, 0)
  {
    assert s[start..start] == [];
  }

  /** Counts leading ones, up to the limit. */
  method ReadOnes(s: string, start: nat, maxRetLen: int) returns (tooLong: bool, p: nat)
    requires start <= |s| && forall i :: 0 <= i < start ==> IsSpace(s[i])
    ensures tooLong ==> Decoded(s, maxRetLen) == None
    ensures !tooLong ==>
      start <= p && Read(s, start, p, p - start, 0) && (p > start ==> p - start <= maxRetLen) && (p < |s| ==> s[p] != '1')
  {
    hide Read, Decoded, ToDigits;
    p := start;
    ReadNothing(s, start);
    while p < |s| && s[p] == '1'
      invariant start <= p <= |s| && Read(s, start, p, p - start, 0) && (p > start ==> p - start <= maxRetLen)
    {
      ReadOne(s, start, p, p - start, 0);
      p := p + 1;
      if p - start > maxRetLen {
        ZeroDigits();
        TooLong(s, start, p, p - start, 0, maxRetLen);
        return true, p;
      }
    }
    tooLong := false;
  }

  lemma ZeroDigits()
    ensures ToDigits(256, 0) == []
  {
  }

  lemma {:induction false} ReadPositive(s: string, start: nat, p: nat, z: nat, v: nat)
    requires Read(s, start, p, z, v) && start + z < p
    ensures |ToDigits(256, v)| > 0
  {
    hide FromDigits, Values, DigitOf;
    OneIsZero();
    var d := Values(s[start..p]);
    OnlyOneIsZero(s[start + z]);
    Leading(58, d, z);
    Positive(58, d[z..]);
  }

  /** The reader's state: `z` ones, then digits whose value is in the buffer, within the limit. */
  ghost predicate Reading(s: string, start: nat, p: nat, z: nat, buf: seq<nat>, length: nat, maxRetLen: int) {
    && Holds(256, buf, length) && Read(s, start, p, z, FromDigits(256, buf))
    && (p > start ==> z + |ToDigits(256, FromDigits(256, buf))| <= maxRetLen)
  }

  /** One character, which is not a space. */
  method TakeDigit(s: string, start: nat, p: nat, z: nat, maxRetLen: int, b256: array<nat>, length: nat)
      returns (failed: bool, newLength: nat)
    requires p < |s| && start + z <= p && Reading(s, start, p, z, b256[..], length, maxRetLen)
    requires p == start + z ==> s[p] != '1'
    requires !IsSpace(s[start]) && !IsSpace(s[p]) && Pow(58, |s| - start - z) <= Pow(256, b256.Length)
    modifies b256
    ensures failed ==> Decoded(s, maxRetLen) == None
    ensures !failed ==> Reading(s, start, p + 1, z, b256[..], newLength, maxRetLen)
  {
    hide FromDigits, Pow, Holds, Decoded, ToDigits, DigitOf, Read;
    ghost var v := FromDigits(256, b256[..]);
    newLength := length;
    var carry := DigitOf(s[p]);
    if carry < 0 {
      ReadSpaces(s, start, p, z, v);
      BadCharacter(s, start, p, p, maxRetLen);
      return true, length;
    }
    DigitChar(s[p]);
    ReadRoom(s, start, p, z, v, b256.Length);
    ReadDigit(s, start, p, z, v);
    newLength := MultiplyAdd(b256, 256, 58, carry, length);
    HeldDigits(256, b256[..], newLength);
    failed := newLength + z > maxRetLen;
    ghost var w := FromDigits(256, b256[..]);
    if failed {
      ReadPositive(s, start, p + 1, z, w);
      TooLong(s, start, p + 1, z, w, maxRetLen);
    }
  }

  lemma ReadingBegins(s: string, start: nat, first: nat, buf: seq<nat>, maxRetLen: int)
    requires start <= first && Read(s, start, first, first - start, 0) && (first > start ==> first - start <= maxRetLen)
    requires forall i :: 0 <= i < |buf| ==> buf[i] == 0
    ensures Reading(s, start, first, first - start, buf, 0, maxRetLen)
  {
    HeldNothing(256, buf);
    ZeroDigits();
  }

  /** Reads digits up to a space, the end or a bad character. */
  method ReadDigits(s: string, start: nat, first: nat, maxRetLen: int, b256: array<nat>)
      returns (failed: bool, p: nat, length: nat)
    requires start <= first && Read(s, start, first, first - start, 0) && (first > start ==> first - start <= maxRetLen)
    requires (first < |s| ==> s[first] != '1') && (start < |s| ==> !IsSpace(s[start])) && first <= |s|
    requires Pow(58, |s| - first) <= Pow(256, b256.Length) && forall i :: 0 <= i < b256.Length ==> b256[i] == 0
    modifies b256
    ensures failed ==> Decoded(s, maxRetLen) == None
    ensures !failed ==> first <= p <= |s| && Reading(s, start, p, first - start, b256[..], length, maxRetLen) && (p < |s| ==> IsSpace(s[p]))
  {
    hide Reading, Decoded, Pow, Read;
    p, length, failed := first, 0, false;
    ReadingBegins(s, start, first, b256[..], maxRetLen);
    while p < |s| && !IsSpace(s[p])
      invariant first <= p <= |s| && Reading(s, start, p, first - start, b256[..], length, maxRetLen)
    {
      failed, length := TakeDigit(s, start, p, first - start, maxRetLen, b256, length);
      p := p + 1;
      if failed {
        return;
      }
    }
    failed := false;
  }

  lemma {:induction false} ReadingDone(s: string, start: nat, p: nat, z: nat, buf: seq<nat>, length: nat,
                                       maxRetLen: int)
    requires Reading(s, start, p, z, buf, length, maxRetLen) && NUL !in s && (start < |s| ==> !IsSpace(s[start]))
    requires forall i :: p <= i < |s| ==> IsSpace(s[i])
    ensures length <= |buf| && Decoded(s, maxRetLen) == Some(ZeroRun(z) + buf[|buf| - length..])
  {
    hide FromDigits, ToDigits, Decoded, Read;
    ReadAll(s, start, p, z, FromDigits(256, buf), maxRetLen);
    HeldDigits(256, buf, length);
  }

  /** Decodes exactly what the reference decodes. The carry loop never runs out of buffer. */
  method DecodeBase58(s: string, maxRetLen: int) returns (ok: bool, vch: seq<nat>)
    ensures Decoded(s, maxRetLen) == if ok then Some(vch) else None
  {
    hide Reading, Decoded, Pow, Read, ZeroRun;
    vch := [];
    if NUL in s {
      HasNul(s, maxRetLen);
      return false, [];
    }
    var start := SkipSpaces(s, 0);
    var tooLong, first := ReadOnes(s, start, maxRetLen);
    if tooLong {
      return false, [];
    }
    ReadBounds(s, start, first, first - start, 0);
    var size := (|s| - first) * 733 / 1000 + 1;
    var b256 := new nat[size](_ => 0);
    DecodeFits(|s| - first);
    var failed, p, length := ReadDigits(s, start, first, maxRetLen, b256);
    if failed {
      return false, [];
    }
    var end := SkipSpaces(s, p);
    if end != |s| {
      StrayText(s, start, p, end, maxRetLen);
      return false, [];
    }
    ReadingDone(s, start, p, first - start, b256[..], length, maxRetLen);
    ok, vch := true, ZeroRun(first - start) + b256[size - length..];
  }

  method SkipSpaces(s: string, p: nat) returns (q: nat)
    requires p <= |s|
    ensures p <= q <= |s| && (forall i :: p <= i < q ==> IsSpace(s[i])) && (q < |s| ==> !IsSpace(s[q]))
  {
    q := p;
    while q < |s| && IsSpace(s[q])
      invariant p <= q <= |s| && forall i :: p <= i < q ==> IsSpace(s[i])
    {
      q := q + 1;
    }
  }

  lemma HasNul(s: string, maxRetLen: int)
    requires NUL in s
    ensures Decoded(s, maxRetLen) == None
  {
  }

  /** Something follows a space: the trimmed text has a space inside. */
  lemma {:induction false} StrayText(s: string, start: nat, p: nat, end: nat, maxRetLen: int)
    requires start <= p <= end < |s| && (forall i :: 0 <= i < start ==> IsSpace(s[i])) && !IsSpace(s[start])
    requires IsSpace(s[p]) && !IsSpace(s[end])
    ensures Decoded(s, maxRetLen) == None
  {
    SpaceIsBad(s[p]);
    BadCharacter(s, start, p, end, maxRetLen);
  }

  lemma ReadBounds(s: string, start: nat, p: nat, z: nat, v: nat)
    requires Read(s, start, p, z, v)
    ensures start <= p <= |s|
  {
  }

  lemma ReadSpaces(s: string, start: nat, p: nat, z: nat, v: nat)
    requires Read(s, start, p, z, v)
    ensures forall i :: 0 <= i < start ==> IsSpace(s[i])
  {
  }

  // ---------- With a checksum ----------

  const INT_MAX := 0x7FFF_FFFF

  function Saturated(maxRet: int): int { if maxRet > INT_MAX - 4 then INT_MAX else maxRet + 4 }

  /** The first four bytes of a hash. */
  ghost predicate Checksum(check: seq<nat> -> seq<nat>) {
    forall x :: |check(x)| == 4 && Bytes(check(x))
  }

  ghost function EncodedCheck(check: seq<nat> -> seq<nat>, x: seq<nat>): string
    requires Checksum(check) && Bytes(x)
  {
    Encoded(x + check(x))
  }

  ghost function DecodedCheck(check: seq<nat> -> seq<nat>, s: string, maxRet: int): Option<seq<nat>> {
    var r := Decoded(s, Saturated(maxRet));
    if r.None? || |r.value| < 4 then None else
    var x := r.value[..|r.value| - 4];
    if check(x) == r.value[|r.value| - 4..] then Some(x) else None
  }

  lemma {:induction false} DecodeEncodeCheck(check: seq<nat> -> seq<nat>, x: seq<nat>, maxRet: int)
    requires Checksum(check) && Bytes(x) && |x| <= maxRet && |x| + 4 <= INT_MAX
    ensures DecodedCheck(check, EncodedCheck(check, x), maxRet) == Some(x)
  {
    hide Decoded, Encoded;
    var y := x + check(x);
    DecodeEncode(y, Saturated(maxRet));
    assert y[..|y| - 4] == x && y[|y| - 4..] == check(x);
  }

  lemma {:induction false} EncodeDecodeCheck(check: seq<nat> -> seq<nat>, s: string, maxRet: int)
    requires Checksum(check) && DecodedCheck(check, s, maxRet).Some?
    ensures var x := DecodedCheck(check, s, maxRet).value; Bytes(x) && EncodedCheck(check, x) == Trim(s)
  {
    hide Decoded, Encoded, Trim;
    EncodeDecode(s, Saturated(maxRet));
    var y := Decoded(s, Saturated(maxRet)).value;
    assert y == y[..|y| - 4] + y[|y| - 4..];
  }

  method EncodeBase58Check(check: seq<nat> -> seq<nat>, input: seq<nat>) returns (str: string)
    requires Checksum(check) && Bytes(input)
    ensures str == EncodedCheck(check, input)
  {
    str := EncodeBase58(input + check(input));
  }

  method DecodeBase58Check(check: seq<nat> -> seq<nat>, s: string, maxRet: int) returns (ok: bool, vch: seq<nat>)
    ensures DecodedCheck(check, s, maxRet) == if ok then Some(vch) else None
  {
    hide Decoded;
    ok, vch := DecodeBase58(s, if maxRet > INT_MAX - 4 then INT_MAX else maxRet + 4);
    if !ok || |vch| < 4 {
      return false, [];
    }
    if check(vch[..|vch| - 4]) != vch[|vch| - 4..] {
      return false, [];
    }
    vch := vch[..|vch| - 4];
  }
}
