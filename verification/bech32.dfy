/** Bech32 and Bech32m text: encoding and decoding are inverse. */
module Bech32 {
  import opened Prelude
  import opened Bech32Checksum
  import opened Bech32Bch

  datatype Encoding = BECH32 | BECH32M
  datatype Decoding = Decoding(encoding: Encoding, hrp: string, values: Data)

  function EncodingConstant(e: Encoding): bv32 {
    if e.BECH32? then 1 else 0x2bc830a3
  }

  // ---------- Characters ----------

  function Char0(v: bv32): char {
    if v == 0 then 'q' else if v == 1 then 'p' else if v == 2 then 'z' else if v == 3 then 'r'
    else if v == 4 then 'y' else if v == 5 then '9' else if v == 6 then 'x' else '8'
  }

  function Rev0(c: char): Option<bv32> {
    if c == 'q' then Some(0) else if c == 'p' then Some(1) else if c == 'z' then Some(2)
    else if c == 'r' then Some(3) else if c == 'y' then Some(4) else if c == '9' then Some(5)
    else if c == 'x' then Some(6) else if c == '8' then Some(7) else None
  }

  function Char1(v: bv32): char {
    if v == 8 then 'g' else if v == 9 then 'f' else if v == 10 then '2' else if v == 11 then 't'
    else if v == 12 then 'v' else if v == 13 then 'd' else if v == 14 then 'w' else '0'
  }

  function Rev1(c: char): Option<bv32> {
    if c == 'g' then Some(8) else if c == 'f' then Some(9) else if c == '2' then Some(10)
    else if c == 't' then Some(11) else if c == 'v' then Some(12) else if c == 'd' then Some(13)
    else if c == 'w' then Some(14) else if c == '0' then Some(15) else None
  }

  function Char2(v: bv32): char {
    if v == 16 then 's' else if v == 17 then '3' else if v == 18 then 'j' else if v == 19 then 'n'
    else if v == 20 then '5' else if v == 21 then '4' else if v == 22 then 'k' else 'h'
  }

  function Rev2(c: char): Option<bv32> {
    if c == 's' then Some(16) else if c == '3' then Some(17) else if c == 'j' then Some(18)
    else if c == 'n' then Some(19) else if c == '5' then Some(20) else if c == '4' then Some(21)
    else if c == 'k' then Some(22) else if c == 'h' then Some(23) else None
  }

  function Char3(v: bv32): char {
    if v == 24 then 'c' else if v == 25 then 'e' else if v == 26 then '6' else if v == 27 then 'm'
    else if v == 28 then 'u' else if v == 29 then 'a' else if v == 30 then '7' else 'l'
  }

  function Rev3(c: char): Option<bv32> {
    if c == 'c' then Some(24) else if c == 'e' then Some(25) else if c == '6' then Some(26)
    else if c == 'm' then Some(27) else if c == 'u' then Some(28) else if c == 'a' then Some(29)
    else if c == '7' then Some(30) else if c == 'l' then Some(31) else None
  }

  /** The character set, eight characters at a time. */
  function CharOf(v: bv32): char {
    if v < 8 then Char0(v) else if v < 16 then Char1(v) else if v < 24 then Char2(v) else Char3(v)
  }

  function RevLower(c: char): Option<bv32> {
    if Rev0(c).Some? then Rev0(c) else if Rev1(c).Some? then Rev1(c) else if Rev2(c).Some? then Rev2(c) else Rev3(c)
  }

  function LowerCase(c: char): char {
    if 'A' <= c <= 'Z' then (c as int - 'A' as int + 'a' as int) as char else c
  }

  function Rev(c: char): Option<bv32> { RevLower(LowerCase(c)) }

  predicate IsLower(c: char) { 'a' <= c <= 'z' }

  predicate IsUpper(c: char) { 'A' <= c <= 'Z' }

  predicate Printable(c: char) { 33 <= c as int <= 126 }

  /** A character as it stands in the data part. */
  predicate DataChar(c: char) { c != '1' && !IsUpper(c) && Printable(c) && LowerCase(c) == c }

  lemma RevChar0(v: bv32)
    requires v < 8
    ensures Rev0(Char0(v)) == Some(v) && DataChar(Char0(v))
  {
  }

  lemma CharRev0(c: char)
    requires Rev0(c).Some?
    ensures 0 <= Rev0(c).value < 8 && Char0(Rev0(c).value) == c
  {
  }

  lemma RevChar1(v: bv32)
    requires 8 <= v < 16
    ensures Rev0(Char1(v)) == None && Rev1(Char1(v)) == Some(v) && DataChar(Char1(v))
  {
  }

  lemma CharRev1(c: char)
    requires Rev1(c).Some?
    ensures 8 <= Rev1(c).value < 16 && Char1(Rev1(c).value) == c
  {
  }

  lemma RevChar2(v: bv32)
    requires 16 <= v < 24
    ensures Rev0(Char2(v)) == None && Rev1(Char2(v)) == None && Rev2(Char2(v)) == Some(v) && DataChar(Char2(v))
  {
  }

  lemma CharRev2(c: char)
    requires Rev2(c).Some?
    ensures 16 <= Rev2(c).value < 24 && Char2(Rev2(c).value) == c
  {
  }

  lemma RevChar3(v: bv32)
    requires 24 <= v < 32
    ensures Rev0(Char3(v)) == None && Rev1(Char3(v)) == None && Rev2(Char3(v)) == None && Rev3(Char3(v)) == Some(v)
    ensures DataChar(Char3(v))
  {
  }

  lemma CharRev3(c: char)
    requires Rev3(c).Some?
    ensures 24 <= Rev3(c).value < 32 && Char3(Rev3(c).value) == c
  {
  }

  lemma {:induction false} RevChar(v: bv32)
    requires v < 32
    ensures RevLower(CharOf(v)) == Some(v) && DataChar(CharOf(v))
  {
    hide Char0, Char1, Char2, Char3, Rev0, Rev1, Rev2, Rev3, DataChar;
    if v < 8 {
      RevChar0(v);
    } else if v < 16 {
      RevChar1(v);
    } else if v < 24 {
      RevChar2(v);
    } else {
      RevChar3(v);
    }
  }

  lemma {:induction false} CharRev(c: char)
    requires RevLower(c).Some?
    ensures RevLower(c).value < 32 && CharOf(RevLower(c).value) == c
  {
    hide Char0, Char1, Char2, Char3, Rev0, Rev1, Rev2, Rev3;
    if Rev0(c).Some? {
      CharRev0(c);
    } else if Rev1(c).Some? {
      CharRev1(c);
    } else if Rev2(c).Some? {
      CharRev2(c);
    } else {
      CharRev3(c);
    }
  }

  function Lower(s: string): (r: string)
    ensures |r| == |s| && forall i :: 0 <= i < |s| ==> r[i] == LowerCase(s[i])
  {
    seq(|s|, i requires 0 <= i < |s| => LowerCase(s[i]))
  }

  // ---------- The reference ----------

  function Code(c: char): bv8 { (c as int % 256) as bv8 }

  function High(c: char): bv32 { (Code(c) >> 5) as bv32 }

  function Low(c: char): bv32 { (Code(c) & 0x1f) as bv32 }

  function Expanded(hrp: string): (r: Data)
    ensures |r| == 2 * |hrp| + 1
    ensures forall i :: 0 <= i < |hrp| ==> r[i] == High(hrp[i]) && r[i + |hrp| + 1] == Low(hrp[i])
    ensures r[|hrp|] == 0
  {
    seq(|hrp|, i requires 0 <= i < |hrp| => High(hrp[i])) + [0] + seq(|hrp|, i requires 0 <= i < |hrp| => Low(hrp[i]))
  }

  function Checksum(e: Encoding, hrp: string, values: Data): Data {
    Groups(Xor(PolyMod(Expanded(hrp) + values + [0, 0, 0, 0, 0, 0]), EncodingConstant(e)))
  }

  function Spelled(v: Data): (r: string)
    ensures |r| == |v| && forall i :: 0 <= i < |v| ==> r[i] == CharOf(v[i])
  {
    seq(|v|, i requires 0 <= i < |v| => CharOf(v[i]))
  }

  function Encoded(e: Encoding, hrp: string, values: Data): string {
    hrp + ['1'] + Spelled(values + Checksum(e, hrp, values))
  }

  /** Only printable characters, and not both cases. */
  ghost predicate Acceptable(s: string) {
    && (forall i :: 0 <= i < |s| ==> Printable(s[i]))
    && !((exists i :: 0 <= i < |s| && IsLower(s[i])) && (exists i :: 0 <= i < |s| && IsUpper(s[i])))
  }

  /** The last index of '1', or -1. */
  function LastOne(s: string): (p: int)
    ensures -1 <= p < |s| && (p >= 0 ==> s[p] == '1') && forall i :: p < i < |s| ==> s[i] != '1'
  {
    if s == [] then -1 else if s[|s| - 1] == '1' then |s| - 1 else LastOne(s[..|s| - 1])
  }

  predicate AllRev(s: string) { forall i :: 0 <= i < |s| ==> Rev(s[i]).Some? }

  function Values(s: string): (r: Data)
    requires AllRev(s)
    ensures |r| == |s| && forall i :: 0 <= i < |s| ==> r[i] == Rev(s[i]).value
  {
    seq(|s|, i requires 0 <= i < |s| => Rev(s[i]).value)
  }

  function Verified(hrp: string, values: Data): Option<Encoding> {
    var check := PolyMod(Expanded(hrp) + values);
    if check == EncodingConstant(BECH32) then Some(BECH32)
    else if check == EncodingConstant(BECH32M) then Some(BECH32M)
    else None
  }

  ghost function Decoded(s: string): Option<Decoding> {
    var pos := LastOne(s);
    if !Acceptable(s) || |s| > 90 || pos <= 0 || pos + 7 > |s| || !AllRev(s[pos + 1..]) then None else
    var values, hrp := Values(s[pos + 1..]), Lower(s[..pos]);
    match Verified(hrp, values)
    case None => None
    case Some(e) => Some(Decoding(e, hrp, values[..|values| - 6]))
  }

  // ---------- Inverses ----------

  lemma ExpandedFives(hrp: string)
    ensures Fives(Expanded(hrp))
  {
    hide High, Low;
    var r, n := Expanded(hrp), |hrp|;
    forall i | 0 <= i < |r| ensures r[i] < 32 {
      if i < n {
        HighLow(hrp[i]);
      } else if i > n {
        assert r[i] == Low(hrp[i - n - 1]);
        HighLow(hrp[i - n - 1]);
      }
    }
  }

  lemma HighLow(c: char)
    ensures High(c) < 32 && Low(c) < 32
  {
  }

  lemma ConstantsFit(e: Encoding)
    ensures EncodingConstant(e) < LIMIT
  {
  }

  /** The checksum is what makes the text verify, and nothing else does. */
  lemma {:induction false} ChecksumIff(e: Encoding, hrp: string, values: Data, six: Data)
    requires Fives(values) && Fives(six) && |six| == 6
    ensures Verified(hrp, values + six) == Some(e) <==> six == Checksum(e, hrp, values)
  {
    hide PolyMod, Groups, Expanded;
    ExpandedFives(hrp);
    ConstantsFit(e);
    ChecksumUnique(Expanded(hrp) + values, six, EncodingConstant(e));
    assert Expanded(hrp) + (values + six) == Expanded(hrp) + values + six;
  }

  lemma {:induction false} ChecksumFives(e: Encoding, hrp: string, values: Data)
    requires Fives(values)
    ensures Fives(Checksum(e, hrp, values)) && |Checksum(e, hrp, values)| == 6
  {
    hide Fold, Xor, Expanded, Last, Drop, Pack;
    ExpandedFives(hrp);
    ConstantsFit(e);
    var all := Expanded(hrp) + values + [0, 0, 0, 0, 0, 0];
    FoldBound(1, all);
    XorBound(PolyMod(all), EncodingConstant(e));
    PackOfGroups(Xor(PolyMod(all), EncodingConstant(e)));
  }

  /** A human-readable part the encoder accepts and the decoder can return. */
  ghost predicate Legal(hrp: string) {
    |hrp| > 0 && forall i :: 0 <= i < |hrp| ==> Printable(hrp[i]) && !IsUpper(hrp[i])
  }

  lemma {:induction false} EncodedText(hrp: string, v: Data)
    requires Legal(hrp) && Fives(v)
    ensures var s := hrp + ['1'] + Spelled(v);
      && Acceptable(s) && LastOne(s) == |hrp| && s[|hrp| + 1..] == Spelled(v) && s[..|hrp|] == hrp && Lower(hrp) == hrp
      && AllRev(Spelled(v)) && Values(Spelled(v)) == v
  {
    hide CharOf, RevLower, LastOne;
    var s := hrp + ['1'] + Spelled(v);
    forall i | 0 <= i < |v|
      ensures Spelled(v)[i] != '1' && !IsUpper(Spelled(v)[i]) && Printable(Spelled(v)[i])
      ensures Rev(Spelled(v)[i]) == Some(v[i])
    {
      RevChar(v[i]);
    }
    forall i | 0 <= i < |s| ensures Printable(s[i]) && !IsUpper(s[i]) && (i > |hrp| ==> s[i] != '1') {
      if i > |hrp| { assert s[i] == Spelled(v)[i - |hrp| - 1]; }
    }
    assert s[LastOne(s)] == '1' by { assert s[|hrp|] == '1'; }
  }

  /** Whatever is encoded is decoded to itself. */
  lemma {:induction false} DecodeEncode(e: Encoding, hrp: string, values: Data)
    requires Legal(hrp) && Fives(values) && |hrp| + 7 + |values| <= 90
    ensures Decoded(Encoded(e, hrp, values)) == Some(Decoding(e, hrp, values))
  {
    hide Verified, Checksum, Spelled, LastOne, Lower, Acceptable, AllRev, Values;
    var six := Checksum(e, hrp, values);
    ChecksumFives(e, hrp, values);
    EncodedText(hrp, values + six);
    ChecksumIff(e, hrp, values, six);
    assert (values + six)[..|values + six| - 6] == values;
  }

  lemma {:induction false} ValuesBack(s: string)
    requires AllRev(s)
    ensures Fives(Values(s)) && Spelled(Values(s)) == Lower(s)
  {
    hide CharOf, RevLower, LowerCase;
    forall i | 0 <= i < |s| ensures Values(s)[i] < 32 && CharOf(Values(s)[i]) == LowerCase(s[i]) { CharRev(LowerCase(s[i])); }
  }

  lemma LowerSplit(s: string, pos: nat)
    requires pos < |s| && s[pos] == '1'
    ensures Lower(s) == Lower(s[..pos]) + ['1'] + Lower(s[pos + 1..])
  {
  }

  /** Whatever is decoded is the encoding of the result, up to case. */
  lemma {:induction false} EncodeDecode(s: string)
    requires Decoded(s).Some?
    ensures var d := Decoded(s).value; Encoded(d.encoding, d.hrp, d.values) == Lower(s)
    ensures var d := Decoded(s).value; Legal(d.hrp) && Fives(d.values)
  {
    hide Verified, Checksum, LastOne, Acceptable, Spelled, Lower, Values, AllRev, Legal;
    var pos := LastOne(s);
    var d, v := Decoded(s).value, Values(s[pos + 1..]);
    ValuesBack(s[pos + 1..]);
    var six := v[|v| - 6..];
    assert v == d.values + six;
    ChecksumIff(d.encoding, d.hrp, d.values, six);
    LowerSplit(s, pos);
    LegalLower(s, pos);
  }

  lemma LegalLower(s: string, pos: nat)
    requires Acceptable(s) && 0 < pos <= |s|
    ensures Legal(Lower(s[..pos]))
  {
  }

  /** A change within six consecutive values never verifies as the same encoding. */
  lemma {:induction false} ErrorDetected(hrp: string, p: Data, x: Data, y: Data, q: Data, e: Encoding)
    requires Fives(p) && Fives(x) && Fives(y) && Fives(q) && |x| == |y| <= 6 && x != y
    requires Verified(hrp, p + x + q) == Some(e)
    ensures Verified(hrp, p + y + q) != Some(e)
  {
    hide PolyMod, Expanded;
    ExpandedFives(hrp);
    BurstDetected(Expanded(hrp) + p, x, y, q);
    assert Expanded(hrp) + (p + x + q) == Expanded(hrp) + p + x + q;
    assert Expanded(hrp) + (p + y + q) == Expanded(hrp) + p + y + q;
  }

  /** Neither does any change of up to three values, wherever they are. */
  lemma {:induction false} FewErrorsRejected(hrp: string, v: Data, w: Data, e: Encoding)
    requires Fives(v) && Fives(w) && |v| == |w| <= 1023 && v != w && |Changed(v, w)| <= 3
    requires Verified(hrp, v) == Some(e)
    ensures Verified(hrp, w) != Some(e)
  {
    hide PolyMod, Expanded, Changed;
    ExpandedFives(hrp);
    FewErrorsAfter(Expanded(hrp), v, w);
  }

  /** Two texts of the same length and prefix, both accepted in the same encoding, are the same but for case or
      differ in at least four values. */
  lemma {:induction false} AcceptedDiffer(s: string, t: string)
    requires Decoded(s).Some? && Decoded(t).Some? && |s| == |t|
    requires Decoded(s).value.encoding == Decoded(t).value.encoding && Decoded(s).value.hrp == Decoded(t).value.hrp
    ensures var p := |Decoded(s).value.hrp| + 1;
      && p <= |s| && AllRev(s[p..]) && AllRev(t[p..])
      && (Lower(s) == Lower(t) || |Changed(Values(s[p..]), Values(t[p..]))| >= 4)
  {
    hide Verified, Checksum, LastOne, Acceptable, Spelled, Lower, Values, AllRev, Changed;
    var a, b, p := Decoded(s).value, Decoded(t).value, LastOne(s) + 1;
    assert |a.hrp| == LastOne(s) == LastOne(t);
    EncodeDecode(s);
    EncodeDecode(t);
    ValuesBack(s[p..]);
    ValuesBack(t[p..]);
    var v, w := Values(s[p..]), Values(t[p..]);
    if v != w && |Changed(v, w)| <= 3 { FewErrorsRejected(a.hrp, v, w, a.encoding); }
  }

  // ---------- The code ----------

  method ComputePolyMod(v: Data) returns (c: bv32)
    ensures c == PolyMod(v)
  {
    hide Reduce, Shifted, Top, Xor, Bit0, Bit1, Bit2, Bit3, Bit4;
    c := 1;
    for i := 0 to |v|
      invariant Fold(1, v) == Fold(c, v[i..])
    {
      var c0 := Top(c);
      assert v[i..][1..] == v[i + 1..];
      c := Reduce(Xor(Shifted(c), v[i]), Bit0(c0), Bit1(c0), Bit2(c0), Bit3(c0), Bit4(c0));
    }
  }

  method ExpandHRP(hrp: string) returns (ret: Data)
    ensures ret == Expanded(hrp)
  {
    hide High, Low;
    var a := new bv32[2 * |hrp| + 1](_ => 0);
    for i := 0 to |hrp|
      invariant forall j :: 0 <= j < i ==> a[j] == High(hrp[j]) && a[j + |hrp| + 1] == Low(hrp[j])
      invariant a[|hrp|] == 0
    {
      a[i] := High(hrp[i]);
      a[i + |hrp| + 1] := Low(hrp[i]);
    }
    ret := a[..];
    ExpandedIs(hrp, ret);
  }

  lemma {:induction false} ExpandedIs(hrp: string, r: Data)
    requires |r| == 2 * |hrp| + 1 && r[|hrp|] == 0
    requires forall i :: 0 <= i < |hrp| ==> r[i] == High(hrp[i]) && r[i + |hrp| + 1] == Low(hrp[i])
    ensures r == Expanded(hrp)
  {
    hide High, Low;
    var e, n := Expanded(hrp), |hrp|;
    forall i | 0 <= i < |r| ensures r[i] == e[i] {
      if i > n {
        var j := i - n - 1;
        assert r[j + n + 1] == e[j + n + 1];
      }
    }
  }

  /** Collects the indexes of bad characters; there are none exactly for acceptable text. */
  method CheckCharacters(s: string) returns (errors: seq<nat>)
    ensures errors == [] <==> Acceptable(s)
  {
    var lower, upper := false, false;
    errors := [];
    for i := 0 to |s|
      invariant errors == [] ==> (lower <==> exists j :: 0 <= j < i && IsLower(s[j]))
      invariant errors == [] ==> (upper <==> exists j :: 0 <= j < i && IsUpper(s[j]))
      invariant errors == [] <==> Acceptable(s[..i])
      invariant !(lower && upper)
    {
      AcceptableNext(s, i);
      if IsLower(s[i]) {
        if upper {
          errors := errors + [i];
        } else {
          lower := true;
        }
      } else if IsUpper(s[i]) {
        if lower {
          errors := errors + [i];
        } else {
          upper := true;
        }
      } else if !Printable(s[i]) {
        errors := errors + [i];
      }
    }
    assert s[..|s|] == s;
  }

  lemma {:induction false} AcceptableNext(s: string, i: nat)
    requires i < |s|
    ensures Acceptable(s[..i + 1]) <==>
      && Acceptable(s[..i]) && Printable(s[i])
      && (IsLower(s[i]) ==> !exists j :: 0 <= j < i && IsUpper(s[j]))
      && (IsUpper(s[i]) ==> !exists j :: 0 <= j < i && IsLower(s[j]))
  {
    var t, u := s[..i + 1], s[..i];
    assert forall j :: 0 <= j < i ==> t[j] == s[j] && u[j] == s[j];
    assert t[i] == s[i];
  }

  method VerifyChecksum(hrp: string, values: Data) returns (r: Option<Encoding>)
    ensures r == Verified(hrp, values)
  {
    hide Expanded, PolyMod;
    var expanded := ExpandHRP(hrp);
    var check := ComputePolyMod(expanded + values);
    if check == EncodingConstant(BECH32) {
      return Some(BECH32);
    }
    if check == EncodingConstant(BECH32M) {
      return Some(BECH32M);
    }
    r := None;
  }

  method CreateChecksum(e: Encoding, hrp: string, values: Data) returns (ret: Data)
    ensures ret == Checksum(e, hrp, values)
  {
    hide Expanded, PolyMod, Groups, Xor;
    var enc := ExpandHRP(hrp);
    var check := ComputePolyMod(enc + values + [0, 0, 0, 0, 0, 0]);
    var mod := Xor(check, EncodingConstant(e));
    GroupShifts(mod);
    ret := [(mod >> 25) & 31, (mod >> 20) & 31, (mod >> 15) & 31, (mod >> 10) & 31, (mod >> 5) & 31, mod & 31];
  }

  lemma GroupShifts(mod: bv32)
    ensures Groups(mod) == [(mod >> 25) & 31, (mod >> 20) & 31, (mod >> 15) & 31, (mod >> 10) & 31, (mod >> 5) & 31, mod & 31]
  {
    Shift10(mod);
    Shift15(mod);
    Shift20(mod);
    Shift25(mod);
  }

  lemma Shift10(m: bv32)
    ensures Last(Drop(Drop(m))) == (m >> 10) & 31
  {
  }

  lemma Shift15(m: bv32)
    ensures Last(Drop(Drop(Drop(m)))) == (m >> 15) & 31
  {
  }

  lemma Shift20(m: bv32)
    ensures Last(Drop(Drop(Drop(Drop(m))))) == (m >> 20) & 31
  {
  }

  lemma Shift25(m: bv32)
    ensures Last(Drop(Drop(Drop(Drop(Drop(m)))))) == (m >> 25) & 31
  {
  }

  method Encode(e: Encoding, hrp: string, values: Data) returns (ret: string)
    requires (forall i :: 0 <= i < |hrp| ==> !IsUpper(hrp[i])) && Fives(values)
    ensures ret == Encoded(e, hrp, values)
  {
    hide Checksum, CharOf;
    var checksum := CreateChecksum(e, hrp, values);
    var combined := values + checksum;
    ret := hrp + ['1'];
    for i := 0 to |combined|
      invariant ret == hrp + ['1'] + Spelled(combined[..i])
    {
      assert Spelled(combined[..i + 1]) == Spelled(combined[..i]) + [CharOf(combined[i])];
      ret := ret + [CharOf(combined[i])];
    }
    assert combined[..|combined|] == combined;
  }

  method RFindOne(s: string) returns (pos: int)
    ensures pos == LastOne(s)
  {
    pos := |s| - 1;
    while pos >= 0 && s[pos] != '1'
      invariant -1 <= pos < |s| && forall i :: pos < i < |s| ==> s[i] != '1'
    {
      pos := pos - 1;
    }
    assert LastOne(s) == pos;
  }

  /** Decodes exactly what the reference decodes. */
  method Decode(s: string) returns (r: Option<Decoding>)
    ensures r == Decoded(s)
  {
    hide Acceptable, RevLower, LowerCase, Verified;
    var errors := CheckCharacters(s);
    if errors != [] {
      return None;
    }
    var pos := RFindOne(s);
    if |s| > 90 || pos <= 0 || pos + 7 > |s| {
      return None;
    }
    var values := [];
    for i := pos + 1 to |s|
      invariant AllRev(s[pos + 1..i]) && values == Values(s[pos + 1..i])
    {
      var rev := Rev(s[i]);
      if rev.None? {
        assert s[pos + 1..][i - pos - 1] == s[i];
        return None;
      }
      assert s[pos + 1..i + 1] == s[pos + 1..i] + [s[i]];
      values := values + [rev.value];
    }
    assert s[pos + 1..|s|] == s[pos + 1..];
    var hrp := [];
    for i := 0 to pos
      invariant hrp == Lower(s[..i])
    {
      assert s[..i + 1] == s[..i] + [s[i]];
      hrp := hrp + [LowerCase(s[i])];
    }
    var result := VerifyChecksum(hrp, values);
    if result.None? {
      return None;
    }
    r := Some(Decoding(result.value, hrp, values[..|values| - 6]));
  }
}
