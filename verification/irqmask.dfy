/** The IRQ affinity mask (internal/runtimehandlerhooks/utils_linux.go): a set of CPUs written in
    hexadecimal, most significant digit first, in comma-separated groups of eight. */
module IrqMask {
  import opened Sequences

  type Byte = bv8

  /** byte(1 << c) */
  function MaskByte(c: nat): Byte
    requires c < 8
  {
    if c == 0 then 1 else if c == 1 then 2 else if c == 2 then 4 else if c == 3 then 8
    else if c == 4 then 16 else if c == 5 then 32 else if c == 6 then 64 else 128
  }

  predicate BitOf(b: Byte, c: nat)
    requires c < 8
  {
    b & MaskByte(c) != 0
  }

  predicate IsHex(c: char) {
    '0' <= c <= '9' || 'a' <= c <= 'f' || 'A' <= c <= 'F'
  }

  predicate IsLowerHex(c: char) {
    '0' <= c <= '9' || 'a' <= c <= 'f'
  }

  function HexValue(c: char): (v: Byte)
    ensures v < 16
  {
    match c
    case '1' => 1 case '2' => 2 case '3' => 3 case '4' => 4 case '5' => 5 case '6' => 6 case '7' => 7 case '8' => 8 case '9' => 9
    case 'a' => 10 case 'b' => 11 case 'c' => 12 case 'd' => 13 case 'e' => 14 case 'f' => 15
    case 'A' => 10 case 'B' => 11 case 'C' => 12 case 'D' => 13 case 'E' => 14 case 'F' => 15
    case _ => 0
  }

  function HexDigit(v: Byte): (c: char)
    ensures IsLowerHex(c)
    ensures v < 16 ==> HexValue(c) == v
  {
    if v == 0 then '0' else if v == 1 then '1' else if v == 2 then '2' else if v == 3 then '3'
    else if v == 4 then '4' else if v == 5 then '5' else if v == 6 then '6' else if v == 7 then '7'
    else if v == 8 then '8' else if v == 9 then '9' else if v == 10 then 'a' else if v == 11 then 'b'
    else if v == 12 then 'c' else if v == 13 then 'd' else if v == 14 then 'e' else 'f'
  }

  /** What a mask without commas means: each digit stands for four CPUs, the last one for
      CPUs 0 to 3, and CPUs beyond the first digit are not in the set. */
  predicate InMask(digits: string, cpu: nat) {
    cpu / 4 < |digits| && BitOf(HexValue(digits[|digits| - 1 - cpu / 4]), cpu % 4)
  }

  /** The same for a byte array, byte 0 holding CPUs 0 to 7. */
  predicate InBytes(b: seq<Byte>, cpu: nat) {
    cpu / 8 < |b| && BitOf(b[cpu / 8], cpu % 8)
  }

  // ---- bits ----

  lemma SetBit(b: Byte, c: nat, d: nat)
    requires c < 8 && d < 8
    ensures BitOf(b | MaskByte(c), d) <==> BitOf(b, d) || c == d
  {
  }

  lemma ClearBit(b: Byte, c: nat, d: nat)
    requires c < 8 && d < 8
    ensures BitOf(b & !MaskByte(c), d) <==> BitOf(b, d) && c != d
  {
  }

  lemma InvertedBit(b: Byte, d: nat)
    requires d < 8
    ensures BitOf(Complement(b), d) <==> !BitOf(b, d)
  {
  }

  function Pair(hi: Byte, lo: Byte): Byte {
    (hi << 4) | lo
  }

  lemma PairBit(hi: Byte, lo: Byte, d: nat)
    requires hi < 16 && lo < 16 && d < 8
    ensures BitOf(Pair(hi, lo), d) <==> if d < 4 then BitOf(lo, d) else BitOf(hi, d - 4)
  {
  }

  function High(b: Byte): (r: Byte)
    ensures r < 16
  {
    b >> 4
  }

  function Low(b: Byte): (r: Byte)
    ensures r < 16
  {
    b & 0xf
  }

  function Complement(b: Byte): Byte {
    0xff - b
  }

  lemma HalvesBit(b: Byte, d: nat)
    requires d < 8
    ensures BitOf(b, d) <==> if d < 4 then BitOf(Low(b), d) else BitOf(High(b), d - 4)
  {
  }

  // ---- from digits to bytes and back ----

  function Padded(h: string): string {
    if |h| % 2 != 0 then "0" + h else h
  }

  /** hex.DecodeString */
  function Decoded(p: string): (r: seq<Byte>)
    requires |p| % 2 == 0
    ensures |r| == |p| / 2
  {
    seq(|p| / 2, i requires 0 <= i < |p| / 2 => Pair(HexValue(p[2 * i]), HexValue(p[2 * i + 1])))
  }

  /** mapHexCharToByte */
  function BytesOf(h: string): (r: seq<Byte>)
    ensures |r| == (|h| + 1) / 2
  {
    Reversed(Decoded(Padded(h)))
  }

  lemma PaddedMeans(h: string, c: nat)
    ensures InMask(Padded(h), c) <==> InMask(h, c)
  {
    if |h| % 2 != 0 {
      var p := Padded(h);
      assert forall i :: 0 <= i < |h| ==> p[i + 1] == h[i];
      if c / 4 == |h| {
        assert p[0] == '0';
        ZeroHasNoBits(c % 4);
      } else if c / 4 < |h| {
        assert p[|p| - 1 - c / 4] == h[|h| - 1 - c / 4];
      }
    }
  }

  lemma ZeroHasNoBits(d: nat)
    requires d < 8
    ensures !BitOf(0, d)
  {
  }

  lemma NibblePosition(n: nat, c: nat)
    requires c / 8 < n
    ensures var i := n - 1 - c / 8;
            0 <= i < n && (if c % 8 < 4 then 2 * i + 1 else 2 * i) == 2 * n - 1 - c / 4 && c % 4 == (if c % 8 < 4 then c % 8 else c % 8 - 4)
  {
  }

  /** The bit of one of the eight CPUs written as two digits. */
  predicate InPair(hi: char, lo: char, d: nat)
    requires d < 8
  {
    if d < 4 then BitOf(HexValue(lo), d) else BitOf(HexValue(hi), d - 4)
  }

  /** A text of two digits for each byte, the last byte first, denotes the CPUs of the bytes. */
  lemma PairsMean(digits: string, b: seq<Byte>, c: nat)
    requires |digits| == 2 * |b|
    requires var i := |b| - 1 - c / 8; i >= 0 ==> (BitOf(b[c / 8], c % 8) <==> InPair(digits[2 * i], digits[2 * i + 1], c % 8))
    ensures InMask(digits, c) <==> InBytes(b, c)
  {
    if c / 8 < |b| {
      NibblePosition(|b|, c);
    }
  }

  lemma BytesMean(h: string, c: nat)
    ensures InBytes(BytesOf(h), c) <==> InMask(h, c)
  {
    PaddedMeans(h, c);
    DecodedMeans(Padded(h), c);
  }

  lemma DecodedMeans(p: string, c: nat)
    requires |p| % 2 == 0
    ensures InBytes(Reversed(Decoded(p)), c) <==> InMask(p, c)
  {
    if c / 8 < |p| / 2 {
      DecodedAt(p, |p| / 2 - 1 - c / 8, c % 8);
    }
    PairsMean(p, Reversed(Decoded(p)), c);
  }

  lemma DecodedAt(p: string, i: nat, d: nat)
    requires |p| % 2 == 0 && i < |p| / 2 && d < 8
    ensures BitOf(Decoded(p)[i], d) <==> InPair(p[2 * i], p[2 * i + 1], d)
  {
    PairBit(HexValue(p[2 * i]), HexValue(p[2 * i + 1]), d);
  }

  function Zeros(n: nat): seq<Byte> {
    seq(n, i requires 0 <= i < n => 0 as Byte)
  }

  function Fill(n: nat): nat {
    if n % 4 != 0 then 4 - n % 4 else 0
  }

  function Aligned(b: seq<Byte>): (r: seq<Byte>)
    ensures |r| % 4 == 0
  {
    b + Zeros(Fill(|b|))
  }

  /** hex.EncodeToString */
  function Encoded(b: seq<Byte>): (r: string)
    ensures |r| == 2 * |b| && forall k :: 0 <= k < |r| ==> IsLowerHex(r[k])
  {
    seq(2 * |b|, k requires 0 <= k < 2 * |b| => HexDigit(if k % 2 == 0 then High(b[k / 2]) else Low(b[k / 2])))
  }

  /** mapByteToHexChar: padded to a multiple of four bytes. */
  function HexOf(b: seq<Byte>): (r: string)
    ensures |r| % 8 == 0 && |r| == 2 * |Aligned(b)| && forall k :: 0 <= k < |r| ==> IsLowerHex(r[k])
  {
    Encoded(Reversed(Aligned(b)))
  }

  lemma AlignedMeans(b: seq<Byte>, c: nat)
    ensures InBytes(Aligned(b), c) <==> InBytes(b, c)
  {
    if |b| <= c / 8 < |Aligned(b)| {
      assert Aligned(b)[c / 8] == 0;
      ZeroHasNoBits(c % 8);
    }
  }

  lemma EncodedAt(b: seq<Byte>, i: nat, d: nat)
    requires i < |b| && d < 8
    ensures BitOf(b[i], d) <==> InPair(Encoded(b)[2 * i], Encoded(b)[2 * i + 1], d)
  {
    HalvesBit(b[i], d);
    assert (2 * i) / 2 == i && (2 * i + 1) / 2 == i;
  }

  lemma HexMeans(b: seq<Byte>, c: nat)
    ensures InMask(HexOf(b), c) <==> InBytes(b, c)
  {
    AlignedMeans(b, c);
    EncodedMeans(Aligned(b), c);
  }

  lemma {:induction false} EncodedMeans(a: seq<Byte>, c: nat)
    ensures InMask(Encoded(Reversed(a)), c) <==> InBytes(a, c)
  {
    if c / 8 < |a| {
      EncodedAt(Reversed(a), |a| - 1 - c / 8, c % 8);
    }
    PairsMean(Encoded(Reversed(a)), a, c);
  }

  // ---- setting and clearing CPUs ----

  ghost predicate Within(cpus: seq<nat>, n: nat) {
    forall i :: 0 <= i < |cpus| ==> cpus[i] / 8 < n
  }

  function MarkByte(b: Byte, d: nat, on: bool): Byte
    requires d < 8
  {
    if on then b | MaskByte(d) else b & !MaskByte(d)
  }

  function Mark(b: seq<Byte>, cpu: nat, on: bool): seq<Byte>
    requires cpu / 8 < |b|
  {
    b[cpu / 8 := MarkByte(b[cpu / 8], cpu % 8, on)]
  }

  ghost function Marked(b: seq<Byte>, cpus: seq<nat>, on: bool): (r: seq<Byte>)
    requires Within(cpus, |b|)
    ensures |r| == |b|
  {
    if cpus == [] then b
    else Mark(Marked(b, cpus[..|cpus| - 1], on), cpus[|cpus| - 1], on)
  }

  lemma MarkByteMeans(b: Byte, d: nat, on: bool, e: nat)
    requires d < 8 && e < 8
    ensures BitOf(MarkByte(b, d, on), e) <==> if on then BitOf(b, e) || e == d else BitOf(b, e) && e != d
  {
    SetBit(b, d, e);
    ClearBit(b, d, e);
  }

  lemma MarkMeans(b: seq<Byte>, cpu: nat, on: bool, c: nat)
    requires cpu / 8 < |b|
    ensures InBytes(Mark(b, cpu, on), c) <==> if on then InBytes(b, c) || c == cpu else InBytes(b, c) && c != cpu
  {
    if c / 8 == cpu / 8 {
      MarkByteMeans(b[cpu / 8], cpu % 8, on, c % 8);
      assert c == cpu <==> c % 8 == cpu % 8;
    }
  }

  lemma {:induction false} MarkedMeans(b: seq<Byte>, cpus: seq<nat>, on: bool, c: nat)
    requires Within(cpus, |b|)
    ensures InBytes(Marked(b, cpus, on), c) <==> if on then InBytes(b, c) || c in cpus else InBytes(b, c) && c !in cpus
  {
    if cpus != [] {
      var last, rest := cpus[|cpus| - 1], cpus[..|cpus| - 1];
      MarkedMeans(b, rest, on, c);
      MarkMeans(Marked(b, rest, on), last, on, c);
      assert cpus == rest + [last];
    }
  }

  function Inverted(b: seq<Byte>): (r: seq<Byte>)
    ensures |r| == |b|
  {
    seq(|b|, i requires 0 <= i < |b| => Complement(b[i]))
  }

  lemma InvertedMeans(b: seq<Byte>, c: nat)
    ensures InBytes(Inverted(b), c) <==> c / 8 < |b| && !InBytes(b, c)
  {
    if c / 8 < |b| {
      InvertedBit(b[c / 8], c % 8);
    }
  }

  // ---- commas ----

  /** strings.ReplaceAll(s, ",", "") */
  function Strip(s: string): string {
    if s == "" then "" else (if s[0] == ',' then "" else [s[0]]) + Strip(s[1..])
  }

  function Commas(s: string): string {
    if |s| <= 8 then s else s[..8] + "," + Commas(s[8..])
  }

  /** Groups of eight lower-case digits separated by single commas. */
  predicate Grouped(s: string) {
    |s| % 9 == 8 && forall i :: 0 <= i < |s| ==> if i % 9 == 8 then s[i] == ',' else IsLowerHex(s[i])
  }

  lemma {:induction false} StripConcat(a: string, b: string)
    ensures Strip(a + b) == Strip(a) + Strip(b)
  {
    if a == "" {
      assert a + b == b;
    } else {
      assert (a + b)[1..] == a[1..] + b;
      StripConcat(a[1..], b);
    }
  }

  lemma {:induction false} StripPlain(s: string)
    requires ',' !in s
    ensures Strip(s) == s
  {
    if s != "" {
      StripPlain(s[1..]);
    }
  }

  lemma {:induction false} CommasStripped(s: string)
    requires ',' !in s
    ensures Strip(Commas(s)) == s
    decreases |s|
  {
    if |s| <= 8 {
      StripPlain(s);
    } else {
      CommasStripped(s[8..]);
      StripConcat(s[..8] + ",", Commas(s[8..]));
      StripConcat(s[..8], ",");
      StripPlain(s[..8]);
      assert Strip(",") == "" + Strip(""[..]);
      assert s[..8] + s[8..] == s;
    }
  }

  lemma {:induction false} CommasGrouped(s: string)
    requires |s| > 0 && |s| % 8 == 0 && forall i :: 0 <= i < |s| ==> IsLowerHex(s[i])
    ensures Grouped(Commas(s))
    decreases |s|
  {
    if |s| > 8 {
      var t := Commas(s[8..]);
      CommasGrouped(s[8..]);
      var r := Commas(s);
      assert r == s[..8] + "," + t;
      forall i | 0 <= i < |r|
        ensures if i % 9 == 8 then r[i] == ',' else IsLowerHex(r[i])
      {
        if i >= 9 {
          assert r[i] == t[i - 9] && (i - 9) % 9 == i % 9;
        }
      }
    }
  }

  // ---- the update ----

  datatype Result<T> = Ok(value: T) | Err

  predicate AllHex(s: string) {
    forall i :: 0 <= i < |s| ==> IsHex(s[i])
  }

  /** The new mask. */
  ghost function NewMask(cpus: seq<nat>, current: string, on: bool): string
    requires Within(cpus, (|Strip(current)| + 1) / 2)
  {
    Commas(HexOf(Marked(BytesOf(Strip(current)), cpus, on)))
  }

  /** The mask of banned CPUs. */
  ghost function NewBanned(cpus: seq<nat>, current: string, on: bool): string
    requires Within(cpus, (|Strip(current)| + 1) / 2)
  {
    Commas(HexOf(Marked(Inverted(BytesOf(Strip(current))), cpus, !on)))
  }

  lemma NoCommas(s: string)
    requires forall i :: 0 <= i < |s| ==> IsLowerHex(s[i])
    ensures ',' !in s
  {
  }

  lemma MaskText(b: seq<Byte>)
    requires |b| > 0
    ensures Grouped(Commas(HexOf(b))) && Strip(Commas(HexOf(b))) == HexOf(b) && AllHex(HexOf(b)) && HexOf(b) != ""
  {
    NoCommas(HexOf(b));
    CommasStripped(HexOf(b));
    CommasGrouped(HexOf(b));
  }

  /** The first output is the old set with the CPUs added or taken away; the second is its exact
      complement over the CPUs of the input's bytes. Both are well formed, and bits that only
      pad to 32 are zero in both. */
  lemma {:induction false} UpdateMeans(cpus: seq<nat>, current: string, on: bool, c: nat)
    requires Strip(current) != "" && Within(cpus, (|Strip(current)| + 1) / 2)
    ensures var was, mask, banned := Strip(current), NewMask(cpus, current, on), NewBanned(cpus, current, on);
            && Grouped(mask) && Grouped(banned)
            && (InMask(Strip(mask), c) <==> if on then InMask(was, c) || c in cpus else InMask(was, c) && c !in cpus)
            && (InMask(Strip(banned), c) <==> c / 8 < (|was| + 1) / 2 && !InMask(Strip(mask), c))
  {
    var s := Strip(current);
    var b := BytesOf(s);
    BytesMean(s, c);
    MarkedMeans(b, cpus, on, c);
    MarkedMeans(Inverted(b), cpus, !on, c);
    InvertedMeans(b, c);
    HexMeans(Marked(b, cpus, on), c);
    HexMeans(Marked(Inverted(b), cpus, !on), c);
    MaskText(Marked(b, cpus, on));
    MaskText(Marked(Inverted(b), cpus, !on));
    if c in cpus {
      var i :| 0 <= i < |cpus| && cpus[i] == c;
    }
  }

  // ---- the methods ----

  method IsASCII(s: string) returns (r: bool)
    ensures r <==> forall i :: 0 <= i < |s| ==> s[i] <= '\U{7f}'
  {
    for i := 0 to |s|
      invariant forall k :: 0 <= k < i ==> s[k] <= '\U{7f}'
    {
      if s[i] > '\U{7f}' {
        return false;
      }
    }
    return true;
  }

  method MapHexCharToByte(h: string) returns (r: Result<seq<Byte>>)
    ensures r == if AllHex(h) then Ok(BytesOf(h)) else Err
  {
    var hexin := if |h| % 2 != 0 then "0" + h else h;
    PaddingIsHex(h);
    if !AllHex(hexin) {
      return Err;
    }
    var barray := ReverseBytes(Decoded(hexin));
    return Ok(barray);
  }

  /** The loop both conversions end with. */
  method ReverseBytes(b: seq<Byte>) returns (r: seq<Byte>)
    ensures r == Reversed(b)
  {
    r := [];
    var l := |b|;
    for i := 0 to l
      invariant |r| == i
      invariant forall k :: 0 <= k < i ==> r[k] == b[l - k - 1]
    {
      var rindex := l - i - 1;
      r := r + [b[rindex]];
    }
  }

  lemma PaddingIsHex(h: string)
    ensures AllHex(Padded(h)) <==> AllHex(h)
  {
    if |h| % 2 != 0 && AllHex(Padded(h)) {
      forall i | 0 <= i < |h|
        ensures IsHex(h[i])
      {
        assert Padded(h)[i + 1] == h[i];
      }
    }
  }

  method MapByteToHexChar(b: seq<Byte>) returns (r: string)
    ensures r == HexOf(b)
  {
    var l := |b|;
    var a := b;
    if l % 4 != 0 {
      var lfill := 4 - l % 4;
      for i := 0 to lfill
        invariant a == b + Zeros(i)
      {
        a := a + [0];
      }
    }
    assert a == Aligned(b);
    var breversed := ReverseBytes(a);
    return Encoded(breversed);
  }

  method InvertByteArray(input: seq<Byte>) returns (out: seq<Byte>)
    ensures out == Inverted(input)
  {
    out := [];
    for i := 0 to |input|
      invariant |out| == i
      invariant forall k :: 0 <= k < i ==> out[k] == Complement(input[k])
    {
      out := out + [Complement(input[i])];
    }
  }

  lemma {:induction false} OutsideAscii(s: string, i: nat)
    requires i < |s| && s[i] > '\U{7f}'
    ensures !AllHex(Strip(s))
  {
    if i > 0 {
      OutsideAscii(s[1..], i - 1);
      assert Strip(s) == (if s[0] == ',' then "" else [s[0]]) + Strip(s[1..]);
      var k :| 0 <= k < |Strip(s[1..])| && !IsHex(Strip(s[1..])[k]);
      assert Strip(s)[if s[0] == ',' then k else k + 1] == Strip(s[1..])[k];
    } else {
      assert Strip(s)[0] == s[0];
    }
  }

  lemma {:induction false} CommasAppend(s: string, t: string)
    requires |s| > 0 && |s| % 8 == 0 && |t| == 8
    ensures Commas(s + t) == Commas(s) + "," + t
    decreases |s|
  {
    if |s| == 8 {
      assert (s + t)[..8] == s && (s + t)[8..] == t;
    } else {
      assert (s + t)[..8] == s[..8] && (s + t)[8..] == s[8..] + t;
      CommasAppend(s[8..], t);
      assert s[..8] + "," + (Commas(s[8..]) + "," + t) == (s[..8] + "," + Commas(s[8..])) + "," + t;
    }
  }

  method UpdateIRQSmpAffinityMask(cpus: seq<nat>, current: string, on: bool) returns (r: Result<(string, string)>)
    requires AllHex(Strip(current)) ==> Strip(current) != "" && Within(cpus, (|Strip(current)| + 1) / 2)
    ensures AllHex(Strip(current)) ==> r == Ok((NewMask(cpus, current, on), NewBanned(cpus, current, on)))
    ensures !AllHex(Strip(current)) ==> r == Err
  {
    var ascii := IsASCII(current);
    if !ascii {
      ghost var i :| 0 <= i < |current| && current[i] > '\U{7f}';
      OutsideAscii(current, i);
      return Err;
    }
    var s := Strip(current);
    var decoded := MapHexCharToByte(s);
    if decoded.Err? {
      return Err;
    }
    var maskBytes, bannedBytes := MarkBytes(decoded.value, cpus, on);
    var mask := MapByteToHexChar(maskBytes);
    var banned := MapByteToHexChar(bannedBytes);
    var maskText, bannedText := GroupDigits(mask, banned);
    return Ok((maskText, bannedText));
  }

  /** The loop that puts commas into both masks. */
  method GroupDigits(mask: string, banned: string) returns (maskText: string, bannedText: string)
    requires |mask| == |banned| && |mask| > 0 && |mask| % 8 == 0
    ensures maskText == Commas(mask) && bannedText == Commas(banned)
  {
    maskText, bannedText := mask[0..8], banned[0..8];
    var i := 8;
    while i + 8 <= |mask|
      invariant 8 <= i <= |mask| && i % 8 == 0
      invariant maskText == Commas(mask[..i]) && bannedText == Commas(banned[..i])
    {
      CommasAppend(mask[..i], mask[i..i + 8]);
      CommasAppend(banned[..i], banned[i..i + 8]);
      assert mask[..i] + mask[i..i + 8] == mask[..i + 8] && banned[..i] + banned[i..i + 8] == banned[..i + 8];
      maskText := maskText + "," + mask[i..i + 8];
      bannedText := bannedText + "," + banned[i..i + 8];
      i := i + 8;
    }
    assert mask[..i] == mask && banned[..i] == banned;
  }

  /** The loop over the CPUs, on the two arrays it updates in place. */
  method MarkBytes(current: seq<Byte>, cpus: seq<nat>, on: bool) returns (mask: seq<Byte>, banned: seq<Byte>)
    requires Within(cpus, |current|)
    ensures mask == Marked(current, cpus, on) && banned == Marked(Inverted(current), cpus, !on)
  {
    var inverted := InvertByteArray(current);
    var maskArray := new Byte[|current|](i requires 0 <= i < |current| => current[i]);
    var invertedArray := new Byte[|current|](i requires 0 <= i < |current| => inverted[i]);
    assert maskArray[..] == current && invertedArray[..] == inverted;
    for i := 0 to |cpus|
      invariant maskArray[..] == Marked(current, cpus[..i], on)
      invariant invertedArray[..] == Marked(Inverted(current), cpus[..i], !on)
    {
      var cpu := cpus[i];
      assert cpus[..i + 1][..i] == cpus[..i];
      maskArray[cpu / 8] := MarkByte(maskArray[cpu / 8], cpu % 8, on);
      invertedArray[cpu / 8] := MarkByte(invertedArray[cpu / 8], cpu % 8, !on);
    }
    assert cpus[..|cpus|] == cpus;
    return maskArray[..], invertedArray[..];
  }
}
