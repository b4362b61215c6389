/**
 BlurHash packing: a size flag, a quantised maximum, one average colour and a list of
 quantised components, each in its own fixed width of base 83.
 Colour factors are reals. The two power functions of the encoder are parameters:
 `gamma` for v^(1/2.4), which keeps 0..1 within 0..1, and `root` for the square root.
 */
module BlurHash {
  import opened Base83
  import opened Basics

  datatype Rgb = Rgb(r: real, g: real, b: real)
  datatype Triple = Triple(r: int, g: int, b: int)

  /** What the encoder decided to write, before any digit is produced. */
  datatype Packed = Packed(cx: int, cy: int, quantMax: int, dc: Triple, acs: seq<Triple>)

  ghost predicate KeepsUnit(gamma: real -> real) {
    forall v :: 0.0 <= v <= 1.0 ==> 0.0 <= gamma(v) <= 1.0
  }

  // ----- quantisation -----

  /** A cast to u32 truncates towards zero and saturates. */
  function SaturatingU32(x: real): (n: int)
    ensures 0 <= n < U32_LIMIT
    ensures 0.0 <= x < U32_LIMIT as real ==> n == x.Floor
  {
    if x < 0.0 then 0 else if x >= U32_LIMIT as real then U32_LIMIT - 1 else x.Floor
  }

  function Clamp(n: int, low: int, high: int): int {
    if n < low then low else if n > high then high else n
  }

  function Abs(x: real): real {
    if x < 0.0 then -x else x
  }

  function LargestOf(f: Rgb): real {
    Max(Max(Abs(f.r), Abs(f.g)), Abs(f.b))
  }

  function MaxComponent(factors: seq<Rgb>): real {
    if factors == [] then 0.0 else Max(MaxComponent(factors[..|factors| - 1]), LargestOf(factors[|factors| - 1]))
  }

  /** No component of any factor exceeds `most` in size, and one has it, or there is none but 0. */
  ghost predicate IsLargest(factors: seq<Rgb>, most: real) {
    && (forall f :: f in factors ==>
         && -most <= f.r <= most
         && -most <= f.g <= most
         && -most <= f.b <= most)
    && (most == 0.0 || exists f :: f in factors && (HasComponent(f, most) || HasComponent(f, -most)))
  }

  predicate HasComponent(f: Rgb, c: real) {
    f.r == c || f.g == c || f.b == c
  }

  lemma OwnComponent(f: Rgb)
    ensures HasComponent(f, LargestOf(f)) || HasComponent(f, -LargestOf(f))
    ensures LargestOf(f) >= 0.0
  {
  }

  lemma LargestNext(factors: seq<Rgb>, most: real, f: Rgb)
    requires IsLargest(factors, most) && most >= 0.0
    ensures IsLargest(factors + [f], Max(most, LargestOf(f)))
  {
    var more := factors + [f];
    OwnComponent(f);
    if most < LargestOf(f) {
      assert f in more;
    } else if most != 0.0 {
      var g :| g in factors && (HasComponent(g, most) || HasComponent(g, -most));
      assert g in more;
    }
  }

  lemma {:induction false} MaxIsLargest(factors: seq<Rgb>)
    ensures MaxComponent(factors) >= 0.0 && IsLargest(factors, MaxComponent(factors))
  {
    if factors != [] {
      var init, last := factors[..|factors| - 1], factors[|factors| - 1];
      assert factors == init + [last];
      MaxIsLargest(init);
      OwnComponent(last);
      LargestNext(init, MaxComponent(init), last);
    }
  }

  function QuantiseMax(maxAc: real): int {
    if maxAc > 0.0 then Clamp(SaturatingU32((maxAc * 166.0 - 0.5).Floor as real), 0, 82) else 0
  }

  function RealMax(quantMax: int): (m: real)
    requires 0 <= quantMax
    ensures m > 0.0
  {
    if quantMax == 0 then 1.0 else (quantMax as real + 1.0) / 167.0
  }

  function LinearToSrgb(value: real, gamma: real -> real): int {
    var v := Unit(value);
    var s := if v <= 0.0031308 then v * 12.92 else 1.055 * gamma(v) - 0.055;
    SaturatingU32(s * 255.0 + 0.5)
  }

  function SignRoot(value: real, root: real -> real): real {
    if value < 0.0 then -root(-value) else root(value)
  }

  function QuantiseAc(value: real, maxAc: real, root: real -> real): int
    requires maxAc > 0.0
  {
    Clamp(SaturatingU32((SignRoot(value / maxAc, root) * 9.0 + 9.5).Floor as real), 0, 18)
  }

  function QuantiseDc(f: Rgb, gamma: real -> real): Triple {
    Triple(LinearToSrgb(f.r, gamma), LinearToSrgb(f.g, gamma), LinearToSrgb(f.b, gamma))
  }

  function QuantiseFactor(f: Rgb, quantMax: int, root: real -> real): Triple
    requires 0 <= quantMax
  {
    var m := RealMax(quantMax);
    Triple(QuantiseAc(f.r, m, root), QuantiseAc(f.g, m, root), QuantiseAc(f.b, m, root))
  }

  function QuantiseFactors(factors: seq<Rgb>, quantMax: int, root: real -> real): (acs: seq<Triple>)
    requires 0 <= quantMax
    ensures |acs| == |factors|
  {
    seq(|factors|, i requires 0 <= i < |factors| => QuantiseFactor(factors[i], quantMax, root))
  }

  // ----- packing -----

  function SizeFlag(cx: int, cy: int): int {
    (cx - 1) + (cy - 1) * 9
  }

  function DcValue(t: Triple): int {
    t.r * 0x1_0000 + t.g * 0x100 + t.b
  }

  function AcValue(t: Triple): int {
    t.r * 19 * 19 + t.g * 19 + t.b
  }

  predicate ByteTriple(t: Triple) {
    0 <= t.r < 256 && 0 <= t.g < 256 && 0 <= t.b < 256
  }

  predicate AcTriple(t: Triple) {
    0 <= t.r < 19 && 0 <= t.g < 19 && 0 <= t.b < 19
  }

  /** Everything fits its field. */
  predicate Fits(p: Packed) {
    && 1 <= p.cx <= 9 && 1 <= p.cy <= 9
    && 0 <= p.quantMax < 83
    && ByteTriple(p.dc)
    && |p.acs| == p.cx * p.cy - 1
    && AllAc(p.acs)
  }

  predicate AllAc(acs: seq<Triple>) {
    forall i :: 0 <= i < |acs| ==> AcTriple(acs[i])
  }

  lemma SrgbIsByte(value: real, gamma: real -> real)
    requires KeepsUnit(gamma)
    ensures 0 <= LinearToSrgb(value, gamma) < 256
  {
    assert 0.0 <= gamma(Unit(value)) <= 1.0;
  }

  /** What is encoded of an image's factors: whatever they are, every value fits its field. */
  function Quantise(cx: int, cy: int, factors: seq<Rgb>, gamma: real -> real, root: real -> real): (p: Packed)
    requires KeepsUnit(gamma) && 1 <= cx <= 9 && 1 <= cy <= 9 && |factors| == cx * cy
    ensures Fits(p)
  {
    assert cx * cy >= 1;
    SrgbIsByte(factors[0].r, gamma);
    SrgbIsByte(factors[0].g, gamma);
    SrgbIsByte(factors[0].b, gamma);
    var quantMax := QuantiseMax(MaxComponent(factors[1..]));
    Packed(cx, cy, quantMax, QuantiseDc(factors[0], gamma), QuantiseFactors(factors[1..], quantMax, root))
  }

  function PackAcs(acs: seq<Triple>): (s: string)
    requires AllAc(acs)
    ensures |s| == 2 * |acs|
  {
    if acs == [] then "" else PackAcs(acs[..|acs| - 1]) + Encoded(AcValue(acs[|acs| - 1]), 2)
  }

  function Pack(p: Packed): (s: string)
    requires Fits(p)
    ensures |s| == 6 + 2 * |p.acs|
  {
    Encoded(SizeFlag(p.cx, p.cy), 1) + Encoded(p.quantMax, 1) + Encoded(DcValue(p.dc), 4) + PackAcs(p.acs)
  }

  // ----- unpacking -----

  function UnpackAc(value: int): Triple {
    Triple(value / 361, value / 19 % 19, value % 19)
  }

  function UnpackDc(value: int): Triple {
    Triple(value / 0x1_0000, value / 0x100 % 0x100, value % 0x100)
  }

  function UnpackAcs(s: string): seq<Triple> {
    seq(|s| / 2, i requires 0 <= i < |s| / 2 => UnpackAc(Decoded(s[2 * i..2 * i + 2])))
  }

  function Unpack(s: string): Packed
    requires |s| >= 6
  {
    var flag := Decoded(s[..1]);
    Packed(flag % 9 + 1, flag / 9 + 1, Decoded(s[1..2]), UnpackDc(Decoded(s[2..6])), UnpackAcs(s[6..]))
  }

  // ----- nothing is lost -----

  lemma WidthsSuffice()
    ensures Pow83(1) == 83 && Pow83(2) == 6_889 && Pow83(4) == 47_458_321
  {
    assert Pow83(3) == 571_787;
  }

  /** A value below the width's capacity comes back from its field. */
  lemma FieldRoundTrip(value: nat, length: nat)
    requires value < Pow83(length)
    ensures Decoded(Encoded(value, length)) == value && IsBase83(Encoded(value, length))
  {
    DecodeEncoded(value, length);
    Quotient(value, Pow83(length), 0, value);
  }

  lemma AcRoundTrip(t: Triple)
    requires AcTriple(t)
    ensures AcValue(t) <= 6858 < Pow83(2) && UnpackAc(AcValue(t)) == t
  {
    WidthsSuffice();
    Quotient(AcValue(t), 361, t.r, t.g * 19 + t.b);
    Quotient(AcValue(t), 19, t.r * 19 + t.g, t.b);
    Quotient(t.r * 19 + t.g, 19, t.r, t.g);
  }

  lemma DcRoundTrip(t: Triple)
    requires ByteTriple(t)
    ensures DcValue(t) < 0x100_0000 < Pow83(4) && UnpackDc(DcValue(t)) == t
  {
    WidthsSuffice();
    Quotient(DcValue(t), 0x1_0000, t.r, t.g * 0x100 + t.b);
    Quotient(DcValue(t), 0x100, t.r * 0x100 + t.g, t.b);
    Quotient(t.r * 0x100 + t.g, 0x100, t.r, t.g);
  }

  lemma SliceOfFirst(a: string, b: string, from: nat, to: nat)
    requires from <= to <= |a|
    ensures (a + b)[from..to] == a[from..to]
  {
  }

  lemma {:induction false} AcField(acs: seq<Triple>, i: nat)
    requires AllAc(acs) && i < |acs|
    ensures PackAcs(acs)[2 * i..2 * i + 2] == Encoded(AcValue(acs[i]), 2)
  {
    var init, last := acs[..|acs| - 1], Encoded(AcValue(acs[|acs| - 1]), 2);
    var packed := PackAcs(init);
    assert PackAcs(acs) == packed + last;
    if i < |init| {
      AcField(init, i);
      SliceOfFirst(packed, last, 2 * i, 2 * i + 2);
    } else {
      assert (packed + last)[|packed|..|packed| + 2] == last;
    }
  }

  lemma AcUnpacked(acs: seq<Triple>, i: nat)
    requires AllAc(acs) && i < |acs|
    ensures UnpackAc(Decoded(PackAcs(acs)[2 * i..2 * i + 2])) == acs[i]
  {
    AcField(acs, i);
    AcRoundTrip(acs[i]);
    FieldRoundTrip(AcValue(acs[i]), 2);
  }

  lemma AcsRoundTrip(acs: seq<Triple>)
    requires AllAc(acs)
    ensures UnpackAcs(PackAcs(acs)) == acs
  {
    var unpacked := UnpackAcs(PackAcs(acs));
    assert |unpacked| == |acs|;
    forall i: nat | i < |acs| ensures unpacked[i] == acs[i] {
      AcUnpacked(acs, i);
    }
  }

  lemma {:induction false} AcsInAlphabet(acs: seq<Triple>)
    requires AllAc(acs)
    ensures IsBase83(PackAcs(acs))
  {
    if acs != [] {
      AcsInAlphabet(acs[..|acs| - 1]);
      DecodeEncoded(AcValue(acs[|acs| - 1]), 2);
    }
  }

  lemma PackFields(p: Packed)
    requires Fits(p)
    ensures Pack(p)[..1] == Encoded(SizeFlag(p.cx, p.cy), 1)
    ensures Pack(p)[1..2] == Encoded(p.quantMax, 1)
    ensures Pack(p)[2..6] == Encoded(DcValue(p.dc), 4)
    ensures Pack(p)[6..] == PackAcs(p.acs)
  {
  }

  lemma PackInAlphabet(p: Packed)
    requires Fits(p)
    ensures IsBase83(Pack(p))
  {
    DecodeEncoded(SizeFlag(p.cx, p.cy), 1);
    DecodeEncoded(p.quantMax, 1);
    DecodeEncoded(DcValue(p.dc), 4);
    AcsInAlphabet(p.acs);
  }

  lemma SizeField(p: Packed)
    requires Fits(p)
    ensures var flag := Decoded(Encoded(SizeFlag(p.cx, p.cy), 1)); flag % 9 + 1 == p.cx && flag / 9 + 1 == p.cy
  {
    WidthsSuffice();
    FieldRoundTrip(SizeFlag(p.cx, p.cy), 1);
    Quotient(SizeFlag(p.cx, p.cy), 9, p.cy - 1, p.cx - 1);
  }

  lemma MaxField(p: Packed)
    requires Fits(p)
    ensures Decoded(Encoded(p.quantMax, 1)) == p.quantMax
  {
    WidthsSuffice();
    FieldRoundTrip(p.quantMax, 1);
  }

  lemma DcField(p: Packed)
    requires Fits(p)
    ensures UnpackDc(Decoded(Encoded(DcValue(p.dc), 4))) == p.dc
  {
    DcRoundTrip(p.dc);
    FieldRoundTrip(DcValue(p.dc), 4);
  }

  /** Every field comes back from the packed string. */
  lemma PackLossless(p: Packed)
    requires Fits(p)
    ensures Unpack(Pack(p)) == p
  {
    PackFields(p);
    SizeField(p);
    MaxField(p);
    DcField(p);
    AcsRoundTrip(p.acs);
  }

  // ----- the encoder -----

  method LargestComponent(factors: seq<Rgb>) returns (maxAc: real)
    ensures maxAc == MaxComponent(factors) && IsLargest(factors, maxAc)
  {
    maxAc := 0.0;
    for i := 0 to |factors|
      invariant maxAc == MaxComponent(factors[..i]) && maxAc >= 0.0
    {
      assert factors[..i + 1][..i] == factors[..i];
      maxAc := Max(maxAc, Abs(factors[i].r));
      maxAc := Max(maxAc, Abs(factors[i].g));
      maxAc := Max(maxAc, Abs(factors[i].b));
    }
    assert factors[..|factors|] == factors;
    MaxIsLargest(factors);
  }

  method EncodeBlurhash(cx: int, cy: int, factors: seq<Rgb>, gamma: real -> real, root: real -> real)
    returns (hash: string)
    requires KeepsUnit(gamma) && 1 <= cx <= 9 && 1 <= cy <= 9 && |factors| == cx * cy
    ensures hash == Pack(Quantise(cx, cy, factors, gamma, root))
  {
    ghost var p := Quantise(cx, cy, factors, gamma, root);
    hash := Base83Encode(SizeFlag(cx, cy), 1);
    var maxAc := LargestComponent(factors[1..]);
    var quantMax := QuantiseMax(maxAc);
    var field := Base83Encode(quantMax, 1);
    hash := hash + field;
    var realMax := RealMax(quantMax);
    DcRoundTrip(p.dc);
    field := Base83Encode(DcValue(QuantiseDc(factors[0], gamma)), 4);
    hash := hash + field;
    var acs := EncodeAcs(factors[1..], quantMax, realMax, root);
    hash := hash + acs;
  }

  /** The hash has its documented length and alphabet, and gives back everything that was encoded. */
  lemma BlurhashLossless(cx: int, cy: int, factors: seq<Rgb>, gamma: real -> real, root: real -> real)
    requires KeepsUnit(gamma) && 1 <= cx <= 9 && 1 <= cy <= 9 && |factors| == cx * cy
    ensures var hash := Pack(Quantise(cx, cy, factors, gamma, root));
      && |hash| == 4 + 2 * (cx * cy)
      && IsBase83(hash)
      && Unpack(hash) == Quantise(cx, cy, factors, gamma, root)
  {
    var p := Quantise(cx, cy, factors, gamma, root);
    PackLossless(p);
    PackInAlphabet(p);
  }

  /** The loop over the components after the first. */
  method EncodeAcs(factors: seq<Rgb>, ghost quantMax: int, realMax: real, root: real -> real) returns (hash: string)
    requires 0 <= quantMax && realMax == RealMax(quantMax)
    ensures AllAc(QuantiseFactors(factors, quantMax, root)) && hash == PackAcs(QuantiseFactors(factors, quantMax, root))
  {
    ghost var acs := QuantiseFactors(factors, quantMax, root);
    hash := "";
    for i := 0 to |factors|
      invariant AllAc(acs) && hash == PackAcs(acs[..i])
    {
      var f := factors[i];
      var t := Triple(QuantiseAc(f.r, realMax, root), QuantiseAc(f.g, realMax, root), QuantiseAc(f.b, realMax, root));
      assert t == acs[i] && acs[..i + 1][..i] == acs[..i];
      AcRoundTrip(t);
      var field := Base83Encode(AcValue(t), 2);
      hash := hash + field;
    }
    assert acs[..|factors|] == acs;
  }
}
