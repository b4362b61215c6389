/**
 What the quantised numbers of a BlurHash mean: colours come back, components keep their order
 and their sign, and the fields stand where a reader expects them.
 */
module BlurColours {
  import opened Basics
  import opened Base83
  import opened BlurHash

  // ----- the average colour -----

  /** `gamma` undoes `expand`, which stands for v^2.4 and takes what is not in the linear part to above its end. */
  ghost predicate Undoes(gamma: real -> real, expand: real -> real) {
    forall v :: 0.09 < v <= 1.0 ==> 0.0031308 < expand(v) <= 1.0 && gamma(expand(v)) == v
  }

  function SrgbToLinear(value: int, expand: real -> real): real {
    var v := value as real / 255.0;
    if v <= 0.04045 then v / 12.92 else expand((v + 0.055) / 1.055)
  }

  /** A colour byte decoded to linear light is encoded back to the same byte. */
  lemma ByteRoundTrip(value: int, gamma: real -> real, expand: real -> real)
    requires Undoes(gamma, expand) && 0 <= value < 256
    ensures LinearToSrgb(SrgbToLinear(value, expand), gamma) == value
  {
    var v := value as real / 255.0;
    var linear := SrgbToLinear(value, expand);
    if value <= 10 {
      assert linear == v / 12.92 && 0.0 <= linear <= 0.0031308;
    } else {
      assert v > 0.04045;
      var x := (v + 0.055) / 1.055;
      assert 0.09 < x <= 1.0 && linear == expand(x) && gamma(linear) == x;
    }
    HalfUp(value);
  }

  lemma HalfUp(value: int)
    requires 0 <= value < 256
    ensures SaturatingU32(value as real + 0.5) == value
  {
  }

  /** An image of one colour: its average colour field holds the red, green and blue byte, red highest. */
  lemma SolidColour(r: int, g: int, b: int, gamma: real -> real, expand: real -> real)
    requires Undoes(gamma, expand) && 0 <= r < 256 && 0 <= g < 256 && 0 <= b < 256
    ensures var f := Rgb(SrgbToLinear(r, expand), SrgbToLinear(g, expand), SrgbToLinear(b, expand));
      QuantiseDc(f, gamma) == Triple(r, g, b) && DcValue(QuantiseDc(f, gamma)) == 65536 * r + 256 * g + b
  {
    ByteRoundTrip(r, gamma, expand);
    ByteRoundTrip(g, gamma, expand);
    ByteRoundTrip(b, gamma, expand);
  }

  /** In between, light goes to the nearest byte: through the linear part of sRGB near black, else through gamma. */
  lemma NearestByte(value: real, gamma: real -> real)
    requires KeepsUnit(gamma) && 0.0 <= value <= 1.0
    requires value > 0.0031308 ==> 1.055 * gamma(value) >= 0.055
    ensures var n := LinearToSrgb(value, gamma) as real;
      if value <= 0.0031308 then n - 0.5 <= 3294.6 * value < n + 0.5
      else n - 0.5 <= 255.0 * (1.055 * gamma(value) - 0.055) < n + 0.5
  {
    assert 0.0 <= gamma(value) <= 1.0;
  }

  /** Light outside 0..1 is cut off. */
  lemma LightClipped(value: real, gamma: real -> real)
    requires gamma(1.0) == 1.0
    ensures value <= 0.0 ==> LinearToSrgb(value, gamma) == 0
    ensures value >= 1.0 ==> LinearToSrgb(value, gamma) == 255
  {
    HalfUp(0);
    HalfUp(255);
  }

  // ----- components -----

  ghost predicate Roots(root: real -> real) {
    root(0.0) == 0.0 && root(1.0) == 1.0 && forall x, y :: 0.0 <= x <= y ==> 0.0 <= root(x) <= root(y)
  }

  lemma SignRootMonotone(x: real, y: real, root: real -> real)
    requires Roots(root) && x <= y
    ensures SignRoot(x, root) <= SignRoot(y, root)
  {
  }

  lemma SteppedMonotone(x: real, y: real)
    requires x <= y
    ensures Clamp(SaturatingU32((x * 9.0 + 9.5).Floor as real), 0, 18)
      <= Clamp(SaturatingU32((y * 9.0 + 9.5).Floor as real), 0, 18)
  {
    assert (x * 9.0 + 9.5).Floor <= (y * 9.0 + 9.5).Floor;
  }

  /** A component keeps its order; none is 9, the greatest positive one 18 and the greatest negative one 0. */
  lemma ComponentSteps(a: real, b: real, most: real, root: real -> real)
    requires Roots(root) && most > 0.0 && a <= b
    ensures QuantiseAc(a, most, root) <= QuantiseAc(b, most, root)
    ensures QuantiseAc(0.0, most, root) == 9
    ensures QuantiseAc(most, most, root) == 18
    ensures QuantiseAc(-most, most, root) == 0
  {
    DivideMonotone(a, b, most);
    SignRootMonotone(a / most, b / most, root);
    SteppedMonotone(SignRoot(a / most, root), SignRoot(b / most, root));
    QuotientTimes(most, most);
    QuotientTimes(-most, most);
    ScaleOrder(most / most, 1.0, most, most, most);
    ScaleOrder(1.0, most / most, most, most, most);
    ScaleOrder(-most / most, -1.0, most, -most, -most);
    ScaleOrder(-1.0, -most / most, most, -most, -most);
  }

  /** Within a component red counts 361, green 19 and blue 1. */
  lemma ComponentOrder(most: real, quantMax: int, root: real -> real)
    requires Roots(root) && 0 <= quantMax && most == RealMax(quantMax)
    ensures AcValue(QuantiseFactor(Rgb(most, 0.0, -most), quantMax, root)) == 18 * 361 + 9 * 19
    ensures AcValue(QuantiseFactor(Rgb(-most, most, 0.0), quantMax, root)) == 18 * 19 + 9
  {
    ComponentSteps(0.0, most, most, root);
  }

  // ----- the maximum -----

  /** The quantised maximum q stands for (q + 1) / 167, taken from a maximum within half a step of (q + 1) / 166. */
  lemma MaximumSteps(most: real)
    ensures var q := QuantiseMax(most);
      && (most <= 0.0 ==> q == 0)
      && (0.0 < most * 166.0 < 1.5 ==> q == 0)
      && (most * 166.0 >= 82.5 ==> q == 82)
      && (1.5 <= most * 166.0 < 82.5 ==> q as real + 0.5 <= most * 166.0 < q as real + 1.5)
      && (q == 0 ==> RealMax(q) == 1.0)
      && (q > 0 ==> RealMax(q) * 167.0 == q as real + 1.0)
  {
    var x := most * 166.0 - 0.5;
    assert x.Floor as real <= x < x.Floor as real + 1.0;
  }

  /** The average colour comes from the first factor, the maximum and the components from all the others. */
  lemma QuantisedFields(cx: int, cy: int, factors: seq<Rgb>, gamma: real -> real, root: real -> real)
    requires KeepsUnit(gamma) && 1 <= cx <= 9 && 1 <= cy <= 9 && |factors| == cx * cy && |factors| > 0
    ensures var p := Quantise(cx, cy, factors, gamma, root);
      && (p.cx, p.cy) == (cx, cy) && p.dc == QuantiseDc(factors[0], gamma)
      && MaximumFrom(p.quantMax, factors[1..]) && ComponentsFrom(p.acs, factors[1..], p.quantMax, root)
  {
    MaxIsLargest(factors[1..]);
    assert MaximumFrom(QuantiseMax(MaxComponent(factors[1..])), factors[1..]);
    Components(factors[1..], QuantiseMax(MaxComponent(factors[1..])), root);
  }

  ghost predicate MaximumFrom(quantMax: int, others: seq<Rgb>) {
    exists most :: IsLargest(others, most) && most >= 0.0 && quantMax == QuantiseMax(most)
  }

  predicate ComponentsFrom(acs: seq<Triple>, others: seq<Rgb>, quantMax: int, root: real -> real)
    requires 0 <= quantMax
  {
    var most := RealMax(quantMax);
    && |acs| == |others|
    && forall i :: 0 <= i < |acs| ==>
         && acs[i].r == QuantiseAc(others[i].r, most, root)
         && acs[i].g == QuantiseAc(others[i].g, most, root)
         && acs[i].b == QuantiseAc(others[i].b, most, root)
  }

  lemma Components(others: seq<Rgb>, quantMax: int, root: real -> real)
    requires 0 <= quantMax
    ensures ComponentsFrom(QuantiseFactors(others, quantMax, root), others, quantMax, root)
  {
  }

  // ----- where things stand -----

  /** The digits of base 83 are the figures, the capitals, the small letters and 21 marks, in this order. */
  lemma AlphabetIs(d: nat)
    requires d < 83
    ensures |ALPHABET| == 83
    ensures d < 10 ==> ALPHABET[d] as int == '0' as int + d
    ensures 10 <= d < 36 ==> ALPHABET[d] as int == 'A' as int + d - 10
    ensures 36 <= d < 62 ==> ALPHABET[d] as int == 'a' as int + d - 36
    ensures 62 <= d ==> ALPHABET[d] == "#$%*+,-.:;=?@[]^_{|}~"[d - 62]
  {
    DigitOfAlphabet(d);
    if d < 10 {
      Figures(d);
    } else if d < 36 {
      Capitals(d - 10);
    } else if d < 62 {
      SmallLetters(d - 36);
    }
  }

  lemma Figures(d: nat)
    requires d < |FIGURES|
    ensures FIGURES[d] as int == '0' as int + d
  {
  }

  lemma Capitals(d: nat)
    requires d < |UPPER|
    ensures UPPER[d] as int == 'A' as int + d
  {
  }

  lemma SmallLetters(d: nat)
    requires d < |LOWER|
    ensures LOWER[d] as int == 'a' as int + d
  {
  }

  /** The size comes first: 4 by 3 components, as the service asks for, is digit 21, an L, of 28 characters. */
  lemma FourByThree(factors: seq<Rgb>, gamma: real -> real, root: real -> real)
    requires KeepsUnit(gamma) && |factors| == 12
    ensures var hash := Pack(Quantise(4, 3, factors, gamma, root)); |hash| == 28 && hash[..1] == [Char83(21)]
    ensures Char83(21) == 'L'
  {
    var p := Quantise(4, 3, factors, gamma, root);
    PackFields(p);
    FirstDigit(21);
    AlphabetIs(21);
  }

  lemma FirstDigit(value: nat)
    requires value < 83
    ensures Encoded(value, 1) == [Char83(value)]
  {
    EncodedAt(value, 1, 0);
    LastDigit(value, 1);
    Quotient(value, 83, 0, value);
  }

  /** Then the maximum, then the average colour, then the components in order. */
  lemma FieldsInOrder(p: Packed)
    requires Fits(p)
    ensures Decoded(Pack(p)[..1]) == p.cx - 1 + 9 * (p.cy - 1)
    ensures Decoded(Pack(p)[1..2]) == p.quantMax
    ensures Decoded(Pack(p)[2..6]) == 65536 * p.dc.r + 256 * p.dc.g + p.dc.b
    ensures forall i :: 0 <= i < |p.acs| ==>
      Decoded(Pack(p)[6 + 2 * i..8 + 2 * i]) == 361 * p.acs[i].r + 19 * p.acs[i].g + p.acs[i].b
  {
    PackFields(p);
    WidthsSuffice();
    FieldRoundTrip(SizeFlag(p.cx, p.cy), 1);
    MaxField(p);
    DcRoundTrip(p.dc);
    FieldRoundTrip(DcValue(p.dc), 4);
    forall i | 0 <= i < |p.acs|
      ensures Decoded(Pack(p)[6 + 2 * i..8 + 2 * i]) == 361 * p.acs[i].r + 19 * p.acs[i].g + p.acs[i].b
    {
      assert Pack(p)[6 + 2 * i..8 + 2 * i] == Pack(p)[6..][2 * i..2 * i + 2];
      AcField(p.acs, i);
      AcRoundTrip(p.acs[i]);
      FieldRoundTrip(AcValue(p.acs[i]), 2);
    }
  }
}
