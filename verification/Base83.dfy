/**
 Base 83, the number notation of BlurHash: fixed-width, most significant digit first.
 */
module Base83 {
  import opened Basics

  const FIGURES: string := "0123456789"
  const UPPER: string := "ABCDEFGHIJKLMNOPQRSTUVWXYZ"
  const LOWER: string := "abcdefghijklmnopqrstuvwxyz"
  const MARKS: string := "#$%*+,-.:;=?@[]^_{|}~"
  const ALPHABET: string := FIGURES + UPPER + LOWER + MARKS

  const U32_LIMIT: int := 0x1_0000_0000

  /** Position of a character in the alphabet, by character range; -1 outside it. */
  function DigitOf(c: char): (d: int)
    ensures -1 <= d < 83
  {
    if '0' <= c <= '9' then c as int - 48
    else if 'A' <= c <= 'Z' then c as int - 55
    else if 'a' <= c <= 'z' then c as int - 61
    else if '#' <= c <= '%' then c as int + 27
    else if '*' <= c <= '.' then c as int + 23
    else if ':' <= c <= ';' then c as int + 12
    else if c == '=' then 72
    else if '?' <= c <= '@' then c as int + 10
    else if c == '[' then 75
    else if c == ']' then 76
    else if '^' <= c <= '_' then c as int - 17
    else if '{' <= c <= '~' then c as int - 44
    else -1
  }

  lemma DigitOfFigure(d: nat)
    requires d < |FIGURES|
    ensures DigitOf(FIGURES[d]) == d
  {
  }

  lemma DigitOfUpper(d: nat)
    requires d < |UPPER|
    ensures DigitOf(UPPER[d]) == d + 10
  {
  }

  lemma DigitOfLower(d: nat)
    requires d < |LOWER|
    ensures DigitOf(LOWER[d]) == d + 36
  {
  }

  lemma DigitOfMark(d: nat)
    requires d < |MARKS|
    ensures DigitOf(MARKS[d]) == d + 62
  {
  }

  lemma DigitOfAlphabet(d: nat)
    requires d < 83
    ensures |ALPHABET| == 83 && DigitOf(ALPHABET[d]) == d
  {
    if d < 10 {
      DigitOfFigure(d);
    } else if d < 36 {
      DigitOfUpper(d - 10);
    } else if d < 62 {
      DigitOfLower(d - 36);
    } else {
      DigitOfMark(d - 62);
    }
  }

  function Pow83(n: nat): (p: int)
    ensures p > 0
  {
    if n == 0 then 1 else 83 * Pow83(n - 1)
  }

  /** 83u32.pow(n) stays below the limit of u32 up to n = 5. */
  lemma PowFits(n: nat)
    requires n <= 5
    ensures Pow83(n) < U32_LIMIT
  {
    assert Pow83(1) == 83;
    assert Pow83(2) == 6_889;
    assert Pow83(3) == 571_787;
    assert Pow83(4) == 47_458_321;
    assert Pow83(5) == 3_939_040_643;
  }

  function Char83(d: int): char
    requires 0 <= d < 83
  {
    ALPHABET[d]
  }

  /** The last `length` base-83 digits of `value`. */
  function Encoded(value: nat, length: nat): (s: string)
    ensures |s| == length
  {
    if length == 0 then "" else Encoded(value / 83, length - 1) + [Char83(value % 83)]
  }

  function Decoded(s: string): int {
    if s == "" then 0 else Decoded(s[..|s| - 1]) * 83 + DigitOf(s[|s| - 1])
  }

  ghost predicate IsBase83(s: string) {
    forall c :: c in s ==> c in ALPHABET
  }

  lemma DivPow(value: nat, n: nat)
    ensures (value / 83) / Pow83(n) == value / Pow83(n + 1)
    ensures (value / 83) % Pow83(n) * 83 + value % 83 == value % Pow83(n + 1)
  {
    var p := Pow83(n);
    var q, r := (value / 83) / p, (value / 83) % p;
    assert value / 83 == q * p + r;
    assert value == (q * p + r) * 83 + value % 83;
    assert (q * p + r) * 83 == q * (83 * p) + r * 83;
    Quotient(value, 83 * p, q, r * 83 + value % 83);
  }

  lemma DigitShift(value: nat, n: nat)
    ensures (value / 83) / Pow83(n) % 83 == value / Pow83(n + 1) % 83
  {
    DivPow(value, n);
  }

  /** The digit `k` places from the left has the weight 83^(length - 1 - k). */
  function DigitAt(value: nat, length: nat, k: nat): (d: int)
    requires k < length
    ensures 0 <= d < 83
  {
    value / Pow83(length - 1 - k) % 83
  }

  lemma {:induction false} EncodedAt(value: nat, length: nat, k: nat)
    requires k < length
    ensures Encoded(value, length)[k] == Char83(DigitAt(value, length, k))
  {
    if k == length - 1 {
      LastDigit(value, length);
    } else {
      EncodedAt(value / 83, length - 1, k);
      DigitShift(value, length - 2 - k);
    }
  }

  lemma LastDigit(value: nat, length: nat)
    requires length > 0
    ensures DigitAt(value, length, length - 1) == value % 83
  {
    assert Pow83(0) == 1;
  }

  lemma DecodeAppend(init: string, d: int)
    requires IsBase83(init) && 0 <= d < 83
    ensures IsBase83(init + [Char83(d)]) && Decoded(init + [Char83(d)]) == Decoded(init) * 83 + d
  {
    DigitOfAlphabet(d);
    assert (init + [Char83(d)])[..|init|] == init;
  }

  /** `s` is over the alphabet and means what of `value` fits its width. */
  ghost predicate Holds(s: string, value: nat) {
    IsBase83(s) && Decoded(s) == value % Pow83(|s|)
  }

  lemma HoldsNext(init: string, value: nat)
    requires Holds(init, value / 83)
    ensures Holds(init + [Char83(value % 83)], value)
  {
    DecodeAppend(init, value % 83);
    DivPow(value, |init|);
  }

  lemma {:induction false} EncodedHolds(value: nat, length: nat)
    ensures Holds(Encoded(value, length), value)
  {
    if length > 0 {
      EncodedHolds(value / 83, length - 1);
      HoldsNext(Encoded(value / 83, length - 1), value);
    } else {
      assert Pow83(0) == 1;
    }
  }

  /** Decoding gives the value back, reduced to what the width can hold. */
  lemma DecodeEncoded(value: nat, length: nat)
    ensures Decoded(Encoded(value, length)) == value % Pow83(length)
    ensures IsBase83(Encoded(value, length))
  {
    EncodedHolds(value, length);
  }

  /** No two strings of the same width mean the same number. */
  lemma {:induction false} EncodeDecoded(s: string)
    requires IsBase83(s)
    ensures 0 <= Decoded(s) < Pow83(|s|)
    ensures Encoded(Decoded(s), |s|) == s
  {
    if s != "" {
      var init, c := s[..|s| - 1], s[|s| - 1];
      assert s == init + [c];
      EncodeDecoded(init);
      assert c in s;
      var d: nat :| d < |ALPHABET| && ALPHABET[d] == c;
      DigitOfAlphabet(d);
      Quotient(Decoded(s), 83, Decoded(init), d);
    }
  }

  /** Arithmetic is on u32: beyond width 6 the power no longer fits. */
  method Base83Encode(value: nat, length: nat) returns (s: string)
    requires value < U32_LIMIT && length <= 6
    ensures s == Encoded(value, length)
  {
    var result := new char[length](_ => '0');
    ghost var digits := Encoded(value, length);
    for i := 1 to length + 1
      invariant forall k :: 0 <= k < i - 1 ==> result[k] == digits[k]
    {
      var digit := Digit(value, length, i);
      result[i - 1] := ALPHABET[digit];
    }
    s := result[..];
  }

  /** The digit the loop writes in its `i`-th pass. */
  method Digit(value: nat, length: nat, i: nat) returns (digit: int)
    requires value < U32_LIMIT && 1 <= i <= length <= 6
    ensures 0 <= digit < 83 && Char83(digit) == Encoded(value, length)[i - 1]
  {
    PowFits(length - i);
    EncodedAt(value, length, i - 1);
    digit := value / Pow83(length - i) % 83;
    assert digit == DigitAt(value, length, i - 1);
  }
}
