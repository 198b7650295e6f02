// The "%d" text of a 64-bit word narrowed to a 32-bit signed integer.
module Decimal {
  import opened Words
  import opened Bytes

  const MINUS: byte := 0x2d

  // (int)w for a uint64_t w: the low 32 bits in two's complement.
  function NarrowToInt(w: word): (z: int)
    ensures -0x8000_0000 <= z < 0x8000_0000
    ensures (w - z) % 0x1_0000_0000 == 0
  {
    var low := w % 0x1_0000_0000;
    if low < 0x8000_0000 then low else low - 0x1_0000_0000
  }

  function Digit(d: nat): (b: byte)
    requires d < 10
    ensures b != NUL && b != MINUS
  {
    if d == 0 then 0x30 else if d == 1 then 0x31 else if d == 2 then 0x32 else if d == 3 then 0x33
    else if d == 4 then 0x34 else if d == 5 then 0x35 else if d == 6 then 0x36
    else if d == 7 then 0x37 else if d == 8 then 0x38 else 0x39
  }

  function Digits(n: nat): (s: cstring)
    ensures s != [] && s[0] != MINUS
  {
    if n < 10 then [Digit(n)] else Digits(n / 10) + [Digit(n % 10)]
  }

  function Text(z: int): cstring {
    if z < 0 then [MINUS] + Digits(-z) else Digits(z)
  }

  function DigitValue(b: byte): nat {
    if b == 0x30 then 0 else if b == 0x31 then 1 else if b == 0x32 then 2 else if b == 0x33 then 3
    else if b == 0x34 then 4 else if b == 0x35 then 5 else if b == 0x36 then 6
    else if b == 0x37 then 7 else if b == 0x38 then 8 else 9
  }

  function DigitsValue(s: seq<byte>): nat {
    if |s| == 0 then 0 else 10 * DigitsValue(s[..|s| - 1]) + DigitValue(s[|s| - 1])
  }

  function Value(s: seq<byte>): int {
    if s != [] && s[0] == MINUS then 0 - DigitsValue(s[1..]) else DigitsValue(s)
  }

  lemma DigitReadsBack(d: nat)
    requires d < 10
    ensures DigitValue(Digit(d)) == d
  {
  }

  lemma DigitsValueSnoc(s: seq<byte>, b: byte)
    ensures DigitsValue(s + [b]) == 10 * DigitsValue(s) + DigitValue(b)
  {
    assert (s + [b])[..|s|] == s;
  }

  lemma {:induction false} DigitsRoundTrip(n: nat)
    ensures DigitsValue(Digits(n)) == n
  {
    DigitReadsBack(n % 10);
    if n >= 10 {
      DigitsRoundTrip(n / 10);
      DigitsValueSnoc(Digits(n / 10), Digit(n % 10));
    } else {
      DigitsValueSnoc([], Digit(n));
      assert Digits(n) == [] + [Digit(n)];
    }
  }

  function Pow10(k: nat): nat {
    if k == 0 then 1 else 10 * Pow10(k - 1)
  }

  lemma {:induction false} DigitsFit(n: nat, k: nat)
    requires k > 0 && n < Pow10(k)
    ensures |Digits(n)| <= k
  {
    if k > 1 && n >= 10 {
      DigitsFit(n / 10, k - 1);
    }
  }

  // The text reads back as the number, and fits the 32-byte buffer it is printed into.
  lemma TextRoundTrip(w: word)
    ensures Value(Text(NarrowToInt(w))) == NarrowToInt(w)
    ensures |Text(NarrowToInt(w))| < 32
  {
    var z := NarrowToInt(w);
    var n := if z < 0 then -z else z;
    DigitsRoundTrip(n);
    assert Pow10(5) == 100_000;
    assert Pow10(10) == 10_000_000_000;
    DigitsFit(n, 10);
    if z < 0 {
      assert Text(z)[1..] == Digits(n);
    }
  }

  // ---------- The form of the text ----------

  predicate IsDigit(b: byte) {
    0x30 <= b as int <= 0x39
  }

  lemma DigitIs(d: nat)
    requires d < 10
    ensures Digit(d) as int == 0x30 + d
  {
  }

  lemma {:induction false} DigitsForm(n: nat)
    ensures forall i | 0 <= i < |Digits(n)| :: IsDigit(Digits(n)[i])
    ensures n > 0 ==> Digits(n)[0] != 0x30
    ensures n == 0 ==> Digits(n) == [0x30]
  {
    DigitIs(n % 10);
    if n >= 10 {
      DigitsForm(n / 10);
    }
  }

  // As "%d" prints it: a minus sign exactly for a negative number, then decimal digits
  // without leading zeros. With TextRoundTrip that leaves one text for each number.
  lemma TextForm(z: int)
    ensures z < 0 <==> Text(z)[0] == 0x2d
    ensures forall i | (if z < 0 then 1 else 0) <= i < |Text(z)| :: IsDigit(Text(z)[i])
    ensures z > 0 ==> Text(z)[0] != 0x30
    ensures z < 0 ==> |Text(z)| > 1 && Text(z)[1] != 0x30
    ensures z == 0 ==> Text(z) == [0x30]
  {
    DigitsForm(if z < 0 then -z else z);
  }
}
