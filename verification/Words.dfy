// 64-bit machine words as numbers below 2^64, with the C operators the source applies
// to them: bitwise xor, logical right shift and wrapping multiplication.
module Words {

  const WORD_RANGE: nat := 0x1_0000_0000_0000_0000

  type word = n: int | 0 <= n < WORD_RANGE

  function Pow2(n: nat): (p: nat)
    ensures p >= 1
  {
    if n == 0 then 1 else 2 * Pow2(n - 1)
  }

  // Bit by bit, lowest bit first.
  function Xor(a: nat, b: nat): nat
    decreases a + b
  {
    if a == 0 && b == 0 then 0 else (a + b) % 2 + 2 * Xor(a / 2, b / 2)
  }

  function ShiftRight(a: nat, k: nat): nat {
    QuotientSign(a, Pow2(k));
    a / Pow2(k)
  }

  lemma QuotientSign(a: nat, n: nat)
    requires n > 0
    ensures a / n >= 0
  {
    var q, r := a / n, a % n;
    assert a == n * q + r;
    ProductSign(n, q);
  }

  lemma ProductSign(n: nat, q: int)
    ensures q < 0 ==> n * q + n <= 0
  {
  }

  function WrapMul(a: word, b: word): word {
    (a * b) % WORD_RANGE
  }

  lemma {:induction false} XorBound(a: nat, b: nat, n: nat)
    requires a < Pow2(n) && b < Pow2(n)
    ensures Xor(a, b) < Pow2(n)
    decreases n
  {
    if n > 0 {
      XorBound(a / 2, b / 2, n - 1);
    }
  }

  lemma {:induction false} XorSelf(a: nat)
    ensures Xor(a, a) == 0
  {
    if a > 0 {
      XorSelf(a / 2);
    }
  }

  lemma {:induction false} XorZero(a: nat)
    ensures Xor(a, 0) == a && Xor(0, a) == a
  {
    if a > 0 {
      XorZero(a / 2);
    }
  }

  lemma {:induction false} XorAssociative(a: nat, b: nat, c: nat)
    ensures Xor(Xor(a, b), c) == Xor(a, Xor(b, c))
    decreases a + b + c
  {
    if a + b + c > 0 {
      XorAssociative(a / 2, b / 2, c / 2);
      XorHalves(a, b);
      XorHalves(b, c);
      ParityCarries(Xor(a, b), a, b, c);
      ParityCarries(Xor(b, c), b, c, a);
      XorByHalves(Xor(a, b), c, Xor(a / 2, b / 2), c / 2, a + b + c);
      XorByHalves(a, Xor(b, c), a / 2, Xor(b / 2, c / 2), a + b + c);
    }
  }

  lemma XorByHalves(a: nat, b: nat, a': nat, b': nat, sum: nat)
    requires a / 2 == a' && b / 2 == b' && (a + b) % 2 == sum % 2
    ensures Xor(a, b) == sum % 2 + 2 * Xor(a', b')
  {
  }

  lemma ParityCarries(u: nat, a: nat, b: nat, c: nat)
    requires u % 2 == (a + b) % 2
    ensures (u + c) % 2 == (a + b + c) % 2
  {
  }

  lemma XorHalves(a: nat, b: nat)
    ensures Xor(a, b) / 2 == Xor(a / 2, b / 2)
    ensures Xor(a, b) % 2 == (a + b) % 2
  {
  }

  lemma XorBit(a: nat, b: nat, c: nat, d: nat)
    requires b < 2 && d < 2
    ensures Xor(2 * a + b, 2 * c + d) == 2 * Xor(a, c) + (b + d) % 2
  {
    assert (2 * a + b) / 2 == a && (2 * c + d) / 2 == c;
  }

  // What a telescoping chain of xors collapses to.
  lemma XorCancel(a: nat, b: nat, c: nat)
    ensures Xor(Xor(a, b), Xor(b, c)) == Xor(a, c)
    ensures Xor(Xor(a, b), b) == a
  {
    XorAssociative(a, b, Xor(b, c));
    XorAssociative(b, b, c);
    XorAssociative(a, b, b);
    XorSelf(b);
    XorZero(c);
    XorZero(a);
  }

  lemma ShiftByNone(a: nat)
    ensures ShiftRight(a, 0) == a
  {
  }

  lemma ShiftByOneMore(a: nat, k: nat)
    ensures ShiftRight(a, k + 1) == ShiftRight(a / 2, k)
  {
    var p := Pow2(k);
    var q, r := (a / 2) / p, (a / 2) % p;
    assert a / 2 == p * q + r;
    assert (2 * p) * q == 2 * (p * q);
    QuotientIs(a, 2 * p, q, 2 * r + a % 2);
  }

  lemma QuotientIs(a: nat, n: nat, q: nat, r: nat)
    requires a == n * q + r && r < n
    ensures a / n == q
  {
    var d, s := a / n, a % n;
    assert n * (q - d) == s - r by { assert n * (q - d) == n * q - n * d; }
    NoMultiple(n, q - d);
  }

  lemma NoMultiple(n: nat, k: int)
    requires n * k < n && n * k + n > 0
    ensures k == 0
  {
  }

  lemma {:induction false} ShiftXor(a: nat, b: nat, k: nat)
    ensures ShiftRight(Xor(a, b), k) == Xor(ShiftRight(a, k), ShiftRight(b, k))
    decreases k
  {
    if k > 0 {
      var c, d, e := a / 2, b / 2, Xor(a, b) / 2;
      assert e == Xor(c, d) by { XorHalves(a, b); }
      ShiftXor(c, d, k - 1);
      ShiftByOneMore(a, k - 1);
      ShiftByOneMore(b, k - 1);
      ShiftByOneMore(Xor(a, b), k - 1);
    } else {
      ShiftByNone(a);
      ShiftByNone(b);
      ShiftByNone(Xor(a, b));
    }
  }

  lemma {:induction false} ShiftShift(a: nat, j: nat, k: nat)
    ensures ShiftRight(ShiftRight(a, j), k) == ShiftRight(a, j + k)
    decreases j
  {
    if j > 0 {
      ShiftShift(a / 2, j - 1, k);
      ShiftByOneMore(a, j - 1);
      ShiftByOneMore(a, j + k - 1);
    }
  }

  lemma ShiftOut(a: nat, k: nat)
    requires a < Pow2(k)
    ensures ShiftRight(a, k) == 0
  {
    QuotientIs(a, Pow2(k), 0, a);
  }

  lemma ShiftBound(a: nat, k: nat)
    ensures ShiftRight(a, k) <= a
  {
    var p := Pow2(k);
    assert a == p * (a / p) + a % p;
  }

  lemma {:induction false} Pow2Add(m: nat, n: nat)
    ensures Pow2(m + n) == Pow2(m) * Pow2(n)
  {
    if m > 0 {
      Pow2Add(m - 1, n);
    }
  }

  lemma WordBits()
    ensures Pow2(64) == WORD_RANGE
  {
    assert Pow2(4) == 16;
    assert Pow2(8) == 256 by { Pow2Add(4, 4); }
    assert Pow2(16) == 0x1_0000 by { Pow2Add(8, 8); }
    assert Pow2(32) == 0x1_0000_0000 by { Pow2Add(16, 16); }
    assert Pow2(64) == 0x1_0000_0000 * 0x1_0000_0000 by { Pow2Add(32, 32); }
  }

  lemma {:induction false} Pow2Monotone(m: nat, n: nat)
    requires m <= n
    ensures Pow2(m) <= Pow2(n)
  {
    if m < n {
      Pow2Monotone(m, n - 1);
    }
  }

  lemma ShiftedOutOfWord(a: word, k: nat)
    requires k >= 64
    ensures ShiftRight(a, k) == 0
  {
    WordBits();
    Pow2Monotone(64, k);
    ShiftOut(a, k);
  }

  function XorWord(a: word, b: word): word {
    WordBits();
    XorBound(a, b, 64);
    Xor(a, b)
  }

  function ShiftWord(a: word, k: nat): word {
    ShiftBound(a, k);
    ShiftRight(a, k)
  }

  // Multiplying by c and then by an inverse of c modulo 2^64 changes nothing.
  lemma WrapMulInverse(x: word, c: word, d: word, q: nat)
    requires c * d == 1 + q * WORD_RANGE
    ensures WrapMul(WrapMul(x, c), d) == x
  {
    var t := x * c / WORD_RANGE;
    var r := x * c % WORD_RANGE;
    assert x * c == t * WORD_RANGE + r;
    assert r * d == x * c * d - t * WORD_RANGE * d;
    assert x * c * d == x * (c * d) == x + (x * q) * WORD_RANGE;
    assert t * WORD_RANGE * d == (t * d) * WORD_RANGE;
    Residue(r * d, x, x * q - t * d);
  }

  lemma Residue(n: int, x: word, k: int)
    requires n == x + k * WORD_RANGE
    ensures n % WORD_RANGE == x
  {
  }
}
