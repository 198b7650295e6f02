// The 64-bit mixer of global.c, the source of every "random" choice the mutation
// engine makes.
module Mixer {
  import opened Words

  const MULTIPLIER_1: word := 0xbf58476d1ce4e5b9
  const MULTIPLIER_2: word := 0x94d049bb133111eb

  // Their inverses modulo 2^64.
  const INVERSE_1: word := 0x96de1b173f119089
  const INVERSE_2: word := 0x319642b2d24d8ec3

  function XorShift(n: word, k: nat): word {
    XorWord(n, ShiftWord(n, k))
  }

  function Hash(n: word): word {
    var a := WrapMul(XorShift(n, 30), MULTIPLIER_1);
    var b := WrapMul(XorShift(a, 27), MULTIPLIER_2);
    XorShift(b, 31)
  }

  // A right xor-shift by k is undone by xoring in the shifts by k and by 2k: the shift
  // by 3k leaves the word, for every k the mixer uses.
  function UndoXorShift(n: word, k: nat): word {
    XorWord(XorWord(n, ShiftWord(n, k)), ShiftWord(n, 2 * k))
  }

  function Unhash(h: word): word {
    var b := UndoXorShift(h, 31);
    var a := UndoXorShift(WrapMul(b, INVERSE_2), 27);
    UndoXorShift(WrapMul(a, INVERSE_1), 30)
  }

  lemma UndoAfterShift(x: word, k: nat)
    requires 3 * k >= 64
    ensures UndoXorShift(XorShift(x, k), k) == x
  {
    var x1, x2, x3 := ShiftRight(x, k), ShiftRight(x, 2 * k), ShiftRight(x, 3 * k);
    ShiftShift(x, k, k);
    ShiftShift(x, k, 2 * k);
    ShiftedOutOfWord(x, 3 * k);
    ShiftXor(x, x1, k);
    ShiftXor(x, x1, 2 * k);
    XorCancel(x, x1, x2);
    XorCancel(x, x2, x3);
    XorZero(x);
  }

  lemma ShiftAfterUndo(x: word, k: nat)
    requires 3 * k >= 64
    ensures XorShift(UndoXorShift(x, k), k) == x
  {
    var x1, x2 := ShiftRight(x, k), ShiftRight(x, 2 * k);
    var z := Xor(x1, x2);
    ShiftShift(x, k, k);
    ShiftShift(x, 2 * k, k);
    ShiftedOutOfWord(x, 3 * k);
    ShiftXor(x, x1, k);
    ShiftXor(Xor(x, x1), x2, k);
    XorZero(z);
    XorAssociative(x, x1, x2);
    XorCancel(x, z, 0);
  }

  lemma MultipliersCancel(x: word)
    ensures WrapMul(WrapMul(x, MULTIPLIER_1), INVERSE_1) == x
    ensures WrapMul(WrapMul(x, INVERSE_1), MULTIPLIER_1) == x
    ensures WrapMul(WrapMul(x, MULTIPLIER_2), INVERSE_2) == x
    ensures WrapMul(WrapMul(x, INVERSE_2), MULTIPLIER_2) == x
  {
    var q1 := MULTIPLIER_1 * INVERSE_1 / WORD_RANGE;
    var q2 := MULTIPLIER_2 * INVERSE_2 / WORD_RANGE;
    WrapMulInverse(x, MULTIPLIER_1, INVERSE_1, q1);
    WrapMulInverse(x, INVERSE_1, MULTIPLIER_1, q1);
    WrapMulInverse(x, MULTIPLIER_2, INVERSE_2, q2);
    WrapMulInverse(x, INVERSE_2, MULTIPLIER_2, q2);
  }

  // Every word comes back from its hash ...
  lemma UnhashHash(n: word)
    ensures Unhash(Hash(n)) == n
  {
    var x := XorShift(n, 30);
    var a := WrapMul(x, MULTIPLIER_1);
    var y := XorShift(a, 27);
    UndoAfterShift(n, 30);
    UndoAfterShift(a, 27);
    UndoAfterShift(WrapMul(y, MULTIPLIER_2), 31);
    MultipliersCancel(x);
    MultipliersCancel(y);
  }

  // ... and every word is the hash of one: no 64-bit value is out of reach.
  lemma HashUnhash(h: word)
    ensures Hash(Unhash(h)) == h
  {
    var b := UndoXorShift(h, 31);
    var a := UndoXorShift(WrapMul(b, INVERSE_2), 27);
    ShiftAfterUndo(h, 31);
    ShiftAfterUndo(WrapMul(b, INVERSE_2), 27);
    ShiftAfterUndo(WrapMul(a, INVERSE_1), 30);
    MultipliersCancel(b);
    MultipliersCancel(a);
  }

  lemma HashIsBijection(h: word)
    ensures forall n: word :: Hash(n) == h <==> n == Unhash(h)
  {
    HashUnhash(h);
    forall n: word | Hash(n) == h ensures n == Unhash(h) {
      UnhashHash(n);
    }
  }

  // Where the xor-shifts do nothing, the order of the constants shows: the first
  // multiplication comes after a shift by 30, the second before one by 31.
  lemma HashOfUndone(first: word, second: word, a: word)
    requires first == 0xbf58476d1ce4e5b9 && second == 0x94d049bb133111eb && a < 0x800_0000
    ensures forall n: word :: WrapMul(XorShift(n, 30), first) == a ==> Hash(n) == XorShift(WrapMul(a, second), 31)
  {
    assert ShiftRight(a, 27) == 0 by { Pow2At27(); ShiftOut(a, 27); }
    XorZero(a);
  }

  // ... and between them one by 27.
  lemma HashOfShifted(first: word, second: word, a: word)
    requires first == 0xbf58476d1ce4e5b9 && second == 0x94d049bb133111eb && a == 0x800_0000
    ensures forall n: word :: WrapMul(XorShift(n, 30), first) == a ==> Hash(n) == XorShift(WrapMul(a + 1, second), 31)
  {
    Pow2At27();
    assert ShiftRight(a, 27) == 1 by { QuotientIs(a, Pow2(27), 1, 0); }
    XorBit(a / 2, 0, 0, 1);
    XorZero(a / 2);
  }

  lemma Pow2At27()
    ensures Pow2(27) == 0x800_0000
  {
    assert Pow2(9) == 512;
    Pow2Add(9, 9);
    Pow2Add(18, 9);
  }
}
