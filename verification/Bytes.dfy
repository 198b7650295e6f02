// Bytes, their bits, and NUL-terminated strings.
module Bytes {
  import opened Words

  type byte = bv8
  const NUL: byte := 0

  predicate NulFree(s: seq<byte>) {
    NUL !in s
  }

  // The characters of a C string, without its terminator.
  type cstring = s: seq<byte> | NulFree(s)

  // What strlen and strdup see of a buffer: everything before the first NUL.
  function UpToNul(s: seq<byte>): (t: cstring)
    ensures t <= s
    ensures |t| < |s| ==> s[|t|] == NUL
  {
    if s == [] || s[0] == NUL then [] else [s[0]] + UpToNul(s[1..])
  }

  lemma {:induction false} UpToNulStopsAtFirst(s: seq<byte>, t: seq<byte>)
    requires NulFree(s)
    ensures UpToNul(s + [NUL] + t) == s
  {
    if s == [] {
      assert (s + [NUL] + t)[0] == NUL;
    } else {
      assert (s + [NUL] + t)[1..] == s[1..] + [NUL] + t;
      UpToNulStopsAtFirst(s[1..], t);
    }
  }

  lemma {:induction false} UpToNulIgnoresRest(s: seq<byte>, t: seq<byte>)
    ensures UpToNul(s + [NUL] + t) == UpToNul(s)
  {
    if s == [] {
      assert (s + [NUL] + t)[0] == NUL;
    } else if s[0] != NUL {
      assert (s + [NUL] + t)[1..] == s[1..] + [NUL] + t;
      UpToNulIgnoresRest(s[1..], t);
    }
  }

  lemma {:induction false} UpToNulWhole(s: seq<byte>)
    ensures |UpToNul(s)| == |s| <==> NulFree(s)
    ensures NulFree(s) ==> UpToNul(s) == s
  {
    if s != [] {
      UpToNulWhole(s[1..]);
      assert s == [s[0]] + s[1..];
    }
  }

  // 1 << k
  function Mask(k: nat): byte
    requires k < 8
  {
    if k == 0 then 1 else if k == 1 then 2 else if k == 2 then 4 else if k == 3 then 8
    else if k == 4 then 16 else if k == 5 then 32 else if k == 6 then 64 else 128
  }

  lemma MaskIs(k: nat)
    requires k < 8
    ensures Mask(k) as int == Pow2(k)
  {
  }

  predicate Bit(b: byte, k: nat)
    requires k < 8
  {
    b & Mask(k) != 0
  }

  // Bit b of a buffer, counting from the lowest bit of its first byte.
  predicate BitAt(s: seq<byte>, b: nat)
    requires b < 8 * |s|
  {
    Bit(s[b / 8], b % 8)
  }

  lemma XorMask(b: byte, k: nat, j: nat)
    requires k < 8 && j < 8
    ensures Bit(b ^ Mask(k), j) == if j == k then !Bit(b, j) else Bit(b, j)
  {
    if j == k {
      assert (b ^ Mask(k)) & Mask(k) == (b & Mask(k)) ^ Mask(k);
    } else {
      assert Mask(k) & Mask(j) == 0;
      assert (b ^ Mask(k)) & Mask(j) == (b & Mask(j)) ^ (Mask(k) & Mask(j));
    }
  }

  lemma OrBits(a: byte, b: byte, k: nat)
    requires k < 8
    ensures Bit(a | b, k) == (Bit(a, k) || Bit(b, k))
  {
  }

  lemma OrMask(b: byte, k: nat, j: nat)
    requires k < 8 && j < 8
    ensures Bit(b | Mask(k), j) == (Bit(b, j) || j == k)
  {
  }

  // A byte is its eight bits.
  lemma SameBits(a: byte, b: byte)
    requires forall k: nat | k < 8 :: Bit(a, k) == Bit(b, k)
    ensures a == b
  {
    assert Bit(a, 0) == Bit(b, 0);
    assert Bit(a, 1) == Bit(b, 1);
    assert Bit(a, 2) == Bit(b, 2);
    assert Bit(a, 3) == Bit(b, 3);
    assert Bit(a, 4) == Bit(b, 4);
    assert Bit(a, 5) == Bit(b, 5);
    assert Bit(a, 6) == Bit(b, 6);
    assert Bit(a, 7) == Bit(b, 7);
  }

  // b++ and b-- wrap around at 256.
  lemma BumpWraps(b: byte)
    ensures (b + 1) as int == (b as int + 1) % 256
  {
  }

  lemma DropWraps(b: byte)
    ensures (b - 1) as int == (b as int - 1) % 256
  {
  }

  lemma SameNumber(a: byte, b: byte)
    requires a as int == b as int
    ensures a == b
  {
  }
}
