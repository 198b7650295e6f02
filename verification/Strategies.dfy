// What the eleven strategies of mutator.c make of a text, and the 37-way schedule that
// picks one. A strategy maps the N characters of its input to the characters it leaves
// in the buffer before the terminator; Mutator.dfy holds the in-place code.
module Strategies {
  import opened Words
  import opened Bytes
  import Decimal
  import Mixer

  const MAX_LENGTH: nat := 1024
  const SCHEDULE_LENGTH: nat := 37

  function Reduce(x: word, n: nat): (r: word)
    requires n > 0
    ensures r < n
  {
    x % n
  }

  // H_{n,m}(x): the m-th position the mixer visits among n.
  function H(n: nat, m: nat, x: word): (h: word)
    ensures n > 0 && m > 0 ==> h < n
  {
    if n == 0 then 0 else if m == 0 then x else Reduce(Mixer.Hash(H(n, m - 1, x)), n)
  }

  function Min(a: nat, b: nat): nat {
    if a < b then a else b
  }

  // [1] Fill with 'a', or cut, to length 2^K.
  function Fill(t: seq<byte>, K: int): seq<byte> {
    var target := FillTarget(K);
    if target > |t| then t + seq(target - |t|, _ => 0x61) else t[..target]
  }

  function FillTarget(K: int): nat {
    Min(Pow2(if K < 0 then 0 else K), MAX_LENGTH)
  }

  // [2] The text K+1 times over; the length is a product of size_t.
  function Duplicate(t: seq<byte>, K: int): seq<byte>
    requires 0 < |t|
  {
    seq(DuplicateLength(|t|, K), (i: nat) => t[i % |t|])
  }

  function DuplicateLength(n: nat, K: int): nat {
    Min((n * (K + 1)) % WORD_RANGE, MAX_LENGTH)
  }

  // [3] L more characters, copied from positions of the text.
  function Lengthen(t: seq<byte>, S: word, L: nat): (r: seq<byte>)
    requires 0 < |t| <= MAX_LENGTH
    ensures t <= r
  {
    t + seq(Min(|t| + L, MAX_LENGTH) - |t|, (i: nat) => t[H(|t|, i + 1, S)])
  }

  // [4] A proper prefix.
  function Truncate(t: seq<byte>, S: word): (r: seq<byte>)
    requires 0 < |t|
    ensures r < t
  {
    t[..H(|t|, 1, S)]
  }

  // The positions that strategies 5 to 11 visit, in order: H_{n,m}(S) for p values of m,
  // from 1 + skip on.
  function Visits(n: nat, S: word, skip: nat, p: nat): (at: seq<nat>)
    ensures |at| == p
    ensures forall i | 0 <= i < p :: at[i] == H(n, i + 1 + skip, S)
    ensures n > 0 ==> Within(at, n)
  {
    if p == 0 then [] else Visits(n, S, skip, p - 1) + [H(n, p + skip, S)]
  }

  predicate Within(at: seq<nat>, n: nat) {
    forall i | 0 <= i < |at| :: at[i] < n
  }

  // [5] to [8]: write a, cut at the end of the text, at each position in turn. The functions
  // named First stop after k positions.
  function Room(n: nat, at: nat, length: nat): nat
    requires at <= n
  {
    if at + length > n then n - at else length
  }

  function Put(t: seq<byte>, at: nat, a: seq<byte>): (r: seq<byte>)
    requires at < |t|
    ensures |r| == |t|
  {
    t[..at] + a[..Room(|t|, at, |a|)] + t[at + Room(|t|, at, |a|)..]
  }

  function Inject(t: seq<byte>, at: seq<nat>, a: seq<byte>): (r: seq<byte>)
    requires Within(at, |t|)
    ensures |r| == |t|
  {
    InjectFirst(t, at, a, |at|)
  }

  function InjectFirst(t: seq<byte>, at: seq<nat>, a: seq<byte>, k: nat): (r: seq<byte>)
    requires Within(at, |t|) && k <= |at|
    ensures |r| == |t|
  {
    if k == 0 then t else Put(InjectFirst(t, at, a, k - 1), at[k - 1], a)
  }

  // [7] The substring that strategy 7 injects: up to L characters from one position on.
  function Slice(t: seq<byte>, from: nat, L: nat): seq<byte>
    requires from < |t|
  {
    t[from..from + Room(|t|, from, L)]
  }

  // [9] Flip the runs of L bits that start at the given bit positions.
  function FlipBit(t: seq<byte>, b: nat): (r: seq<byte>)
    requires b < 8 * |t|
    ensures |r| == |t|
  {
    t[b / 8 := t[b / 8] ^ Mask(b % 8)]
  }

  function FlipRun(t: seq<byte>, from: nat, L: nat): (r: seq<byte>)
    ensures |r| == |t|
  {
    if L == 0 then t
    else if from + L - 1 >= 8 * |t| then FlipRun(t, from, L - 1)
    else FlipBit(FlipRun(t, from, L - 1), from + L - 1)
  }

  function FlipRuns(t: seq<byte>, at: seq<nat>, L: nat): (r: seq<byte>)
    ensures |r| == |t|
  {
    FlipFirst(t, at, L, |at|)
  }

  function FlipFirst(t: seq<byte>, at: seq<nat>, L: nat, k: nat): (r: seq<byte>)
    requires k <= |at|
    ensures |r| == |t|
  {
    if k == 0 then t else FlipRun(FlipFirst(t, at, L, k - 1), at[k - 1], L)
  }

  // [10] and [11]: one up, or one down, at each position.
  function BumpByte(b: byte, up: bool): byte {
    if up then b + 1 else b - 1
  }

  function Bump(t: seq<byte>, at: seq<nat>, up: bool): (r: seq<byte>)
    requires Within(at, |t|)
    ensures |r| == |t|
  {
    BumpFirst(t, at, up, |at|)
  }

  function BumpFirst(t: seq<byte>, at: seq<nat>, up: bool, k: nat): (r: seq<byte>)
    requires Within(at, |t|) && k <= |at|
    ensures |r| == |t|
  {
    if k == 0 then t else
      var r := BumpFirst(t, at, up, k - 1);
      r[at[k - 1] := BumpByte(r[at[k - 1]], up)]
  }

  datatype Mutation =
    | FillTo
    | Repeat
    | Extend(extra: nat)
    | Cut
    | InjectText(text: cstring)
    | InjectNumber
    | InjectSlice(length: nat)
    | InjectChar(c: byte)
    | Flip(bits: nat)
    | Increment
    | Decrement

  // The switch of mutate, entry by entry.
  function Schedule(step: nat): Mutation
    requires step < SCHEDULE_LENGTH
  {
    match step
    case 0 => InjectSlice(1)
    case 1 => InjectText([0x30])                                                        // 0
    case 2 => Extend(4)
    case 3 => InjectText([0x31])                                                        // 1
    case 4 => InjectChar(0x2f)                                                          // /
    case 5 => Extend(7)
    case 6 => Flip(1)
    case 7 => Decrement
    case 8 => Repeat
    case 9 => Extend(1)
    case 10 => InjectText([0x2d, 0x31, 0x32, 0x38])                                     // -128
    case 11 => Extend(8)
    case 12 => InjectText([0x32, 0x31, 0x34, 0x37, 0x34, 0x38, 0x33, 0x36, 0x34, 0x37]) // 2147483647
    case 13 => Flip(4)
    case 14 => InjectText([0x2d, 0x31])                                                 // -1
    case 15 => Extend(2)
    case 16 => InjectText([0x33, 0x32, 0x37, 0x36, 0x37])                               // 32767
    case 17 => FillTo
    case 18 => InjectSlice(2)
    case 19 => InjectChar(0x2e)                                                         // .
    case 20 => Extend(3)
    case 21 => InjectText([0x25, 0x70])                                                 // %p
    case 22 => Cut
    case 23 => InjectNumber
    case 24 => InjectText([0x31, 0x32, 0x37])                                           // 127
    case 25 => InjectChar(0x3b)                                                         // ;
    case 26 => Extend(5)
    case 27 => InjectText([0x2d, 0x33, 0x32, 0x37, 0x36, 0x38])                         // -32768
    case 28 => Increment
    case 29 => InjectText([0x25, 0x73])                                                 // %s
    case 30 => InjectSlice(8)
    case 31 => Flip(8)
    case 32 =>                                                                          // -2147483648
      InjectText([0x2d, 0x32, 0x31, 0x34, 0x37, 0x34, 0x38, 0x33, 0x36, 0x34, 0x38])
    case 33 => InjectChar(0x2c)                                                         // ,
    case 34 => Extend(6)
    case 35 => InjectSlice(4)
    case _ => Flip(2)
  }

  // The int K of mutate for state S, and the number of turns of its loops up to (K + 1) / 2.
  function Cycle(S: word): int {
    Decimal.NarrowToInt(S / SCHEDULE_LENGTH + 1)
  }

  function Places(S: word): nat {
    if Cycle(S) < 0 then 0 else (Cycle(S) + 1) / 2
  }

  // The two strategies that take nothing from beyond the buffer even of a longer text.
  predicate CutsToSize(m: Mutation) {
    m.FillTo? || m.Repeat?
  }

  predicate Fits(t: cstring, m: Mutation) {
    |t| <= MAX_LENGTH || CutsToSize(m)
  }

  // [6] The number that strategy 6 injects.
  function RandomNumber(S: word): cstring {
    Decimal.Text(Decimal.NarrowToInt(Mixer.Hash(S)))
  }

  // The buffer up to its terminator, after one mutation of a nonempty text.
  function Mutated(t: cstring, S: word, m: Mutation): seq<byte>
    requires 0 < |t| && Fits(t, m)
  {
    var n := |t|;
    var at := Visits(n, S, 0, Places(S));
    match m
    case FillTo => Fill(t, Cycle(S))
    case Repeat => Duplicate(t, Cycle(S))
    case Extend(l) => Lengthen(t, S, l)
    case Cut => Truncate(t, S)
    case InjectText(a) => Inject(t, at, a)
    case InjectNumber => Inject(t, at, RandomNumber(S))
    case InjectSlice(l) => Inject(t, Visits(n, S, 1, Places(S)), Slice(t, H(n, 1, S), l))
    case InjectChar(c) => Inject(t, at, [c])
    case Flip(l) => FlipRuns(t, Visits(8 * n, S, 0, Places(S)), l)
    case Increment => Bump(t, at, true)
    case Decrement => Bump(t, at, false)
  }

  function Scheduled(S: word): Mutation {
    Schedule(S % SCHEDULE_LENGTH)
  }

  // The text of the input that mutate returns: make_input stops at the first NUL.
  function MutatedText(t: cstring, S: word): cstring
    requires Fits(t, Scheduled(S))
  {
    if t == [] then [] else UpToNul(Mutated(t, S, Scheduled(S)))
  }

  // What goes out for an input in state S: a copy the first time, a mutant afterwards. A
  // text that does not fit is out of mutate's reach; Ownership.TextsStaySmall shows that
  // none ever arises.
  function SentText(t: cstring, S: word): cstring {
    if S == 0 || !Fits(t, Scheduled(S)) then t else MutatedText(t, S)
  }
}
