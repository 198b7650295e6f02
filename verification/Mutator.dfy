// The in-place strategies of mutator.c over the 1025-byte buffer, and mutate itself. Each
// is proved to leave, before the terminator, what its specification in Strategies makes
// of the text, and to touch nothing outside the buffer.
module Mutator {
  import opened Words
  import opened Bytes
  import opened Strategies
  import opened Inputs
  import Decimal
  import Mixer

  const BUFFER_SIZE: nat := 1025

  method Position(n: nat, m: nat, x: word) returns (res: word)
    ensures res == H(n, m, x)
  {
    if n == 0 {
      return 0;
    }
    res := x;
    for i := 0 to m
      invariant res == H(n, i, x)
    {
      res := Reduce(Mixer.Hash(res), n);
    }
  }

  // The buffer holds a text of N characters and its terminator.
  predicate Terminated(buf: array<byte>, N: nat)
    reads buf
  {
    buf.Length == BUFFER_SIZE && N <= MAX_LENGTH && buf[N] == NUL
  }

  function Text(buf: array<byte>, N: nat): seq<byte>
    requires N <= buf.Length
    reads buf
  {
    buf[..N]
  }

  // What mutate loads of a text of any length: as much as the buffer takes, and a NUL.
  predicate Holds(buf: array<byte>, t: seq<byte>)
    reads buf
  {
    var n := Min(|t|, MAX_LENGTH);
    buf.Length == BUFFER_SIZE && buf[..n] == t[..n] && buf[n] == NUL
  }

  method Target(K: int) returns (target: nat)
    ensures target == FillTarget(K)
  {
    target := 1;
    var i := 0;
    while i < K
      invariant 0 <= i && (K >= 0 ==> i <= K) && (K < 0 ==> i == 0)
      invariant target == Pow2(i) <= MAX_LENGTH
    {
      target := target * 2;
      if target > MAX_LENGTH {
        Pow2Monotone(i + 1, K);
        return MAX_LENGTH;
      }
      i := i + 1;
    }
  }

  method FillToLength(buf: array<byte>, N: nat, K: int, ghost t: seq<byte>) returns (N': nat)
    requires N == |t| && Holds(buf, t)
    modifies buf
    ensures N' == FillTarget(K)
    ensures Terminated(buf, N') && Text(buf, N') == Fill(t, K)
  {
    N' := Target(K);
    if N' > N {
      forall j | N <= j < N' {
        buf[j] := 0x61;
      }
    }
    buf[N'] := NUL;
    assert buf[..N'] == Fill(t, K);
  }

  lemma IndexInCopy(n: nat, copies: nat, j: nat)
    requires j < n
    ensures (n * copies + j) % n == j
  {
    QuotientIs(n * copies + j, n, copies, j);
  }

  method DuplicateText(buf: array<byte>, N: nat, K: int, ghost t: seq<byte>) returns (N': nat)
    requires 0 < N == |t| && Holds(buf, t)
    modifies buf
    ensures N' == DuplicateLength(N, K)
    ensures Terminated(buf, N') && Text(buf, N') == Duplicate(t, K)
  {
    N' := DuplicateLength(N, K);
    forall j: nat | j < N ensures j % N == j {
      IndexInCopy(N, 0, j);
    }
    if N < N' {
      AppendCopies(buf, N, N', t);
    }
    buf[N'] := NUL;
    assert Text(buf, N') == Duplicate(t, K);
  }

  // The copying loop of strategy 2.
  method AppendCopies(buf: array<byte>, N: nat, N': nat, ghost t: seq<byte>)
    requires 0 < N == |t| && N < N' <= MAX_LENGTH && Holds(buf, t)
    modifies buf
    ensures forall i: nat | i < N' :: buf[i] == t[i % N]
  {
    var written := N;
    ghost var copies := 1;
    assert buf[..N] == t;
    forall j: nat | j < N ensures buf[j] == t[j % N] {
      IndexInCopy(N, 0, j);
    }
    while written < N'
      invariant N <= written <= N'
      invariant written < N' ==> written == N * copies
      invariant buf[..N] == t
      invariant forall i: nat | i < written :: buf[i] == t[i % N]
    {
      var length := N;
      if written + length > N' {
        length := N' - written;
      }
      Copy(buf, written, N, length, copies, t);
      written := written + length;
      copies := copies + 1;
      OneMoreCopy(N, copies);
    }
  }

  lemma OneMoreCopy(n: nat, copies: nat)
    ensures n * copies == n * (copies - 1) + n
  {
  }

  // memcpy of the first length bytes to the end of what is written: it never overlaps.
  method Copy(buf: array<byte>, written: nat, N: nat, length: nat, ghost copies: nat, ghost t: seq<byte>)
    requires 0 < N <= written && length <= N && written + length < buf.Length
    requires written == N * copies && buf[..N] == t
    modifies buf
    ensures forall i | 0 <= i < buf.Length && !(written <= i < written + length) :: buf[i] == old(buf[i])
    ensures forall i: nat | written <= i < written + length :: buf[i] == t[i % N]
  {
    forall j | 0 <= j < length {
      buf[written + j] := buf[j];
    }
    forall i: nat | written <= i < written + length ensures buf[i] == t[i % N] {
      IndexInCopy(N, copies, i - written);
      assert buf[written + (i - written)] == t[i - written];
    }
  }

  lemma LengthenNext(t: seq<byte>, S: word, L: nat, i: nat)
    requires 0 < |t| <= MAX_LENGTH && |t| + i < Min(|t| + L, MAX_LENGTH)
    ensures var r := Lengthen(t, S, L); r[..|t| + i + 1] == r[..|t| + i] + [t[H(|t|, i + 1, S)]]
  {
    var r := Lengthen(t, S, L);
    assert r[|t| + i] == t[H(|t|, i + 1, S)];
  }

  method LengthenText(buf: array<byte>, N: nat, S: word, L: nat) returns (N': nat)
    requires 0 < N && Terminated(buf, N)
    modifies buf
    ensures N' == Min(N + L, MAX_LENGTH)
    ensures Terminated(buf, N') && Text(buf, N') == Lengthen(old(Text(buf, N)), S, L)
  {
    ghost var t := Text(buf, N);
    ghost var r := Lengthen(t, S, L);
    N' := Min(N + L, MAX_LENGTH);
    for i := 0 to N' - N
      invariant buf[..N + i] == r[..N + i]
    {
      LengthenNext(t, S, L, i);
      AppendCopyOf(buf, N, N + i, S, i + 1, t);
    }
    buf[N'] := NUL;
    assert r[..N'] == r;
  }

  // One turn: the character at one position of the text goes to the end.
  method AppendCopyOf(buf: array<byte>, N: nat, end: nat, S: word, m: nat, ghost t: seq<byte>)
    requires 0 < N <= end < buf.Length && t == buf[..N] && m > 0
    modifies buf
    ensures buf[..end + 1] == old(buf[..end]) + [t[H(N, m, S)]]
  {
    var from := Position(N, m, S);
    assert buf[from] == buf[..N][from];
    buf[end] := buf[from];
  }

  method TruncateText(buf: array<byte>, N: nat, S: word) returns (N': nat)
    requires 0 < N && Terminated(buf, N)
    modifies buf
    ensures N' == H(N, 1, S)
    ensures Terminated(buf, N') && Text(buf, N') == Truncate(old(Text(buf, N)), S)
  {
    N' := Position(N, 1, S);
    buf[N'] := NUL;
  }

  // memcpy of a, cut at N, to buf + at: one write of strategies 5 to 8.
  method Write(buf: array<byte>, N: nat, at: nat, a: seq<byte>)
    requires at < N && Terminated(buf, N)
    modifies buf
    ensures Terminated(buf, N) && Text(buf, N) == Put(old(Text(buf, N)), at, a)
  {
    var length := |a|;
    if at + length > N {
      length := N - at;
    }
    forall k | 0 <= k < length {
      buf[at + k] := a[k];
    }
    assert buf[..N] == Put(old(Text(buf, N)), at, a);
  }

  // The write loop of strategies 5 to 8.
  method InjectAll(buf: array<byte>, N: nat, S: word, skip: nat, p: nat, a: seq<byte>)
    requires 0 < N && Terminated(buf, N)
    modifies buf
    ensures Terminated(buf, N) && Text(buf, N) == Inject(old(Text(buf, N)), Visits(N, S, skip, p), a)
  {
    ghost var t, at := Text(buf, N), Visits(N, S, skip, p);
    for i := 1 to p + 1
      invariant Terminated(buf, N) && Text(buf, N) == InjectFirst(t, at, a, i - 1)
    {
      var pos := Position(N, i + skip, S);
      Write(buf, N, pos, a);
    }
  }

  method InjectString(buf: array<byte>, N: nat, S: word, p: nat, a: cstring)
    requires 0 < N && Terminated(buf, N)
    modifies buf
    ensures Terminated(buf, N) && Text(buf, N) == Inject(old(Text(buf, N)), Visits(N, S, 0, p), a)
  {
    InjectAll(buf, N, S, 0, p, a);
  }

  method InjectRandomNumber(buf: array<byte>, N: nat, S: word, p: nat)
    requires 0 < N && Terminated(buf, N)
    modifies buf
    ensures Terminated(buf, N) && Text(buf, N) == Inject(old(Text(buf, N)), Visits(N, S, 0, p), RandomNumber(S))
  {
    var number := Decimal.Text(Decimal.NarrowToInt(Mixer.Hash(S)));
    InjectString(buf, N, S, p, number);
  }

  // The substring is taken out before any write, so overlapping writes cannot change it.
  method InjectSubstring(buf: array<byte>, N: nat, S: word, p: nat, L: nat)
    requires 0 < N && Terminated(buf, N)
    modifies buf
    ensures Terminated(buf, N)
    ensures var t := old(Text(buf, N));
            Text(buf, N) == Inject(t, Visits(N, S, 1, p), Slice(t, H(N, 1, S), L))
  {
    var from := Position(N, 1, S);
    var substring := TakeOut(buf, N, from, L);
    InjectAll(buf, N, S, 1, p, substring);
  }

  method TakeOut(buf: array<byte>, N: nat, from: nat, L: nat) returns (substring: seq<byte>)
    requires from < N && Terminated(buf, N)
    ensures substring == Slice(Text(buf, N), from, L)
  {
    var length := L;
    if from + length > N {
      length := N - from;
    }
    substring := buf[from..from + length];
  }

  method InjectCharacter(buf: array<byte>, N: nat, S: word, p: nat, c: byte)
    requires 0 < N && Terminated(buf, N)
    modifies buf
    ensures Terminated(buf, N) && Text(buf, N) == Inject(old(Text(buf, N)), Visits(N, S, 0, p), [c])
  {
    InjectAll(buf, N, S, 0, p, [c]);
  }

  // The bits past the end, where the C loop breaks off, change nothing.
  lemma {:induction false} FlipRunStops(t: seq<byte>, from: nat, j: nat, L: nat)
    requires j <= L && from + j >= 8 * |t|
    ensures FlipRun(t, from, L) == FlipRun(t, from, j)
    decreases L
  {
    if j < L {
      FlipRunStops(t, from, j, L - 1);
    }
  }

  method FlipOneBit(buf: array<byte>, N: nat, bit: nat)
    requires bit < 8 * N && Terminated(buf, N)
    modifies buf
    ensures Terminated(buf, N) && Text(buf, N) == FlipBit(old(Text(buf, N)), bit)
  {
    buf[bit / 8] := buf[bit / 8] ^ Mask(bit % 8);
  }

  lemma FlipRunNext(t: seq<byte>, from: nat, j: nat)
    requires from + j < 8 * |t|
    ensures FlipRun(t, from, j + 1) == FlipBit(FlipRun(t, from, j), from + j)
  {
  }

  // One turn of a run.
  method FlipNextBit(buf: array<byte>, N: nat, from: nat, j: nat, ghost t: seq<byte>)
    requires Terminated(buf, N) && |t| == N && from + j < 8 * N && Text(buf, N) == FlipRun(t, from, j)
    modifies buf
    ensures Terminated(buf, N) && Text(buf, N) == FlipRun(t, from, j + 1)
  {
    FlipRunNext(t, from, j);
    FlipOneBit(buf, N, from + j);
  }

  method FlipBitRun(buf: array<byte>, N: nat, from: nat, L: nat)
    requires Terminated(buf, N)
    modifies buf
    ensures Terminated(buf, N) && Text(buf, N) == FlipRun(old(Text(buf, N)), from, L)
  {
    ghost var t := Text(buf, N);
    var j := 0;
    while j < L
      invariant 0 <= j <= L
      invariant Terminated(buf, N) && Text(buf, N) == FlipRun(t, from, j)
    {
      if from + j >= 8 * N {
        FlipRunStops(t, from, j, L);
        break;
      }
      FlipNextBit(buf, N, from, j, t);
      j := j + 1;
    }
  }

  method FlipBitRuns(buf: array<byte>, N: nat, S: word, p: nat, L: nat)
    requires 0 < N && Terminated(buf, N)
    modifies buf
    ensures Terminated(buf, N) && Text(buf, N) == FlipRuns(old(Text(buf, N)), Visits(8 * N, S, 0, p), L)
  {
    ghost var t, at := Text(buf, N), Visits(8 * N, S, 0, p);
    for i := 1 to p + 1
      invariant Terminated(buf, N) && Text(buf, N) == FlipFirst(t, at, L, i - 1)
    {
      var pos := Position(8 * N, i, S);
      FlipBitRun(buf, N, pos, L);
    }
  }

  method BumpOne(buf: array<byte>, N: nat, pos: nat, up: bool)
    requires pos < N && Terminated(buf, N)
    modifies buf
    ensures Terminated(buf, N)
    ensures var t := old(Text(buf, N)); Text(buf, N) == t[pos := BumpByte(t[pos], up)]
  {
    buf[pos] := BumpByte(buf[pos], up);
  }

  // helpr_strat10 when up, helpr_strat11 otherwise.
  method BumpBytes(buf: array<byte>, N: nat, S: word, p: nat, up: bool)
    requires 0 < N && Terminated(buf, N)
    modifies buf
    ensures Terminated(buf, N) && Text(buf, N) == Bump(old(Text(buf, N)), Visits(N, S, 0, p), up)
  {
    ghost var t, at := Text(buf, N), Visits(N, S, 0, p);
    for i := 1 to p + 1
      invariant Terminated(buf, N) && Text(buf, N) == BumpFirst(t, at, up, i - 1)
    {
      var pos := Position(N, i, S);
      BumpOne(buf, N, pos, up);
    }
  }

  method Apply(buf: array<byte>, N: nat, S: word, m: Mutation, ghost t: cstring) returns (N': nat)
    requires 0 < N == |t| && Holds(buf, t) && Fits(t, m)
    modifies buf
    ensures Terminated(buf, N') && Text(buf, N') == Mutated(t, S, m)
  {
    assert N <= MAX_LENGTH ==> Terminated(buf, N) && Text(buf, N) == t;
    N' := N;
    var p := Places(S);
    match m
    case FillTo => N' := FillToLength(buf, N, Cycle(S), t);
    case Repeat => N' := DuplicateText(buf, N, Cycle(S), t);
    case Extend(l) => N' := LengthenText(buf, N, S, l);
    case Cut => N' := TruncateText(buf, N, S);
    case InjectText(a) => InjectString(buf, N, S, p, a);
    case InjectNumber => InjectRandomNumber(buf, N, S, p);
    case InjectSlice(l) => InjectSubstring(buf, N, S, p, l);
    case InjectChar(c) => InjectCharacter(buf, N, S, p, c);
    case Flip(l) => FlipBitRuns(buf, N, S, p, l);
    case Increment => BumpBytes(buf, N, S, p, true);
    case Decrement => BumpBytes(buf, N, S, p, false);
  }

  // The states for which K + 1 does not overflow the C int that mutate computes it in.
  predicate StateInRange(S: word) {
    Cycle(S) + 1 < 0x8000_0000
  }

  predicate Mutable(input: Input)
    reads input
  {
    StateInRange(input.state) && Fits(input.text, Scheduled(input.state))
  }

  method Mutate(input: Input) returns (r: Input)
    requires input.text != [] ==> Mutable(input)
    modifies input
    ensures fresh(r) && r.state == 0
    ensures r.text == MutatedText(input.text, old(input.state))
    ensures input.state == Next(old(input.state))
  {
    var S := input.StateStep();
    var buffer := [NUL];
    if |input.text| > 0 {
      buffer := MutatedBuffer(input.text, S, Scheduled(S));
    }
    r := new Input(buffer);
  }

  lemma CutAtTerminator(buffer: seq<byte>, N: nat)
    requires N < |buffer| && buffer[N] == NUL
    ensures NUL in buffer && UpToNul(buffer) == UpToNul(buffer[..N])
  {
    assert buffer == buffer[..N] + [NUL] + buffer[N + 1..];
    UpToNulIgnoresRest(buffer[..N], buffer[N + 1..]);
  }

  // The buffer that mutate hands to make_input.
  method MutatedBuffer(t: cstring, S: word, m: Mutation) returns (buffer: seq<byte>)
    requires 0 < |t| && Fits(t, m)
    ensures NUL in buffer && UpToNul(buffer) == UpToNul(Mutated(t, S, m))
  {
    var buf := Load(t);
    var N := Apply(buf, |t|, S, m, t);
    buffer := buf[..];
    CutAtTerminator(buffer, N);
  }

  // memset and strncpy: what fits of the text, then zeros.
  method Load(t: cstring) returns (buf: array<byte>)
    ensures fresh(buf) && Holds(buf, t)
  {
    buf := new byte[BUFFER_SIZE](_ => NUL);
    forall i | 0 <= i < Min(|t|, MAX_LENGTH) {
      buf[i] := t[i];
    }
  }
}
