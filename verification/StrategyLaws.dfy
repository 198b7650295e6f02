// What the strategies promise, stated without their recursions: which write a byte comes
// from, which bits flip, how far a byte moves, and that mutation never leaves the
// NUL-free texts of at most 1024 characters. The laws hold for any sequence of visited
// positions, so for the ones H picks.
module StrategyLaws {
  import opened Words
  import opened Bytes
  import opened Strategies

  // ---------- Injection: the last write wins ----------

  // A write of the given length at position from reaches byte j of n.
  predicate Covers(n: nat, from: nat, length: nat, j: nat) {
    from <= j < from + length && j < n
  }

  // Of the first k writes, the i-th is the last to reach j; or none reaches it.
  predicate LastToCover(n: nat, at: seq<nat>, length: nat, k: nat, i: nat, j: nat)
    requires k <= |at|
  {
    && i < k
    && Covers(n, at[i], length, j)
    && forall m | i < m < k :: !Covers(n, at[m], length, j)
  }

  predicate NoneCovers(n: nat, at: seq<nat>, length: nat, k: nat, j: nat)
    requires k <= |at|
  {
    forall m | 0 <= m < k :: !Covers(n, at[m], length, j)
  }

  lemma PutLaw(t: seq<byte>, at: nat, a: seq<byte>, j: nat)
    requires at < |t| && j < |t|
    ensures Put(t, at, a)[j] == if Covers(|t|, at, |a|, j) then a[j - at] else t[j]
  {
  }

  lemma {:induction false} InjectFirstLaw(t: seq<byte>, at: seq<nat>, a: seq<byte>, k: nat, j: nat)
    requires Within(at, |t|) && k <= |at| && j < |t|
    ensures forall i: nat :: LastToCover(|t|, at, |a|, k, i, j) ==> InjectFirst(t, at, a, k)[j] == a[j - at[i]]
    ensures NoneCovers(|t|, at, |a|, k, j) ==> InjectFirst(t, at, a, k)[j] == t[j]
  {
    if k > 0 {
      InjectFirstLaw(t, at, a, k - 1, j);
      LastWrite(t, at, a, k, j);
      forall i: nat | LastToCover(|t|, at, |a|, k, i, j)
        ensures InjectFirst(t, at, a, k)[j] == a[j - at[i]]
      {
        if i < k - 1 {
          assert LastToCover(|t|, at, |a|, k - 1, i, j);
        }
      }
    }
  }

  lemma LastWrite(t: seq<byte>, at: seq<nat>, a: seq<byte>, k: nat, j: nat)
    requires Within(at, |t|) && 0 < k <= |at| && j < |t|
    ensures InjectFirst(t, at, a, k)[j] ==
            if Covers(|t|, at[k - 1], |a|, j) then a[j - at[k - 1]] else InjectFirst(t, at, a, k - 1)[j]
  {
    PutLaw(InjectFirst(t, at, a, k - 1), at[k - 1], a, j);
  }

  // Byte j of the result comes from the last write that reaches it, or from the text.
  lemma InjectionLaw(t: seq<byte>, at: seq<nat>, a: seq<byte>, j: nat)
    requires Within(at, |t|) && j < |t|
    ensures forall i: nat :: LastToCover(|t|, at, |a|, |at|, i, j) ==> Inject(t, at, a)[j] == a[j - at[i]]
    ensures NoneCovers(|t|, at, |a|, |at|, j) ==> Inject(t, at, a)[j] == t[j]
  {
    InjectFirstLaw(t, at, a, |at|, j);
  }

  // One of the two cases of InjectionLaw always applies.
  lemma {:induction false} SomeWriterOrNone(n: nat, at: seq<nat>, length: nat, k: nat, j: nat)
    requires k <= |at|
    ensures NoneCovers(n, at, length, k, j) || exists i: nat :: LastToCover(n, at, length, k, i, j)
  {
    if k > 0 {
      if Covers(n, at[k - 1], length, j) {
        assert LastToCover(n, at, length, k, k - 1, j);
      } else {
        SomeWriterOrNone(n, at, length, k - 1, j);
        if !NoneCovers(n, at, length, k - 1, j) {
          var i: nat :| LastToCover(n, at, length, k - 1, i, j);
          assert LastToCover(n, at, length, k, i, j);
        }
      }
    }
  }

  lemma {:induction false} InjectNulFree(t: seq<byte>, at: seq<nat>, a: seq<byte>, k: nat)
    requires Within(at, |t|) && k <= |at| && NulFree(t) && NulFree(a)
    ensures NulFree(InjectFirst(t, at, a, k))
  {
    if k > 0 {
      InjectNulFree(t, at, a, k - 1);
    }
  }

  // ---------- Resizing ----------

  lemma ProductExact(n: nat, k: nat)
    requires n <= MAX_LENGTH && k <= 0x7fff_ffff
    ensures (n * k) % WORD_RANGE == n * k
  {
    assert n * k <= MAX_LENGTH * k by { MulMonotone(n, MAX_LENGTH, k); }
  }

  lemma MulMonotone(m: nat, n: nat, k: nat)
    requires m <= n
    ensures m * k <= n * k
  {
  }

  // Mutation.md has K + 1 copies. For texts within the bound the size_t product is exact.
  lemma DuplicateClosedForm(t: seq<byte>, K: int)
    requires 0 < |t| <= MAX_LENGTH && 0 <= K < 0x7fff_ffff
    ensures |Duplicate(t, K)| == Min(|t| * (K + 1), MAX_LENGTH)
  {
    ProductExact(|t|, K + 1);
  }

  // Mutation.md reads the new characters off the mutated text itself. That comes to the
  // same, since every position lies inside the original text.
  lemma LengthenReadsItself(t: seq<byte>, S: word, L: nat, i: nat)
    requires 0 < |t| <= MAX_LENGTH && |t| + i < Min(|t| + L, MAX_LENGTH)
    ensures H(|t|, i + 1, S) < |t|
    ensures Lengthen(t, S, L)[|t| + i] == Lengthen(t, S, L)[H(|t|, i + 1, S)]
  {
  }

  // ---------- Flipping bits: parity ----------

  lemma FlipBitLaw(t: seq<byte>, b: nat, c: nat)
    requires b < 8 * |t| && c < 8 * |t|
    ensures BitAt(FlipBit(t, b), c) == if b == c then !BitAt(t, c) else BitAt(t, c)
  {
    SamePosition(b, c);
    if b / 8 == c / 8 {
      XorMask(t[b / 8], b % 8, c % 8);
    }
  }

  lemma SamePosition(b: nat, c: nat)
    ensures b == c <==> b / 8 == c / 8 && b % 8 == c % 8
  {
  }

  lemma FlipRunStep(t: seq<byte>, from: nat, L: nat, c: nat)
    requires c < 8 * |t| && L > 0
    ensures var before := BitAt(FlipRun(t, from, L - 1), c);
            BitAt(FlipRun(t, from, L), c) == if from + L - 1 == c then !before else before
  {
    if from + L - 1 < 8 * |t| {
      FlipBitLaw(FlipRun(t, from, L - 1), from + L - 1, c);
    }
  }

  lemma {:induction false} FlipRunLaw(t: seq<byte>, from: nat, L: nat, c: nat)
    requires c < 8 * |t|
    ensures BitAt(FlipRun(t, from, L), c) == (BitAt(t, c) != (from <= c < from + L))
  {
    if L > 0 {
      FlipRunLaw(t, from, L - 1, c);
      FlipRunStep(t, from, L, c);
      RunGrows(BitAt(t, c), BitAt(FlipRun(t, from, L - 1), c), BitAt(FlipRun(t, from, L), c), from, L, c);
    }
  }

  lemma RunGrows(first: bool, before: bool, after: bool, from: nat, L: nat, c: nat)
    requires L > 0 && before == (first != (from <= c < from + L - 1))
    requires after == if from + L - 1 == c then !before else before
    ensures after == (first != (from <= c < from + L))
  {
  }

  // The runs, among the first k, that reach bit c, by their index.
  function Runs(at: seq<nat>, L: nat, k: nat, c: nat): set<nat>
    requires k <= |at|
  {
    set i: nat | i < k && at[i] <= c < at[i] + L
  }

  lemma RunsGrow(at: seq<nat>, L: nat, k: nat, c: nat)
    requires 0 < k <= |at|
    ensures |Runs(at, L, k, c)| == |Runs(at, L, k - 1, c)| + if at[k - 1] <= c < at[k - 1] + L then 1 else 0
  {
    if at[k - 1] <= c < at[k - 1] + L {
      assert k - 1 !in Runs(at, L, k - 1, c);
      assert Runs(at, L, k, c) == Runs(at, L, k - 1, c) + {k - 1};
    } else {
      assert Runs(at, L, k, c) == Runs(at, L, k - 1, c);
    }
  }

  lemma {:induction false} FlipFirstParity(t: seq<byte>, at: seq<nat>, L: nat, k: nat, c: nat)
    requires k <= |at| && c < 8 * |t|
    ensures BitAt(FlipFirst(t, at, L, k), c) == (BitAt(t, c) != (|Runs(at, L, k, c)| % 2 == 1))
  {
    if k > 0 {
      FlipFirstParity(t, at, L, k - 1, c);
      FlipRunLaw(FlipFirst(t, at, L, k - 1), at[k - 1], L, c);
      RunsGrow(at, L, k, c);
    } else {
      assert Runs(at, L, 0, c) == {};
    }
  }

  // A bit ends up different exactly when an odd number of runs reach it.
  lemma FlipParity(t: seq<byte>, at: seq<nat>, L: nat, c: nat)
    requires c < 8 * |t|
    ensures BitAt(FlipRuns(t, at, L), c) == (BitAt(t, c) != (|Runs(at, L, |at|, c)| % 2 == 1))
  {
    FlipFirstParity(t, at, L, |at|, c);
  }

  lemma SameText(s: seq<byte>, t: seq<byte>)
    requires |s| == |t|
    requires forall c: nat | c < 8 * |s| :: BitAt(s, c) == BitAt(t, c)
    ensures s == t
  {
    forall i | 0 <= i < |s| ensures s[i] == t[i] {
      forall k: nat | k < 8 ensures Bit(s[i], k) == Bit(t[i], k) {
        assert BitAt(s, 8 * i + k) == BitAt(t, 8 * i + k);
      }
      SameBits(s[i], t[i]);
    }
  }

  lemma FlipTwice(t: seq<byte>, at: seq<nat>, L: nat)
    ensures FlipRuns(FlipRuns(t, at, L), at, L) == t
  {
    var once := FlipRuns(t, at, L);
    forall c: nat | c < 8 * |t| ensures BitAt(FlipRuns(once, at, L), c) == BitAt(t, c) {
      FlipParity(t, at, L, c);
      FlipParity(once, at, L, c);
    }
    SameText(FlipRuns(once, at, L), t);
  }

  // ---------- Incrementing and decrementing: hit counts ----------

  // The visits, among the first k, to byte j, by their index.
  function Hits(at: seq<nat>, k: nat, j: nat): set<nat>
    requires k <= |at|
  {
    set i: nat | i < k && at[i] == j
  }

  lemma HitsGrow(at: seq<nat>, k: nat, j: nat)
    requires 0 < k <= |at|
    ensures |Hits(at, k, j)| == |Hits(at, k - 1, j)| + if at[k - 1] == j then 1 else 0
  {
    if at[k - 1] == j {
      assert Hits(at, k, j) == Hits(at, k - 1, j) + {k - 1};
    } else {
      assert Hits(at, k, j) == Hits(at, k - 1, j);
    }
  }

  // b moved up or down by a number of hits, in a byte.
  function Moved(b: int, hits: nat, up: bool): int {
    if up then (b + hits) % 256 else (b - hits) % 256
  }

  lemma ModuloAgain(x: int, y: int)
    ensures (x % 256 + y) % 256 == (x + y) % 256
  {
    var q := x / 256;
    assert x % 256 + y == x + y - 256 * q;
  }

  lemma MovedStep(b: int, hits: nat, up: bool)
    ensures Moved(Moved(b, hits, up), 1, up) == Moved(b, hits + 1, up)
  {
    ModuloAgain(b + hits, 1);
    ModuloAgain(b - hits, -1);
  }

  lemma MovedBack(b: int, hits: nat, up: bool)
    requires 0 <= b < 256
    ensures Moved(Moved(b, hits, up), hits, !up) == b
  {
    var h: int := hits;
    ModuloAgain(b + h, -h);
    ModuloAgain(b - h, h);
  }

  lemma BumpByteMoves(b: byte, up: bool)
    ensures BumpByte(b, up) as int == Moved(b as int, 1, up)
  {
    BumpWraps(b);
    DropWraps(b);
  }

  lemma OneMoreHit(before: byte, after: byte, b: int, hits: nat, up: bool)
    requires before as int == Moved(b, hits, up) && after == BumpByte(before, up)
    ensures after as int == Moved(b, hits + 1, up)
  {
    BumpByteMoves(before, up);
    MovedStep(b, hits, up);
  }

  lemma {:induction false} BumpFirstCounts(t: seq<byte>, at: seq<nat>, up: bool, k: nat, j: nat)
    requires Within(at, |t|) && k <= |at| && j < |t|
    ensures BumpFirst(t, at, up, k)[j] as int == Moved(t[j] as int, |Hits(at, k, j)|, up)
  {
    if k > 0 {
      BumpFirstCounts(t, at, up, k - 1, j);
      HitsGrow(at, k, j);
      if at[k - 1] == j {
        OneMoreHit(BumpFirst(t, at, up, k - 1)[j], BumpFirst(t, at, up, k)[j], t[j] as int, |Hits(at, k - 1, j)|, up);
      }
    } else {
      assert Hits(at, 0, j) == {};
    }
  }

  // A byte moves by its hit count modulo 256, whatever the order of the visits.
  lemma BumpCounts(t: seq<byte>, at: seq<nat>, up: bool, j: nat)
    requires Within(at, |t|) && j < |t|
    ensures Bump(t, at, up)[j] as int == Moved(t[j] as int, |Hits(at, |at|, j)|, up)
  {
    BumpFirstCounts(t, at, up, |at|, j);
  }

  // [10] and [11] undo each other.
  lemma BumpBack(t: seq<byte>, at: seq<nat>, up: bool)
    requires Within(at, |t|)
    ensures Bump(Bump(t, at, up), at, !up) == t
  {
    var once := Bump(t, at, up);
    forall j | 0 <= j < |t| ensures Bump(once, at, !up)[j] == t[j] {
      BumpCounts(t, at, up, j);
      BumpCounts(once, at, !up, j);
      MovedBack(t[j] as int, |Hits(at, |at|, j)|, up);
      SameNumber(Bump(once, at, !up)[j], t[j]);
    }
  }

  // ---------- Closure ----------

  predicate EditsBits(m: Mutation) {
    m.Flip? || m.Increment? || m.Decrement?
  }

  lemma MutatedLength(t: cstring, S: word, m: Mutation)
    requires 0 < |t| && Fits(t, m)
    ensures |Mutated(t, S, m)| <= MAX_LENGTH
  {
  }

  lemma ResizedNulFree(t: cstring, S: word, K: int, L: nat)
    requires 0 < |t|
    ensures NulFree(Fill(t, K)) && NulFree(Duplicate(t, K))
    ensures |t| <= MAX_LENGTH ==> NulFree(Lengthen(t, S, L)) && NulFree(Truncate(t, S))
  {
  }

  // Every mutation that moves whole characters about leaves no NUL behind.
  lemma MutatedNulFree(t: cstring, S: word, m: Mutation)
    requires 0 < |t| && Fits(t, m)
    requires m.InjectChar? ==> m.c != NUL
    requires !EditsBits(m)
    ensures NulFree(Mutated(t, S, m))
  {
    var n, p := |t|, Places(S);
    match m
    case FillTo => ResizedNulFree(t, S, Cycle(S), 0);
    case Repeat => ResizedNulFree(t, S, Cycle(S), 0);
    case Extend(l) => ResizedNulFree(t, S, 0, l);
    case Cut => ResizedNulFree(t, S, 0, 0);
    case InjectText(a) => InjectNulFree(t, Visits(n, S, 0, p), a, p);
    case InjectNumber => InjectNulFree(t, Visits(n, S, 0, p), RandomNumber(S), p);
    case InjectSlice(l) => InjectNulFree(t, Visits(n, S, 1, p), Slice(t, H(n, 1, S), l), p);
    case InjectChar(c) => InjectNulFree(t, Visits(n, S, 0, p), [c], p);
  }

  // The main closure law: whatever the state, a text of at most 1024 characters mutates
  // into one, and so does a longer one that is cut to size; and nothing is lost at
  // make_input except by the strategies that edit bits.
  lemma MutationCloses(t: cstring, S: word)
    requires Fits(t, Scheduled(S))
    ensures |MutatedText(t, S)| <= MAX_LENGTH
    ensures t != [] && !EditsBits(Scheduled(S)) ==> MutatedText(t, S) == Mutated(t, S, Scheduled(S))
  {
    if t != [] {
      var m := Scheduled(S);
      MutatedLength(t, S, m);
      if !EditsBits(m) {
        MutatedNulFree(t, S, m);
        UpToNulWhole(Mutated(t, S, m));
      }
    }
  }

  // ---------- When strategies 9 to 11 keep the length ----------

  // make_input cuts the text at the first NUL, so the length is kept exactly when the
  // strategy makes none.
  lemma BumpKeepsLength(t: seq<byte>, at: seq<nat>, up: bool)
    requires Within(at, |t|)
    ensures |UpToNul(Bump(t, at, up))| == |t| <==>
            forall j | 0 <= j < |t| :: Moved(t[j] as int, |Hits(at, |at|, j)|, up) != 0
  {
    var r := Bump(t, at, up);
    UpToNulWhole(r);
    forall j | 0 <= j < |t| ensures r[j] == NUL <==> Moved(t[j] as int, |Hits(at, |at|, j)|, up) == 0 {
      BumpCounts(t, at, up, j);
      if r[j] as int == 0 {
        SameNumber(r[j], NUL);
      }
    }
  }

  // Bit k of byte j after the runs.
  predicate BitAfter(t: seq<byte>, at: seq<nat>, L: nat, j: nat, k: nat)
    requires j < |t| && k < 8
  {
    BitAt(t, 8 * j + k) != (|Runs(at, L, |at|, 8 * j + k)| % 2 == 1)
  }

  // Byte j has a bit left after the runs.
  predicate BitLeft(t: seq<byte>, at: seq<nat>, L: nat, j: nat)
    requires j < |t|
  {
    exists k: nat :: k < 8 && BitAfter(t, at, L, j, k)
  }

  lemma FlippedByte(t: seq<byte>, at: seq<nat>, L: nat, j: nat)
    requires j < |t|
    ensures FlipRuns(t, at, L)[j] != NUL <==> BitLeft(t, at, L, j)
  {
    var r := FlipRuns(t, at, L);
    forall k: nat | k < 8 ensures Bit(r[j], k) == BitAfter(t, at, L, j, k) {
      FlipParity(t, at, L, 8 * j + k);
      assert (8 * j + k) / 8 == j && (8 * j + k) % 8 == k;
    }
    SomeBit(r[j]);
  }

  lemma SomeBit(b: byte)
    ensures b != NUL <==> exists k: nat :: k < 8 && Bit(b, k)
  {
    if forall k: nat :: k < 8 ==> !Bit(b, k) {
      forall k: nat | k < 8 ensures Bit(b, k) == Bit(NUL, k) {
      }
      SameBits(b, NUL);
    }
  }

  lemma FlipsKeepLength(t: seq<byte>, at: seq<nat>, L: nat)
    ensures |UpToNul(FlipRuns(t, at, L))| == |t| <==> forall j | 0 <= j < |t| :: BitLeft(t, at, L, j)
  {
    var r := FlipRuns(t, at, L);
    UpToNulWhole(r);
    forall j | 0 <= j < |t| ensures r[j] != NUL <==> BitLeft(t, at, L, j) {
      FlippedByte(t, at, L, j);
    }
  }

  lemma MutatedByBumps(t: cstring, S: word, m: Mutation)
    requires 0 < |t| <= MAX_LENGTH && (m.Increment? || m.Decrement?)
    ensures Mutated(t, S, m) == Bump(t, Visits(|t|, S, 0, Places(S)), m.Increment?)
  {
  }

  lemma BumpsScheduled(S: word, step: nat)
    requires step == S % SCHEDULE_LENGTH && step in {7, 28}
    ensures if step == 28 then Scheduled(S).Increment? else Scheduled(S).Decrement?
  {
    assert Scheduled(S) == Schedule(step);
  }

  // Entries 28 and 7 of the schedule: up and down.
  lemma BumpedText(t: cstring, S: word, up: bool)
    requires 0 < |t| <= MAX_LENGTH && S % SCHEDULE_LENGTH == if up then 28 else 7
    ensures MutatedText(t, S) == UpToNul(Bump(t, Visits(|t|, S, 0, Places(S)), up))
  {
    BumpsScheduled(S, S % SCHEDULE_LENGTH);
    MutatedByBumps(t, S, Scheduled(S));
  }

  // They keep the whole text exactly when no byte is moved around to zero.
  lemma BumpingKeepsLength(t: cstring, S: word, up: bool)
    requires 0 < |t| <= MAX_LENGTH && S % SCHEDULE_LENGTH == if up then 28 else 7
    ensures var at := Visits(|t|, S, 0, Places(S));
            |MutatedText(t, S)| == |t| <==>
            forall j | 0 <= j < |t| :: Moved(t[j] as int, |Hits(at, |at|, j)|, up) != 0
  {
    BumpedText(t, S, up);
    BumpKeepsLength(t, Visits(|t|, S, 0, Places(S)), up);
  }

  lemma MutatedByFlips(t: cstring, S: word, m: Mutation)
    requires 0 < |t| <= MAX_LENGTH && m.Flip?
    ensures Mutated(t, S, m) == FlipRuns(t, Visits(8 * |t|, S, 0, Places(S)), m.bits)
  {
  }

  // Entries 6, 13, 31 and 36 flip 1, 4, 8 and 2 bits.
  function FlipLength(step: nat): nat {
    if step == 6 then 1 else if step == 13 then 4 else if step == 31 then 8 else 2
  }

  lemma FlipsScheduled(S: word, step: nat)
    requires step == S % SCHEDULE_LENGTH && step in {6, 13, 31, 36}
    ensures Scheduled(S).Flip? && Scheduled(S).bits == FlipLength(step)
  {
    assert Scheduled(S) == Schedule(step);
  }

  lemma FlippedText(t: cstring, S: word)
    requires 0 < |t| <= MAX_LENGTH && S % SCHEDULE_LENGTH in {6, 13, 31, 36}
    ensures MutatedText(t, S) ==
            UpToNul(FlipRuns(t, Visits(8 * |t|, S, 0, Places(S)), FlipLength(S % SCHEDULE_LENGTH)))
  {
    FlipsScheduled(S, S % SCHEDULE_LENGTH);
    MutatedByFlips(t, S, Scheduled(S));
  }

  // They keep the whole text exactly when every byte has a bit that ends up set: one that
  // was set and is in an even number of runs, or was not and is in an odd number.
  lemma FlippingKeepsLength(t: cstring, S: word)
    requires 0 < |t| <= MAX_LENGTH && S % SCHEDULE_LENGTH in {6, 13, 31, 36}
    ensures var at := Visits(8 * |t|, S, 0, Places(S)); var L := FlipLength(S % SCHEDULE_LENGTH);
            |MutatedText(t, S)| == |t| <==> forall j | 0 <= j < |t| :: BitLeft(t, at, L, j)
  {
    FlippedText(t, S);
    FlipsKeepLength(t, Visits(8 * |t|, S, 0, Places(S)), FlipLength(S % SCHEDULE_LENGTH));
  }

  // ---------- Texts that are emptied ----------

  lemma FirstTime(S: word)
    requires S < SCHEDULE_LENGTH
    ensures Places(S) == 1
  {
  }

  // The one byte 255, the first time round in state 28; and the one byte 1 in state 7.
  lemma BumpingCanEmpty(t: cstring, S: word, up: bool)
    requires if up then t == [0xff] && S == 28 else t == [0x01] && S == 7
    ensures MutatedText(t, S) == []
  {
    FirstTime(S);
    BumpedText(t, S, up);
    OneVisit(t, Visits(|t|, S, 0, Places(S)), up);
  }

  lemma OneVisit(t: seq<byte>, at: seq<nat>, up: bool)
    requires t == [if up then 0xff else 0x01] && |at| == 1 && Within(at, |t|)
    ensures UpToNul(Bump(t, at, up)) == []
  {
    assert BumpFirst(t, at, up, 0) == t;
    assert Bump(t, at, up)[0] == 0;
  }

  // The one byte whose only bit is the one that state 6 flips.
  lemma FlippingCanEmpty(t: cstring, S: word)
    requires S == 6 && t == [Mask(H(8, 1, S))]
    ensures MutatedText(t, S) == []
  {
    var at := Visits(8 * |t|, S, 0, Places(S));
    FirstTime(S);
    FlippedText(t, S);
    assert at[0] == H(8, 1, S);
    OneFlip(t, at);
  }

  lemma OneFlip(t: seq<byte>, at: seq<nat>)
    requires |at| == 1 && at[0] < 8 && t == [Mask(at[0])]
    ensures UpToNul(FlipRuns(t, at, 1)) == []
  {
    assert FlipFirst(t, at, 1, 0) == t;
    assert FlipRun(t, at[0], 0) == t;
    assert FlipRuns(t, at, 1) == FlipBit(t, at[0]);
    assert FlipBit(t, at[0])[0] == Mask(at[0]) ^ Mask(at[0]) == 0;
  }
}
