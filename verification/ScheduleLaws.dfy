// The 37 entries of mutate's switch, one law for each kind: what comes out of a text in a
// state S, told by S mod 37 in terms of the text, the positions H and the number of places.
// The table of entries is spelled out here once more, in the characters of mutator.c.
module ScheduleLaws {
  import opened Words
  import opened Bytes
  import opened Strategies
  import opened StrategyLaws
  import Decimal
  import Mixer

  // ---------- Positions and places ----------

  // H is the mixer and a reduction, m times over.
  lemma {:induction false} HIterates(n: nat, m: nat, x: word, chain: seq<word>)
    requires |chain| == m + 1 && chain[0] == x && n > 0
    requires forall i | 0 <= i < m :: chain[i + 1] == Mixer.Hash(chain[i]) % n
    ensures H(n, m, x) == chain[m]
  {
    if m > 0 {
      HIterates(n, m - 1, x, chain[..m]);
    }
  }

  // The K of Mutation.md is S / 37 + 1 as an int, and p is half of K + 1; as long as the
  // states are small nothing is lost.
  lemma PlacesAre(S: word, K: int)
    requires -0x8000_0000 <= K < 0x8000_0000 && (S / 37 + 1 - K) % 0x1_0000_0000 == 0
    ensures Cycle(S) == K
    ensures Places(S) == if K < 0 then 0 else (K + 1) / 2
    ensures S < 0x8000_0000 ==> K == S / 37 + 1
  {
    SameResidue(K, Decimal.NarrowToInt(S / 37 + 1), S / 37 + 1);
    if S < 0x8000_0000 {
      SameResidue(K, S / 37 + 1, S / 37 + 1);
    }
  }

  lemma SameResidue(a: int, b: int, w: int)
    requires -0x8000_0000 <= a < 0x8000_0000 && -0x8000_0000 <= b < 0x8000_0000
    requires (w - a) % 0x1_0000_0000 == 0 && (w - b) % 0x1_0000_0000 == 0
    ensures a == b
  {
  }

  // ---------- What an injection leaves ----------

  // The i-th write, counting from 1, reaches character j: it starts at H and is cut at n.
  predicate Writes(n: nat, S: word, skip: nat, length: nat, i: nat, j: nat) {
    H(n, i + skip, S) <= j < H(n, i + skip, S) + length && j < n
  }

  predicate LastWrites(n: nat, S: word, skip: nat, length: nat, i: nat, j: nat) {
    1 <= i <= Places(S) && Writes(n, S, skip, length, i, j)
    && forall m | i < m <= Places(S) :: !Writes(n, S, skip, length, m, j)
  }

  predicate NoneWrites(n: nat, S: word, skip: nat, length: nat, j: nat) {
    forall m | 1 <= m <= Places(S) :: !Writes(n, S, skip, length, m, j)
  }

  // r is t with a written at the places of S: the last write to reach a character decides
  // it, and what none reaches is as it was.
  predicate Injected(t: seq<byte>, S: word, skip: nat, a: seq<byte>, r: seq<byte>) {
    && |r| == |t|
    && forall j | 0 <= j < |t| :: InjectedAt(t, S, skip, a, r, j)
  }

  predicate InjectedAt(t: seq<byte>, S: word, skip: nat, a: seq<byte>, r: seq<byte>, j: nat)
    requires j < |t| && |r| == |t|
  {
    && (forall i: nat | 1 <= i <= Places(S) && LastWrites(|t|, S, skip, |a|, i, j) :: r[j] == a[j - H(|t|, i + skip, S)])
    && (NoneWrites(|t|, S, skip, |a|, j) ==> r[j] == t[j])
  }

  lemma WriteIsCover(n: nat, S: word, skip: nat, length: nat, i: nat, j: nat)
    requires 1 <= i <= Places(S)
    ensures Writes(n, S, skip, length, i, j) <==> Covers(n, Visits(n, S, skip, Places(S))[i - 1], length, j)
  {
    assert Visits(n, S, skip, Places(S))[i - 1] == H(n, i - 1 + 1 + skip, S);
  }

  lemma LastIsLast(n: nat, S: word, skip: nat, length: nat, i: nat, j: nat)
    requires LastWrites(n, S, skip, length, i, j)
    ensures LastToCover(n, Visits(n, S, skip, Places(S)), length, Places(S), i - 1, j)
  {
    var at := Visits(n, S, skip, Places(S));
    WriteIsCover(n, S, skip, length, i, j);
    forall m | i - 1 < m < |at| ensures !Covers(n, at[m], length, j) {
      WriteIsCover(n, S, skip, length, m + 1, j);
      assert !Writes(n, S, skip, length, m + 1, j);
    }
  }

  lemma NoneIsNone(n: nat, S: word, skip: nat, length: nat, j: nat)
    requires NoneWrites(n, S, skip, length, j)
    ensures NoneCovers(n, Visits(n, S, skip, Places(S)), length, Places(S), j)
  {
    var at := Visits(n, S, skip, Places(S));
    forall m | 0 <= m < |at| ensures !Covers(n, at[m], length, j) {
      WriteIsCover(n, S, skip, length, m + 1, j);
      assert !Writes(n, S, skip, length, m + 1, j);
    }
  }

  lemma VisitIs(n: nat, S: word, skip: nat, i: nat)
    requires 1 <= i <= Places(S)
    ensures Visits(n, S, skip, Places(S))[i - 1] == H(n, i + skip, S)
  {
    var k := i - 1;
    assert Visits(n, S, skip, Places(S))[k] == H(n, k + 1 + skip, S);
  }

  lemma LastOf(t: seq<byte>, at: seq<nat>, a: seq<byte>, k: nat, place: nat, j: nat)
    requires Within(at, |t|) && j < |t| && LastToCover(|t|, at, |a|, |at|, k, j) && at[k] == place
    ensures j >= place && j - place < |a| && Inject(t, at, a)[j] == a[j - place]
  {
    InjectionLaw(t, at, a, j);
  }

  lemma LastDecides(t: seq<byte>, S: word, skip: nat, a: seq<byte>, i: nat, j: nat)
    requires j < |t| && LastWrites(|t|, S, skip, |a|, i, j)
    ensures Inject(t, Visits(|t|, S, skip, Places(S)), a)[j] == a[j - H(|t|, i + skip, S)]
  {
    LastIsLast(|t|, S, skip, |a|, i, j);
    VisitIs(|t|, S, skip, i);
    LastOf(t, Visits(|t|, S, skip, Places(S)), a, i - 1, H(|t|, i + skip, S), j);
  }

  lemma NoneKeeps(t: seq<byte>, S: word, skip: nat, a: seq<byte>, j: nat)
    requires j < |t| && NoneWrites(|t|, S, skip, |a|, j)
    ensures Inject(t, Visits(|t|, S, skip, Places(S)), a)[j] == t[j]
  {
    NoneIsNone(|t|, S, skip, |a|, j);
    InjectionLaw(t, Visits(|t|, S, skip, Places(S)), a, j);
  }

  lemma InjectIsInjectedAt(t: seq<byte>, S: word, skip: nat, a: seq<byte>, r: seq<byte>, j: nat)
    requires j < |t| && r == Inject(t, Visits(|t|, S, skip, Places(S)), a)
    ensures InjectedAt(t, S, skip, a, r, j)
  {
    forall i: nat | 1 <= i <= Places(S) && LastWrites(|t|, S, skip, |a|, i, j)
      ensures r[j] == a[j - H(|t|, i + skip, S)]
    {
      LastDecides(t, S, skip, a, i, j);
    }
    if NoneWrites(|t|, S, skip, |a|, j) {
      NoneKeeps(t, S, skip, a, j);
    }
  }

  lemma InjectIsInjected(t: seq<byte>, S: word, skip: nat, a: seq<byte>)
    requires |t| > 0
    ensures Injected(t, S, skip, a, Inject(t, Visits(|t|, S, skip, Places(S)), a))
  {
    var r := Inject(t, Visits(|t|, S, skip, Places(S)), a);
    forall j | 0 <= j < |t| ensures InjectedAt(t, S, skip, a, r, j) {
      InjectIsInjectedAt(t, S, skip, a, r, j);
    }
  }

  // ---------- Literal texts and characters ----------

  predicate CharacterEntry(step: nat, text: string) {
    || (step == 4 && text == "/") || (step == 19 && text == ".") || (step == 25 && text == ";") || (step == 33 && text == ",")
    || (step == 1 && text == "0") || (step == 3 && text == "1")
  }

  predicate ShortEntry(step: nat, text: string) {
    || (step == 10 && text == "-128") || (step == 14 && text == "-1") || (step == 21 && text == "%p")
    || (step == 24 && text == "127") || (step == 29 && text == "%s")
  }

  predicate MiddleEntry(step: nat, text: string) {
    (step == 16 && text == "32767") || (step == 27 && text == "-32768")
  }

  predicate LargestEntry(step: nat, text: string) {
    step == 12 && text == "2147483647"
  }

  predicate SmallestEntry(step: nat, text: string) {
    step == 32 && text == "-2147483648"
  }

  predicate LiteralEntry(step: nat, text: string) {
    CharacterEntry(step, text) || ShortEntry(step, text) || MiddleEntry(step, text) || LargestEntry(step, text)
    || SmallestEntry(step, text)
  }

  predicate Spells(a: seq<byte>, text: string) {
    |a| == |text| && forall i | 0 <= i < |a| :: a[i] as int == text[i] as int
  }

  function Injection(m: Mutation): seq<byte>
    requires m.InjectText? || m.InjectChar?
  {
    if m.InjectText? then m.text else [m.c]
  }

  lemma CharacterScheduled(step: nat, text: string)
    requires step < SCHEDULE_LENGTH && CharacterEntry(step, text)
    ensures Schedule(step).InjectText? || Schedule(step).InjectChar?
    ensures Spells(Injection(Schedule(step)), text)
  {
  }

  lemma ShortScheduled(step: nat, text: string)
    requires step < SCHEDULE_LENGTH && ShortEntry(step, text)
    ensures Schedule(step).InjectText? || Schedule(step).InjectChar?
    ensures Spells(Injection(Schedule(step)), text)
  {
  }

  lemma MiddleScheduled(step: nat, text: string)
    requires step < SCHEDULE_LENGTH && MiddleEntry(step, text)
    ensures Schedule(step).InjectText? || Schedule(step).InjectChar?
    ensures Spells(Injection(Schedule(step)), text)
  {
  }

  lemma LargestScheduled(step: nat, text: string)
    requires step < SCHEDULE_LENGTH && LargestEntry(step, text)
    ensures Schedule(step).InjectText? || Schedule(step).InjectChar?
    ensures Spells(Injection(Schedule(step)), text)
  {
  }

  lemma SmallestScheduled(step: nat, text: string)
    requires step < SCHEDULE_LENGTH && SmallestEntry(step, text)
    ensures Schedule(step).InjectText? || Schedule(step).InjectChar?
    ensures Spells(Injection(Schedule(step)), text)
  {
  }

  lemma LiteralScheduled(step: nat, text: string)
    requires step < SCHEDULE_LENGTH && LiteralEntry(step, text)
    ensures Schedule(step).InjectText? || Schedule(step).InjectChar?
    ensures Spells(Injection(Schedule(step)), text)
  {
    if CharacterEntry(step, text) {
      CharacterScheduled(step, text);
    } else if ShortEntry(step, text) {
      ShortScheduled(step, text);
    } else if MiddleEntry(step, text) {
      MiddleScheduled(step, text);
    } else if LargestEntry(step, text) {
      LargestScheduled(step, text);
    } else {
      SmallestScheduled(step, text);
    }
  }

  lemma SameSpelling(a: seq<byte>, b: seq<byte>, text: string)
    requires Spells(a, text) && Spells(b, text)
    ensures a == b
  {
    forall i | 0 <= i < |a| ensures a[i] == b[i] {
      SameNumber(a[i], b[i]);
    }
  }

  lemma MutatedByInjection(t: cstring, S: word, m: Mutation)
    requires 0 < |t| <= MAX_LENGTH && (m.InjectText? || m.InjectChar?)
    ensures Mutated(t, S, m) == Inject(t, Visits(|t|, S, 0, Places(S)), Injection(m))
  {
  }

  lemma LiteralEntries(t: cstring, S: word, text: string, a: seq<byte>)
    requires 0 < |t| <= MAX_LENGTH && LiteralEntry(S % 37, text) && Spells(a, text)
    ensures Injected(t, S, 0, a, MutatedText(t, S))
  {
    LiteralScheduled(S % 37, text);
    SameSpelling(a, Injection(Scheduled(S)), text);
    MutationCloses(t, S);
    MutatedByInjection(t, S, Scheduled(S));
    InjectIsInjected(t, S, 0, a);
  }

  // ---------- Substrings of the text, and a random number ----------

  predicate SliceEntry(step: nat, L: nat) {
    (step == 0 && L == 1) || (step == 18 && L == 2) || (step == 30 && L == 8) || (step == 35 && L == 4)
  }

  lemma SliceScheduled(step: nat, L: nat)
    requires step < SCHEDULE_LENGTH && SliceEntry(step, L)
    ensures Schedule(step).InjectSlice? && Schedule(step).length == L
  {
  }

  lemma MutatedBySlice(t: cstring, S: word, m: Mutation)
    requires 0 < |t| <= MAX_LENGTH && m.InjectSlice?
    ensures Mutated(t, S, m) == Inject(t, Visits(|t|, S, 1, Places(S)), Slice(t, H(|t|, 1, S), m.length))
  {
  }

  lemma SlicedText(t: cstring, S: word, L: nat)
    requires 0 < |t| <= MAX_LENGTH && SliceEntry(S % 37, L)
    ensures MutatedText(t, S) == Inject(t, Visits(|t|, S, 1, Places(S)), Slice(t, H(|t|, 1, S), L))
  {
    SliceScheduled(S % 37, L);
    MutationCloses(t, S);
    MutatedBySlice(t, S, Scheduled(S));
  }

  // The L characters from the first position on, or those up to the end; the places are the
  // positions from the second on.
  lemma SliceEntries(t: cstring, S: word, L: nat, a: seq<byte>)
    requires 0 < |t| <= MAX_LENGTH && SliceEntry(S % 37, L)
    requires var from := H(|t|, 1, S);
             && |a| == (if from + L <= |t| then L else |t| - from)
             && forall i | 0 <= i < |a| :: a[i] == t[from + i]
    ensures Injected(t, S, 1, a, MutatedText(t, S))
  {
    SlicedText(t, S, L);
    SliceIs(t, H(|t|, 1, S), L, a);
    InjectIsInjected(t, S, 1, a);
  }

  lemma SliceIs(t: seq<byte>, from: nat, L: nat, a: seq<byte>)
    requires from < |t| && |a| == (if from + L <= |t| then L else |t| - from)
    requires forall i | 0 <= i < |a| :: a[i] == t[from + i]
    ensures a == Slice(t, from, L)
  {
  }

  lemma NumberScheduled(step: nat)
    requires step == 23
    ensures Schedule(step).InjectNumber?
  {
  }

  lemma MutatedByNumber(t: cstring, S: word, m: Mutation)
    requires 0 < |t| <= MAX_LENGTH && m.InjectNumber?
    ensures Mutated(t, S, m) == Inject(t, Visits(|t|, S, 0, Places(S)), RandomNumber(S))
  {
  }

  lemma NumberEntry(t: cstring, S: word)
    requires 0 < |t| <= MAX_LENGTH && S % 37 == 23
    ensures Injected(t, S, 0, Decimal.Text(Decimal.NarrowToInt(Mixer.Hash(S))), MutatedText(t, S))
  {
    NumberScheduled(S % 37);
    MutationCloses(t, S);
    MutatedByNumber(t, S, Scheduled(S));
    InjectIsInjected(t, S, 0, RandomNumber(S));
  }

  // ---------- Resizing ----------

  predicate LengthenEntry(step: nat, L: nat) {
    || (step == 2 && L == 4) || (step == 5 && L == 7) || (step == 9 && L == 1) || (step == 11 && L == 8)
    || (step == 15 && L == 2) || (step == 20 && L == 3) || (step == 26 && L == 5) || (step == 34 && L == 6)
  }

  lemma LengthenScheduled(step: nat, L: nat)
    requires step < SCHEDULE_LENGTH && LengthenEntry(step, L)
    ensures Schedule(step).Extend? && Schedule(step).extra == L
  {
  }

  lemma MutatedByLengthening(t: cstring, S: word, m: Mutation)
    requires 0 < |t| <= MAX_LENGTH && m.Extend?
    ensures Mutated(t, S, m) == Lengthen(t, S, m.extra)
  {
  }

  lemma LengthenedCharacter(t: seq<byte>, S: word, L: nat, i: nat)
    requires 0 < |t| <= MAX_LENGTH && |t| + i < |Lengthen(t, S, L)|
    ensures Lengthen(t, S, L)[|t| + i] == t[H(|t|, i + 1, S)]
  {
  }

  // L more characters, as far as there is room; character i of them is the one at H.
  lemma LengthenEntries(t: cstring, S: word, L: nat, i: nat)
    requires 0 < |t| <= MAX_LENGTH && LengthenEntry(S % 37, L)
    ensures var r := MutatedText(t, S);
            && |r| == (if |t| + L <= 1024 then |t| + L else 1024) && t <= r
            && (|t| + i < |r| ==> r[|t| + i] == t[H(|t|, i + 1, S)])
  {
    LengthenScheduled(S % 37, L);
    MutationCloses(t, S);
    MutatedByLengthening(t, S, Scheduled(S));
    if |t| + i < |Lengthen(t, S, L)| {
      LengthenedCharacter(t, S, L, i);
    }
  }

  lemma ResizeScheduled(step: nat)
    requires step in {8, 17, 22}
    ensures match step
            case 8 => Schedule(step).Repeat?
            case 17 => Schedule(step).FillTo?
            case _ => Schedule(step).Cut?
  {
  }

  lemma MutatedByResizing(t: cstring, S: word, m: Mutation)
    requires 0 < |t| <= MAX_LENGTH && (m.Repeat? || m.FillTo? || m.Cut?)
    ensures Mutated(t, S, m) ==
            if m.Repeat? then Duplicate(t, Cycle(S)) else if m.FillTo? then Fill(t, Cycle(S)) else Truncate(t, S)
  {
  }

  // K is the S / 37 + 1 of Mutation.md, narrowed to an int.
  predicate IsK(S: word, K: int) {
    -0x8000_0000 <= K < 0x7fff_ffff && (S / 37 + 1 - K) % 0x1_0000_0000 == 0
  }

  // The size_t product of a negative K + 1 is beyond any bound.
  lemma NegativeProduct(n: nat, k: int)
    requires 0 < n <= MAX_LENGTH && -0x8000_0000 <= k < 0
    ensures (n * k) % WORD_RANGE > MAX_LENGTH
  {
    var x: int := 0 - k;
    MulMonotone(n, MAX_LENGTH, x);
    MulMonotone(1, n, x);
    assert n * k == 0 - n * x;
    NegativeResidue(n * x);
  }

  lemma NegativeResidue(x: int)
    requires 0 < x <= MAX_LENGTH * 0x8000_0000
    ensures (0 - x) % WORD_RANGE > MAX_LENGTH
  {
  }

  // The text over and over, K + 1 times or to the bound; a narrowed K that is negative
  // fills the buffer, or with -1 empties it.
  lemma RepeatEntry(t: cstring, S: word, K: int, i: nat)
    requires 0 < |t| <= MAX_LENGTH && S % 37 == 8 && IsK(S, K)
    ensures var r := MutatedText(t, S);
            && |r| == (if K == -1 then 0 else if K < -1 || |t| * (K + 1) > 1024 then 1024 else |t| * (K + 1))
            && (i < |r| ==> r[i] == t[i % |t|])
  {
    ResizeScheduled(S % 37);
    PlacesAre(S, K);
    MutationCloses(t, S);
    MutatedByResizing(t, S, Scheduled(S));
    RepeatLength(|t|, K);
  }

  lemma RepeatLength(n: nat, K: int)
    requires 0 < n <= MAX_LENGTH && -0x8000_0000 <= K < 0x7fff_ffff
    ensures DuplicateLength(n, K) == if K == -1 then 0 else if K < -1 || n * (K + 1) > 1024 then 1024 else n * (K + 1)
  {
    if K >= 0 {
      ProductExact(n, K + 1);
    } else if K < -1 {
      NegativeProduct(n, K + 1);
    }
  }

  // The text cut, or filled up with 'a', to 2^K characters or the bound.
  lemma FillEntry(t: cstring, S: word, K: int, i: nat)
    requires 0 < |t| <= MAX_LENGTH && S % 37 == 17 && IsK(S, K)
    ensures var r := MutatedText(t, S);
            && |r| == (if K < 0 then 1 else if Pow2(K) <= 1024 then Pow2(K) else 1024)
            && (i < |r| ==> r[i] == if i < |t| then t[i] else 0x61)
  {
    ResizeScheduled(S % 37);
    PlacesAre(S, K);
    MutationCloses(t, S);
    MutatedByResizing(t, S, Scheduled(S));
  }

  lemma CutEntry(t: cstring, S: word)
    requires 0 < |t| <= MAX_LENGTH && S % 37 == 22
    ensures MutatedText(t, S) == t[..H(|t|, 1, S)]
  {
    ResizeScheduled(S % 37);
    MutationCloses(t, S);
    MutatedByResizing(t, S, Scheduled(S));
  }

  // ---------- Bits and bytes ----------

  predicate FlipEntry(step: nat, L: nat) {
    (step == 6 && L == 1) || (step == 13 && L == 4) || (step == 31 && L == 8) || (step == 36 && L == 2)
  }

  // The runs of L bits, from 1 to p, that contain bit c.
  function RunsAt(n: nat, S: word, L: nat, c: nat): set<nat> {
    set i: nat | 1 <= i <= Places(S) && H(8 * n, i, S) <= c < H(8 * n, i, S) + L
  }

  lemma RunsAreVisits(n: nat, S: word, L: nat, c: nat)
    ensures |RunsAt(n, S, L, c)| == |Runs(Visits(8 * n, S, 0, Places(S)), L, Places(S), c)|
  {
    var at := Visits(8 * n, S, 0, Places(S));
    ShiftedSet(Runs(at, L, |at|, c), RunsAt(n, S, L, c));
  }

  lemma {:induction false} ShiftedSet(a: set<nat>, b: set<nat>)
    requires forall i: nat :: i in a <==> i + 1 in b
    requires 0 !in b
    ensures |a| == |b|
    decreases |a|
  {
    if b != {} {
      var x :| x in b;
      assert x - 1 + 1 in b;
      ShiftedSet(a - {x - 1}, b - {x});
    } else {
      assert forall i: nat | i in a :: i + 1 in b;
      assert a == {};
    }
  }

  // The text that is left is, up to its first NUL, the one whose bits differ from the old
  // exactly where an odd number of runs reach.
  lemma FlipEntries(t: cstring, S: word, L: nat, flipped: seq<byte>)
    requires 0 < |t| <= MAX_LENGTH && FlipEntry(S % 37, L) && |flipped| == |t|
    requires forall c: nat | c < 8 * |t| :: BitAt(flipped, c) == (BitAt(t, c) != (|RunsAt(|t|, S, L, c)| % 2 == 1))
    ensures MutatedText(t, S) == UpToNul(flipped)
  {
    var at := Visits(8 * |t|, S, 0, Places(S));
    FlippedText(t, S);
    forall c: nat | c < 8 * |t| ensures BitAt(flipped, c) == BitAt(FlipRuns(t, at, L), c) {
      FlipParity(t, at, L, c);
      RunsAreVisits(|t|, S, L, c);
    }
    SameText(flipped, FlipRuns(t, at, L));
  }

  // The visits, from 1 to p, to byte j.
  function HitsAt(n: nat, S: word, j: nat): set<nat> {
    set i: nat | 1 <= i <= Places(S) && H(n, i, S) == j
  }

  lemma HitsAreVisits(n: nat, S: word, j: nat)
    ensures |HitsAt(n, S, j)| == |Hits(Visits(n, S, 0, Places(S)), Places(S), j)|
  {
    ShiftedSet(Hits(Visits(n, S, 0, Places(S)), Places(S), j), HitsAt(n, S, j));
  }

  // moved is t with each byte moved up, or down, by its visits, modulo 256.
  predicate MovedByHits(t: seq<byte>, S: word, up: bool, moved: seq<byte>) {
    && |moved| == |t|
    && forall j | 0 <= j < |t| :: MovedAt(t, S, up, moved, j)
  }

  predicate MovedAt(t: seq<byte>, S: word, up: bool, moved: seq<byte>, j: nat)
    requires j < |t| == |moved|
  {
    var hits := |HitsAt(|t|, S, j)|;
    moved[j] as int == (if up then t[j] as int + hits else t[j] as int - hits) % 256
  }

  lemma BumpedByte(t: seq<byte>, at: seq<nat>, up: bool, j: nat, hits: nat, b: byte)
    requires Within(at, |t|) && j < |t| && |Hits(at, |at|, j)| == hits
    requires b as int == (if up then t[j] as int + hits else t[j] as int - hits) % 256
    ensures b == Bump(t, at, up)[j]
  {
    BumpCounts(t, at, up, j);
    SameNumber(b, Bump(t, at, up)[j]);
  }

  predicate SameHits(t: seq<byte>, S: word, at: seq<nat>) {
    forall j: nat | j < |t| :: |HitsAt(|t|, S, j)| == |Hits(at, |at|, j)|
  }

  lemma MovedIsBump(t: seq<byte>, S: word, up: bool, moved: seq<byte>, at: seq<nat>)
    requires Within(at, |t|) && SameHits(t, S, at) && MovedByHits(t, S, up, moved)
    ensures moved == Bump(t, at, up)
  {
    forall j | 0 <= j < |t| ensures moved[j] == Bump(t, at, up)[j] {
      assert MovedAt(t, S, up, moved, j);
      BumpedByte(t, at, up, j, |HitsAt(|t|, S, j)|, moved[j]);
    }
  }

  lemma VisitsHit(t: seq<byte>, S: word)
    requires |t| > 0
    ensures Within(Visits(|t|, S, 0, Places(S)), |t|) && SameHits(t, S, Visits(|t|, S, 0, Places(S)))
  {
    forall j: nat | j < |t| ensures |HitsAt(|t|, S, j)| == |Hits(Visits(|t|, S, 0, Places(S)), Places(S), j)| {
      HitsAreVisits(|t|, S, j);
    }
  }

  // Entry 28 moves up, entry 7 down.
  lemma BumpEntries(t: cstring, S: word, moved: seq<byte>)
    requires 0 < |t| <= MAX_LENGTH && S % 37 in {7, 28} && MovedByHits(t, S, S % 37 == 28, moved)
    ensures MutatedText(t, S) == UpToNul(moved)
  {
    BumpedText(t, S, S % 37 == 28);
    VisitsHit(t, S);
    MovedIsBump(t, S, S % 37 == 28, moved, Visits(|t|, S, 0, Places(S)));
  }
}
