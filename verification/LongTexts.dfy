// Texts of more than 1024 characters. mutate takes their whole length N but loads only what
// fits its buffer, so an entry of the schedule may reach past the end. Which ones do?
module LongTexts {
  import opened Words
  import opened Strategies
  import Mutator

  // The stretches of the buffer that a mutation reads or writes when the length is n, as
  // the loops of mutator.c compute them; differences are of size_t.
  datatype Stretch = Stretch(from: nat, length: nat) {
    predicate Inside() {
      length == 0 || from + length <= Mutator.BUFFER_SIZE
    }
  }

  function Windows(n: nat, at: seq<nat>, length: nat): seq<Stretch>
    requires Within(at, n)
  {
    seq(|at|, i requires 0 <= i < |at| => Stretch(at[i], Room(n, at[i], length)))
  }

  // The bytes with the bits of the runs.
  function BitWindows(n: nat, at: seq<nat>, L: nat): seq<Stretch>
    requires Within(at, 8 * n)
  {
    seq(|at|, i requires 0 <= i < |at| =>
      var bits := Room(8 * n, at[i], L);
      Stretch(at[i] / 8, if bits == 0 then 0 else (at[i] + bits - 1) / 8 - at[i] / 8 + 1))
  }

  function Minus(a: nat, b: nat): nat {
    (a - b) % WORD_RANGE
  }

  function Reached(n: nat, S: word, m: Mutation): seq<Stretch>
    requires 0 < n
  {
    var at := Visits(n, S, 0, Places(S));
    match m
    case FillTo => var target := FillTarget(Cycle(S));
      [Stretch(target, 1)] + if target > n then [Stretch(n, target - n)] else []
    case Repeat => var length := DuplicateLength(n, Cycle(S));
      [Stretch(length, 1)] + if n < length then [Stretch(0, length)] else []
    case Extend(l) =>
      [Stretch(n, Minus(Min(n + l, MAX_LENGTH), n)), Stretch(Min(n + l, MAX_LENGTH), 1), Stretch(0, n)]
    case Cut => [Stretch(H(n, 1, S), 1)]
    case InjectText(a) => Windows(n, at, |a|)
    case InjectNumber => Windows(n, at, |RandomNumber(S)|)
    case InjectSlice(l) =>
      var length := Room(n, H(n, 1, S), l);
      [Stretch(H(n, 1, S), length)] + Windows(n, Visits(n, S, 1, Places(S)), length)
    case InjectChar(_) => Windows(n, at, 1)
    case Flip(l) => BitWindows(n, Visits(8 * n, S, 0, Places(S)), l)
    case Increment => Windows(n, at, 1)
    case Decrement => Windows(n, at, 1)
  }

  predicate StaysInside(n: nat, S: word, m: Mutation)
    requires 0 < n
  {
    forall i | 0 <= i < |Reached(n, S, m)| :: Reached(n, S, m)[i].Inside()
  }

  lemma WindowsInside(n: nat, at: seq<nat>, length: nat)
    requires Within(at, n) && n <= MAX_LENGTH
    ensures forall i | 0 <= i < |at| :: Windows(n, at, length)[i].Inside()
  {
  }

  lemma BitWindowsInside(n: nat, at: seq<nat>, L: nat)
    requires Within(at, 8 * n) && n <= MAX_LENGTH
    ensures forall i | 0 <= i < |at| :: BitWindows(n, at, L)[i].Inside()
  {
  }

  // Within the bound every entry does, in every state.
  lemma ShortStaysInside(n: nat, S: word, m: Mutation)
    requires 0 < n <= MAX_LENGTH
    ensures StaysInside(n, S, m)
  {
    var at := Visits(n, S, 0, Places(S));
    match m
    case InjectText(a) => WindowsInside(n, at, |a|);
    case InjectNumber => WindowsInside(n, at, |RandomNumber(S)|);
    case InjectSlice(l) => SliceStaysInside(n, S, m);
    case InjectChar(_) => WindowsInside(n, at, 1);
    case Flip(l) => BitWindowsInside(n, Visits(8 * n, S, 0, Places(S)), l);
    case Increment => WindowsInside(n, at, 1);
    case Decrement => WindowsInside(n, at, 1);
    case _ => ResizeStaysInside(n, S, m);
  }

  lemma SliceStaysInside(n: nat, S: word, m: Mutation)
    requires 0 < n <= MAX_LENGTH && m.InjectSlice?
    ensures StaysInside(n, S, m)
  {
    WindowsInside(n, Visits(n, S, 1, Places(S)), Room(n, H(n, 1, S), m.length));
  }

  lemma ResizeStaysInside(n: nat, S: word, m: Mutation)
    requires 0 < n <= MAX_LENGTH && (m.FillTo? || m.Repeat? || m.Extend? || m.Cut?)
    ensures StaysInside(n, S, m)
  {
  }

  // ---------- Beyond the bound ----------

  // Every write of the given length ends in the buffer, unless it is cut at a text that
  // ends there.
  predicate EndsInside(n: nat, at: seq<nat>, length: nat) {
    n == Mutator.BUFFER_SIZE || forall i | 0 <= i < |at| :: at[i] + length <= Mutator.BUFFER_SIZE
  }

  predicate BitsEndInside(n: nat, at: seq<nat>, L: nat) {
    n == Mutator.BUFFER_SIZE || forall i | 0 <= i < |at| :: at[i] + L <= 8 * Mutator.BUFFER_SIZE
  }

  lemma WindowsLong(n: nat, at: seq<nat>, length: nat)
    requires Within(at, n) && n > MAX_LENGTH && length > 0
    ensures (forall i | 0 <= i < |at| :: Windows(n, at, length)[i].Inside()) <==> EndsInside(n, at, length)
  {
    var w := Windows(n, at, length);
    forall i | 0 <= i < |at|
      ensures w[i].Inside() <==> n == Mutator.BUFFER_SIZE || at[i] + length <= Mutator.BUFFER_SIZE
    {
    }
  }

  lemma BitsInside(n: nat, from: nat, L: nat)
    requires n > MAX_LENGTH && L > 0 && from < 8 * n
    ensures BitWindows(n, [from], L)[0].Inside() <==> n == Mutator.BUFFER_SIZE || from + L <= 8 * Mutator.BUFFER_SIZE
  {
  }

  lemma BitWindowsLong(n: nat, at: seq<nat>, L: nat)
    requires Within(at, 8 * n) && n > MAX_LENGTH && L > 0
    ensures (forall i | 0 <= i < |at| :: BitWindows(n, at, L)[i].Inside()) <==> BitsEndInside(n, at, L)
  {
    var w := BitWindows(n, at, L);
    forall i | 0 <= i < |at|
      ensures w[i].Inside() <==> n == Mutator.BUFFER_SIZE || at[i] + L <= 8 * Mutator.BUFFER_SIZE
    {
      BitsInside(n, at[i], L);
      assert w[i] == BitWindows(n, [at[i]], L)[0];
    }
  }

  // In terms of the visited positions: what an entry may do to a text of n characters.
  predicate LowEnough(n: nat, S: word, m: Mutation)
    requires 0 < n
  {
    var at := Visits(n, S, 0, Places(S));
    match m
    case FillTo => true
    case Repeat => true
    case Extend(_) => false
    case Cut => H(n, 1, S) <= MAX_LENGTH
    case InjectText(a) => EndsInside(n, at, |a|)
    case InjectNumber => EndsInside(n, at, |RandomNumber(S)|)
    case InjectSlice(l) => EndsInside(n, [H(n, 1, S)] + Visits(n, S, 1, Places(S)), l)
    case InjectChar(_) => EndsInside(n, at, 1)
    case Flip(l) => BitsEndInside(n, Visits(8 * n, S, 0, Places(S)), l)
    case Increment => EndsInside(n, at, 1)
    case Decrement => EndsInside(n, at, 1)
  }

  // No entry of the schedule injects or flips nothing.
  predicate Substantial(m: Mutation) {
    match m
    case InjectText(a) => a != []
    case InjectSlice(l) => l > 0
    case Flip(l) => l > 0
    case _ => true
  }

  lemma ScheduleIsSubstantial(step: nat)
    requires step < SCHEDULE_LENGTH
    ensures Substantial(Schedule(step))
  {
  }

  lemma ResizingLong(n: nat, S: word, m: Mutation)
    requires MAX_LENGTH < n < WORD_RANGE && (m.FillTo? || m.Repeat? || m.Extend? || m.Cut?)
    ensures StaysInside(n, S, m) <==> LowEnough(n, S, m)
  {
    if m.Extend? {
      assert !Reached(n, S, m)[0].Inside();
    } else if m.Cut? {
      assert Reached(n, S, m)[0].Inside() <==> H(n, 1, S) <= MAX_LENGTH;
    }
  }

  // How much strategies 5, 6, 8, 10 and 11 write at each position.
  function Written(S: word, m: Mutation): nat {
    match m
    case InjectText(a) => |a|
    case InjectNumber => |RandomNumber(S)|
    case _ => 1
  }

  predicate WritesAtVisits(m: Mutation) {
    m.InjectText? || m.InjectNumber? || m.InjectChar? || m.Increment? || m.Decrement?
  }

  lemma ReachedAtVisits(n: nat, S: word, m: Mutation)
    requires 0 < n && WritesAtVisits(m)
    ensures Reached(n, S, m) == Windows(n, Visits(n, S, 0, Places(S)), Written(S, m))
    ensures LowEnough(n, S, m) <==> EndsInside(n, Visits(n, S, 0, Places(S)), Written(S, m))
  {
  }

  lemma WritingLong(n: nat, S: word, m: Mutation)
    requires MAX_LENGTH < n && WritesAtVisits(m) && Substantial(m)
    ensures StaysInside(n, S, m) <==> LowEnough(n, S, m)
  {
    ReachedAtVisits(n, S, m);
    WindowsLong(n, Visits(n, S, 0, Places(S)), Written(S, m));
  }

  lemma FlippingLong(n: nat, S: word, m: Mutation)
    requires MAX_LENGTH < n && m.Flip? && Substantial(m)
    ensures StaysInside(n, S, m) <==> LowEnough(n, S, m)
  {
    var at := Visits(8 * n, S, 0, Places(S));
    assert Reached(n, S, m) == BitWindows(n, at, m.bits);
    BitWindowsLong(n, at, m.bits);
  }

  // Strategy 7 reads at one position, and writes what it has read at the others.
  lemma SliceWindows(n: nat, from: nat, at: seq<nat>, l: nat)
    requires MAX_LENGTH < n && from < n && Within(at, n) && l > 0
    ensures var length := Room(n, from, l);
            Stretch(from, length).Inside() && (forall i | 0 <= i < |at| :: Windows(n, at, length)[i].Inside())
            <==> EndsInside(n, [from] + at, l)
  {
    var all := [from] + at;
    WindowsLong(n, at, Room(n, from, l));
    assert all[0] == from;
    forall i | 0 <= i < |at| ensures all[i + 1] == at[i] {
    }
    if n != Mutator.BUFFER_SIZE {
      assert (forall i | 0 <= i < |all| :: all[i] + l <= Mutator.BUFFER_SIZE) <==>
             from + l <= Mutator.BUFFER_SIZE && forall i | 0 <= i < |at| :: at[i] + l <= Mutator.BUFFER_SIZE;
    }
  }

  lemma SlicingLong(n: nat, S: word, m: Mutation)
    requires MAX_LENGTH < n && m.InjectSlice? && Substantial(m)
    ensures StaysInside(n, S, m) <==> LowEnough(n, S, m)
  {
    var from, at := H(n, 1, S), Visits(n, S, 1, Places(S));
    var w := Windows(n, at, Room(n, from, m.length));
    var r := Reached(n, S, m);
    SliceWindows(n, from, at, m.length);
    assert r == [Stretch(from, Room(n, from, m.length))] + w;
    assert r[0] == Stretch(from, Room(n, from, m.length));
    forall i | 0 <= i < |at| ensures r[i + 1] == w[i] {
    }
  }

  // Beyond the bound the scheduled entry stays inside the buffer exactly when it is filling
  // or repeating, or is not lengthening and all positions it visits are low enough.
  lemma LongStaysInside(n: nat, S: word)
    requires MAX_LENGTH < n < WORD_RANGE
    ensures StaysInside(n, S, Scheduled(S)) <==> LowEnough(n, S, Scheduled(S))
  {
    var m := Scheduled(S);
    ScheduleIsSubstantial(S % SCHEDULE_LENGTH);
    if WritesAtVisits(m) {
      WritingLong(n, S, m);
    } else if m.InjectSlice? {
      SlicingLong(n, S, m);
    } else if m.Flip? {
      FlippingLong(n, S, m);
    } else {
      ResizingLong(n, S, m);
    }
  }

  // Any longer text leaves the buffer in state 2, whose entry lengthens it by four.
  lemma LongLeaves(n: nat, S: word)
    requires MAX_LENGTH < n < WORD_RANGE && S == 2
    ensures !StaysInside(n, S, Scheduled(S))
  {
    assert Scheduled(S).Extend?;
    LongStaysInside(n, S);
  }
}
