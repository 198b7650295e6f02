// Who holds each input. In every campaign an input is queued once, or in flight with one
// runner, or neither, and never both; what has been freed is in neither place and is not
// freed again; queued texts stay distinct; and a queued input's mutation state is the
// number of times it has been dequeued.
module Ownership {
  import opened Prelude
  import opened Words
  import opened Bytes
  import opened RunnerLists
  import opened Dispatch
  import opened DispatchSafety
  import opened QueueSchedule
  import opened Coverage
  import opened Campaign
  import Strategies
  import StrategyLaws
  import Inputs
  import Termination

  // ---------- Inputs in flight ----------

  // The runners whose active input is still owed a verdict.
  function Flying(s: State): set<Rid> {
    (set r | r in s.lists.active) + (set r | r in s.lists.done) + (if s.pc.Handling? then {s.pc.runner} else {})
  }

  function Flight(s: State): set<InputRef> {
    set r | r in Flying(s) && r in s.runners && s.runners[r].activeInput.Some? :: s.runners[r].activeInput.value
  }

  predicate FlightDistinct(s: State) {
    forall q, r | q in Flying(s) && r in Flying(s) && q in s.runners && r in s.runners && q != r ::
      s.runners[q].activeInput != s.runners[r].activeInput
  }

  // Nobody joins the flight or changes input in it.
  predicate FlightShrinks(s: State, t: State) {
    forall r | r in Flying(t) && r in t.runners ::
      r in Flying(s) && r in s.runners && t.runners[r].activeInput == s.runners[r].activeInput
  }

  lemma ShrinkFacts(s: State, t: State)
    requires FlightDistinct(s) && FlightShrinks(s, t)
    ensures FlightDistinct(t) && Flight(t) <= Flight(s)
  {
  }

  lemma FlyingRunnerStep(s: State, a: Action)
    requires Inv(s) && Enabled(s, a)
    requires a.Receive? || a.Finish? || a.Write? || a.Kill? || a.Die?
    ensures FlightShrinks(s, Apply(s, a))
  {
    var t := Apply(s, a);
    assert t.lists == s.lists && t.pc == s.pc;
  }

  lemma FlyingMoveStep(s: State, a: Action)
    requires Inv(s) && Enabled(s, a)
    requires a.Enter? || a.Leave? || a.Poll? || a.Select? || a.Collected? || a.QueueEmpty? || a.StopSending? || a.Decide? || a.Wake?
    ensures FlightShrinks(s, Apply(s, a))
  {
    var t := Apply(s, a);
    assert t.lists == s.lists && t.runners == s.runners && !t.pc.Handling?;
  }

  lemma FlyingListStep(s: State, a: Action)
    requires Inv(s) && Enabled(s, a)
    requires a.Sort? || a.Reap? || a.Take?
    ensures FlightShrinks(s, Apply(s, a))
  {
    match a
    case Sort =>
      OnlyMembers(s.lists.active, s.pc.readable);
      ExceptMembers(s.lists.active, s.pc.readable);
    case Reap(exited) =>
      ExceptMembers(s.lists.active, exited);
      ExceptMembers(s.lists.done, exited);
    case Take =>
      HeadAndTail(s.lists.done);
  }

  lemma FlyingStep(s: State, a: Action)
    requires Inv(s) && Enabled(s, a) && !a.Send? && !a.Handle?
    ensures FlightShrinks(s, Apply(s, a))
  {
    if a.Sort? || a.Reap? || a.Take? {
      FlyingListStep(s, a);
    } else if a.Receive? || a.Finish? || a.Write? || a.Kill? || a.Die? {
      FlyingRunnerStep(s, a);
    } else {
      FlyingMoveStep(s, a);
    }
  }

  // Handling takes exactly one runner, and so one input, out of the flight.
  lemma FlyingHandle(s: State)
    requires Inv(s) && FlightDistinct(s) && Enabled(s, Handle)
    ensures s.runners[s.pc.runner].activeInput.Some?
    ensures var t := Apply(s, Handle); var i := s.runners[s.pc.runner].activeInput.value;
            i in Flight(s) && FlightDistinct(t) && Flight(t) <= Flight(s) - {i}
  {
    var t, r := Apply(s, Handle), s.pc.runner;
    assert r in s.lists.ready && r in Flying(s);
    assert r !in Flying(t);
    assert FlightShrinks(s, t);
    ShrinkFacts(s, t);
  }

  // A send that goes through puts one input into it; one that fails puts none.
  lemma FlyingSend(s: State, input: InputRef, ok: bool)
    requires Inv(s) && FlightDistinct(s) && Enabled(s, Send(input, ok)) && input !in Flight(s)
    ensures var t := DoSend(s, input, ok);
            FlightDistinct(t) && Flight(t) <= Flight(s) + if ok then {input} else {}
  {
    var t, x := DoSend(s, input, ok), s.lists.ready[0];
    HeadAndTail(s.lists.ready);
    forall r | r in Flying(t) && r in t.runners && !(ok && r == x)
      ensures r in Flying(s) && r in s.runners && t.runners[r].activeInput == s.runners[r].activeInput
      ensures t.runners[r].activeInput.Some? ==> t.runners[r].activeInput.value in Flight(s)
    {
      assert r in t.lists.active;
    }
  }

  // ---------- The queue, the free list and the log ----------

  predicate InQueue(c: Campaign, i: InputRef) {
    i in c.queue.high || i in c.queue.low
  }

  function Count(s: seq<InputRef>, i: InputRef): nat {
    if s == [] then 0 else Count(s[..|s| - 1], i) + if s[|s| - 1] == i then 1 else 0
  }

  lemma {:induction false} CountBound(s: seq<InputRef>, i: InputRef)
    ensures Count(s, i) <= |s| && (i !in s ==> Count(s, i) == 0)
  {
    if s != [] {
      CountBound(s[..|s| - 1], i);
    }
  }

  predicate DistinctTexts(c: Campaign, s: seq<InputRef>) {
    forall i, j | 0 <= i < j < |s| :: TextOf(c, s[i]) != TextOf(c, s[j])
  }

  predicate ApartTexts(c: Campaign, s: seq<InputRef>, t: seq<InputRef>) {
    forall i, j | i in s && j in t :: TextOf(c, i) != TextOf(c, j)
  }

  // No text is queued twice, in one list or across the two; so no input is either.
  predicate NoDuplicates(c: Campaign) {
    DistinctTexts(c, c.queue.high) && DistinctTexts(c, c.queue.low) && ApartTexts(c, c.queue.high, c.queue.low)
  }

  predicate QueuedOk(c: Campaign, flight: set<InputRef>, i: InputRef) {
    i < c.created && i !in c.freed && i !in flight && StateOf(c, i) == Count(c.served, i)
  }

  predicate FlyingOk(c: Campaign, i: InputRef) {
    i < c.created && i !in c.freed && i !in c.served && StateOf(c, i) == 0
  }

  predicate Books(c: Campaign) {
    && (forall i | i in c.freed :: i < c.created)
    && (forall i | i in c.served :: i < c.created)
    && (forall i | i in c.text :: i < c.created && |c.text[i]| <= Strategies.MAX_LENGTH)
    && (forall i | i in c.state :: i < c.created)
    && c.queue.cycle < 10
  }

  predicate Owned(c: Campaign, flight: set<InputRef>) {
    && NoDuplicates(c) && Books(c)
    && (forall i | i in c.queue.high :: QueuedOk(c, flight, i))
    && (forall i | i in c.queue.low :: QueuedOk(c, flight, i))
    && (forall i | i in flight :: FlyingOk(c, i))
  }

  lemma OwnedSmaller(c: Campaign, flight: set<InputRef>, less: set<InputRef>)
    requires Owned(c, flight) && less <= flight
    ensures Owned(c, less)
  {
  }

  lemma SameTextsDistinct(c: Campaign, c': Campaign)
    requires NoDuplicates(c) && c'.queue == c.queue
    requires forall i | i in c.queue.high || i in c.queue.low :: TextOf(c', i) == TextOf(c, i)
    ensures NoDuplicates(c')
  {
    var h, l := c.queue.high, c.queue.low;
    forall i, j | 0 <= i < j < |h| ensures TextOf(c', h[i]) != TextOf(c', h[j]) {
      assert h[i] in h && h[j] in h;
    }
    forall i, j | 0 <= i < j < |l| ensures TextOf(c', l[i]) != TextOf(c', l[j]) {
      assert l[i] in l && l[j] in l;
    }
  }

  lemma MakeOwned(c: Campaign, flight: set<InputRef>, text: cstring)
    requires Owned(c, flight) && |text| <= Strategies.MAX_LENGTH
    ensures Owned(Make(c, text), flight + {c.created})
  {
    var c' := Make(c, text);
    forall i | i in c.queue.high || i in c.queue.low
      ensures QueuedOk(c', flight + {c.created}, i) && TextOf(c', i) == TextOf(c, i)
    {
      assert QueuedOk(c, flight, i);
    }
    SameTextsDistinct(c, c');
    forall i | i in flight ensures FlyingOk(c', i) {
      assert FlyingOk(c, i);
    }
  }

  lemma FreeOwned(c: Campaign, flight: set<InputRef>, i: InputRef)
    requires Owned(c, flight) && i in flight
    ensures i !in c.freed
    ensures Owned(Free(c, i), flight - {i})
  {
    var c' := Free(c, i);
    assert FlyingOk(c, i);
    forall j | j in c.queue.high || j in c.queue.low ensures QueuedOk(c', flight - {i}, j) {
      assert QueuedOk(c, flight, j);
    }
    forall j | j in flight - {i} ensures FlyingOk(c', j) {
      assert FlyingOk(c, j);
    }
  }

  lemma EnqueueOwned(c: Campaign, flight: set<InputRef>, i: InputRef, high: bool)
    requires Owned(c, flight) && i in flight
    ensures Owned(Enqueue(c, i, high), flight - {i})
  {
    if IsDuplicate(c, TextOf(c, i)) {
      FreeOwned(c, flight, i);
    } else {
      var c' := Enqueue(c, i, high);
      assert FlyingOk(c, i);
      CountBound(c.served, i);
      forall j | j in c'.queue.high || j in c'.queue.low ensures QueuedOk(c', flight - {i}, j) {
        if j != i {
          assert QueuedOk(c, flight, j);
        }
      }
      forall j | j in flight - {i} ensures FlyingOk(c', j) {
        assert FlyingOk(c, j);
      }
      EnqueueDistinct(c, i, high);
    }
  }

  lemma EnqueueDistinct(c: Campaign, i: InputRef, high: bool)
    requires NoDuplicates(c) && !IsDuplicate(c, TextOf(c, i))
    ensures NoDuplicates(Enqueue(c, i, high))
  {
    if high {
      AppendTexts(c, c.queue.high, c.queue.low, i);
      SameTexts(c, Enqueue(c, i, high), c.queue.high + [i], c.queue.low);
    } else {
      AppendTexts(c, c.queue.low, c.queue.high, i);
      SameTexts(c, Enqueue(c, i, high), c.queue.low + [i], c.queue.high);
    }
  }

  lemma AppendTexts(c: Campaign, s: seq<InputRef>, t: seq<InputRef>, i: InputRef)
    requires DistinctTexts(c, s) && DistinctTexts(c, t) && ApartTexts(c, s, t)
    requires forall j | j in s || j in t :: TextOf(c, j) != TextOf(c, i)
    ensures DistinctTexts(c, s + [i]) && ApartTexts(c, s + [i], t)
  {
    forall k | 0 <= k < |s| ensures TextOf(c, s[k]) != TextOf(c, i) {
      assert s[k] in s;
    }
  }

  lemma RotateDistinct(c: Campaign, s: seq<InputRef>)
    requires s != [] && DistinctTexts(c, s)
    ensures DistinctTexts(c, Rotate(s)) && forall i :: i in Rotate(s) <==> i in s
  {
    var r := Rotate(s);
    assert s == [s[0]] + s[1..];
    forall i, j | 0 <= i < j < |s| ensures TextOf(c, r[i]) != TextOf(c, r[j]) {
      if j == |s| - 1 {
        assert TextOf(c, s[0]) != TextOf(c, s[i + 1]);
      }
    }
  }

  // dequeue_input followed by input_state_step.
  function Served(c: Campaign): Campaign
    requires !c.queue.Empty()
  {
    var i := c.queue.Front();
    c.(queue := c.queue.Dequeued(), served := c.served + [i], state := c.state[i := Inputs.Next(StateOf(c, i))])
  }

  lemma CountSnoc(s: seq<InputRef>, x: InputRef, i: InputRef)
    ensures Count(s + [x], i) == Count(s, i) + if x == i then 1 else 0
  {
    assert (s + [x])[..|s|] == s;
  }

  lemma ServedCounts(c: Campaign, flight: set<InputRef>, j: InputRef)
    requires Owned(c, flight) && !c.queue.Empty() && |c.served| + 1 < WORD_RANGE && QueuedOk(c, flight, j)
    ensures QueuedOk(Served(c), flight, j)
  {
    CountSnoc(c.served, c.queue.Front(), j);
    CountBound(c.served, j);
  }

  lemma ServedDistinct(c: Campaign)
    requires NoDuplicates(c) && !c.queue.Empty()
    ensures NoDuplicates(Served(c))
    ensures forall j :: InQueue(Served(c), j) <==> InQueue(c, j)
  {
    var c' := Served(c);
    if c.queue.TakesHigh() {
      RotateDistinct(c, c.queue.high);
      SameTexts(c, c', Rotate(c.queue.high), c.queue.low);
    } else {
      RotateDistinct(c, c.queue.low);
      SameTexts(c, c', c.queue.high, Rotate(c.queue.low));
    }
  }

  lemma SameTexts(c: Campaign, c': Campaign, s: seq<InputRef>, t: seq<InputRef>)
    requires c'.text == c.text && DistinctTexts(c, s) && DistinctTexts(c, t) && ApartTexts(c, s, t)
    ensures DistinctTexts(c', s) && DistinctTexts(c', t) && ApartTexts(c', s, t)
  {
  }

  lemma ServedOwned(c: Campaign, flight: set<InputRef>)
    requires Owned(c, flight) && !c.queue.Empty() && |c.served| + 1 < WORD_RANGE
    ensures Owned(Served(c), flight)
  {
    var i, c' := c.queue.Front(), Served(c);
    assert i in c.queue.high || i in c.queue.low;
    assert QueuedOk(c, flight, i);
    ServedDistinct(c);
    forall j | j in c'.queue.high || j in c'.queue.low ensures QueuedOk(c', flight, j) {
      assert InQueue(c', j) && InQueue(c, j);
      ServedCounts(c, flight, j);
    }
    forall j | j in flight ensures FlyingOk(c', j) {
      assert FlyingOk(c, j);
    }
  }

  // ---------- The invariant of a campaign ----------

  // Within these bounds the counters and mutation states of the source fit its integers.
  predicate Bounded(c: Campaign) {
    c.d.target + c.jobs < 0x8000_0000
  }

  predicate SendsCounted(c: Campaign) {
    && |c.served| == c.d.sent + c.failedSends
    && c.failedSends + Sizes(c.d.lists) <= c.jobs
  }

  predicate CampaignInv(c: Campaign) {
    Inv(c.d) && FlightDistinct(c.d) && Owned(c, Flight(c.d)) && SendsCounted(c) && Bounded(c)
  }

  lemma ServedBound(c: Campaign)
    requires Inv(c.d) && SendsCounted(c) && Bounded(c)
    ensures |c.served| <= c.d.target + c.jobs
  {
  }

  lemma OwnedElsewhere(c: Campaign, c': Campaign, flight: set<InputRef>)
    requires Owned(c, flight) && c' == c.(d := c'.d, failedSends := c'.failedSends)
    ensures Owned(c', flight)
  {
    SameTextsDistinct(c, c');
    forall i | i in c.queue.high || i in c.queue.low ensures QueuedOk(c', flight, i) {
      assert QueuedOk(c, flight, i);
    }
    forall i | i in flight ensures FlyingOk(c', i) {
      assert FlyingOk(c, i);
    }
  }

  function Sizes(l: Lists): nat {
    |l.ready| + |l.active| + |l.done|
  }

  lemma ListsShrink(l: Lists, exited: set<Rid>)
    ensures Sizes(l.Checked(exited)) == Sizes(l) && Sizes(l.Reaped(exited)) <= Sizes(l)
  {
    FiltersSplit(l.active, |l.active|, exited);
    FiltersSplit(l.ready, |l.ready|, exited);
    FiltersSplit(l.done, |l.done|, exited);
  }

  lemma SendCountsKept(s: State, a: Action)
    requires Inv(s) && Enabled(s, a)
    ensures var t := Apply(s, a);
            && t.target == s.target
            && t.sent == s.sent + (if a.Send? && a.ok then 1 else 0)
            && Sizes(t.lists) <= Sizes(s.lists) - (if a.Send? && !a.ok then 1 else 0)
  {
    Termination.TargetStep(s, a);
    if a.Sort? {
      ListsShrink(s.lists, s.pc.readable);
    } else if a.Reap? {
      ListsShrink(s.lists, a.exited);
    }
  }

  lemma SentIsSmall(t: cstring, S: word)
    requires |t| <= Strategies.MAX_LENGTH
    ensures |Strategies.SentText(t, S)| <= Strategies.MAX_LENGTH
  {
    StrategyLaws.MutationCloses(t, S);
  }

  lemma DispatchedOwned(c: Campaign, ok: bool, flight: set<InputRef>)
    requires Owned(c, flight) && !c.queue.Empty() && |c.served| + 1 < WORD_RANGE
    ensures c.created !in c.freed && c.created !in flight
    ensures Owned(Dispatched(c, ok), flight + if ok then {c.created} else {})
  {
    var i := c.queue.Front();
    var text := Strategies.SentText(TextOf(c, i), StateOf(c, i));
    SentIsSmall(TextOf(c, i), StateOf(c, i));
    forall j | j in flight ensures j != c.created {
      assert FlyingOk(c, j);
    }
    ServedOwned(c, flight);
    MakeOwned(Served(c), flight, text);
    if !ok {
      var c2 := Make(Served(c), text);
      FreeOwned(c2, flight + {c.created}, c.created);
      assert flight + {c.created} - {c.created} == flight;
      OwnedElsewhere(Free(c2, c.created), Dispatched(c, false), flight);
      assert flight + {} == flight;
    }
  }

  lemma HandledOwned(c: Campaign, i: InputRef, reply: Option<Status>, verdict: Priority, flight: set<InputRef>)
    requires Owned(c, flight) && i in flight
    ensures Owned(Handled(c, i, reply, verdict), flight - {i})
  {
    FreeOwned(c, flight, i);
    EnqueueOwned(c, flight, i, true);
    EnqueueOwned(c, flight, i, false);
    OwnedSmaller(c, flight, flight - {i});
  }

  lemma SendStepOwned(c: Campaign, e: Event)
    requires CampaignInv(c) && Possible(c, e) && e.a.Send?
    ensures FlightDistinct(Step(c, e).d) && Owned(Step(c, e), Flight(Step(c, e).d))
  {
    var flight := Flight(c.d);
    ServedBound(c);
    DispatchedOwned(c, e.a.ok, flight);
    FlyingSend(c.d, e.a.input, e.a.ok);
    FinishStep(Dispatched(c, e.a.ok), Step(c, e), flight + if e.a.ok then {c.created} else {});
  }

  lemma HandleStepOwned(c: Campaign, e: Event)
    requires CampaignInv(c) && Possible(c, e) && e.a.Handle?
    ensures Tested(c).Some?
    ensures FlightDistinct(Step(c, e).d) && Owned(Step(c, e), Flight(Step(c, e).d))
  {
    var s, flight := c.d, Flight(c.d);
    FlyingHandle(s);
    var i := Tested(c).value;
    HandledOwned(c, i, s.pc.reply, e.verdict, flight);
    FinishStep(Handled(c, i, s.pc.reply, e.verdict), Step(c, e), flight - {i});
  }

  lemma OtherStepOwned(c: Campaign, e: Event)
    requires CampaignInv(c) && Possible(c, e) && !e.a.Send? && !e.a.Handle?
    ensures FlightDistinct(Step(c, e).d) && Owned(Step(c, e), Flight(Step(c, e).d))
  {
    FlyingStep(c.d, e.a);
    ShrinkFacts(c.d, Apply(c.d, e.a));
    FinishStep(c, Step(c, e), Flight(c.d));
  }

  lemma StepCounts(c: Campaign, e: Event)
    requires Inv(c.d) && SendsCounted(c) && Bounded(c) && Possible(c, e)
    ensures SendsCounted(Step(c, e)) && Bounded(Step(c, e))
  {
    SendCountsKept(c.d, e.a);
  }

  lemma StepKeepsCampaign(c: Campaign, e: Event)
    requires CampaignInv(c) && Possible(c, e)
    ensures CampaignInv(Step(c, e))
  {
    StepKeeps(c.d, e.a);
    StepCounts(c, e);
    if e.a.Send? {
      SendStepOwned(c, e);
    } else if e.a.Handle? {
      HandleStepOwned(c, e);
    } else {
      OtherStepOwned(c, e);
    }
  }

  lemma FinishStep(c: Campaign, c': Campaign, flight: set<InputRef>)
    requires Owned(c, flight) && c' == c.(d := c'.d) && Flight(c'.d) <= flight
    ensures Owned(c', Flight(c'.d))
  {
    OwnedSmaller(c, flight, Flight(c'.d));
    OwnedElsewhere(c, c', Flight(c'.d));
  }

  // ---------- Seeds ----------

  lemma {:induction false} LoadOwned(d: State, seeds: seq<cstring>)
    requires forall t | t in seeds :: |t| <= Strategies.MAX_LENGTH
    ensures var c := Load(d, seeds);
            && Owned(c, {}) && c.d == d && c.served == [] && c.failedSends == 0 && c.jobs == |d.lists.pool|
            && (seeds != [] ==> !c.queue.Empty())
  {
    if seeds != [] {
      var front, text := seeds[..|seeds| - 1], seeds[|seeds| - 1];
      LoadOwned(d, front);
      var c := Load(d, front);
      MakeOwned(c, {}, text);
      EnqueueOwned(Make(c, text), {} + {c.created}, c.created, true);
      assert {} + {c.created} - {c.created} == {};
    }
  }

  // The i-th seed is the first with its text.
  predicate FirstOfText(seeds: seq<cstring>, i: nat) {
    i < |seeds| && seeds[i] !in seeds[..i]
  }

  predicate Ascending(s: seq<InputRef>) {
    forall i, j | 0 <= i < j < |s| :: s[i] < s[j]
  }

  ghost predicate Seeded(c: Campaign, seeds: seq<cstring>) {
    && c.created == |seeds| && c.queue.low == [] && c.queue.cycle == 0 && Ascending(c.queue.high)
    && (forall i: nat | i < |seeds| :: TextOf(c, i) == seeds[i] && StateOf(c, i) == 0)
    && (forall i: InputRef :: i in c.queue.high <==> FirstOfText(seeds, i))
    && (forall i: InputRef :: i in c.freed <==> i < |seeds| && !FirstOfText(seeds, i))
  }

  lemma {:induction false} SomeFirst(seeds: seq<cstring>, i: nat) returns (j: nat)
    requires i < |seeds|
    ensures FirstOfText(seeds, j) && seeds[j] == seeds[i]
  {
    if seeds[i] !in seeds[..i] {
      j := i;
    } else {
      var k: nat :| k < i && seeds[..i][k] == seeds[i];
      j := SomeFirst(seeds, k);
    }
  }

  lemma FirstInFront(seeds: seq<cstring>, i: nat)
    requires i + 1 < |seeds|
    ensures FirstOfText(seeds, i) <==> FirstOfText(seeds[..|seeds| - 1], i)
  {
    assert seeds[..|seeds| - 1][..i] == seeds[..i];
  }

  // A seed is a duplicate of one that is queued exactly if it is not the first of its text.
  lemma SeedDuplicates(c: Campaign, seeds: seq<cstring>, text: cstring)
    requires Seeded(c, seeds)
    ensures IsDuplicate(Make(c, text), text) <==> text in seeds
  {
    var c1 := Make(c, text);
    if text in seeds {
      var i: nat :| i < |seeds| && seeds[i] == text;
      var j := SomeFirst(seeds, i);
      assert j in c1.queue.high && TextOf(c1, j) == TextOf(c, j) == text;
    }
    forall j | j in c1.queue.high ensures TextOf(c1, j) in seeds {
      assert FirstOfText(seeds, j) && TextOf(c1, j) == TextOf(c, j) == seeds[j];
    }
  }

  lemma FirstInSeeds(seeds: seq<cstring>, i: nat)
    requires seeds != []
    ensures var n := |seeds| - 1;
            FirstOfText(seeds, i) <==> FirstOfText(seeds[..n], i) || (i == n && seeds[n] !in seeds[..n])
  {
    if i + 1 < |seeds| {
      FirstInFront(seeds, i);
    }
  }

  lemma SeedTexts(c: Campaign, seeds: seq<cstring>, i: nat)
    requires seeds != [] && Seeded(c, seeds[..|seeds| - 1]) && i < |seeds|
    ensures var c2 := Enqueue(Make(c, seeds[|seeds| - 1]), c.created, true);
            TextOf(c2, i) == seeds[i] && StateOf(c2, i) == 0
  {
    if i < |seeds| - 1 {
      assert TextOf(c, i) == seeds[..|seeds| - 1][i] && StateOf(c, i) == 0;
    }
  }

  lemma SeedOne(c: Campaign, seeds: seq<cstring>)
    requires seeds != [] && Seeded(c, seeds[..|seeds| - 1])
    ensures Seeded(Enqueue(Make(c, seeds[|seeds| - 1]), c.created, true), seeds)
  {
    var n := |seeds| - 1;
    var front, text := seeds[..n], seeds[n];
    var c2 := Enqueue(Make(c, text), c.created, true);
    SeedDuplicates(c, front, text);
    forall i: nat | i < |seeds| ensures TextOf(c2, i) == seeds[i] && StateOf(c2, i) == 0 {
      SeedTexts(c, seeds, i);
    }
    forall i: InputRef
      ensures i in c2.queue.high <==> FirstOfText(seeds, i)
      ensures i in c2.freed <==> i < |seeds| && !FirstOfText(seeds, i)
    {
      FirstInSeeds(seeds, i);
    }
    forall i | 0 <= i < |c.queue.high| ensures c.queue.high[i] < n {
      assert c.queue.high[i] in c.queue.high && FirstOfText(front, c.queue.high[i]);
    }
  }

  // Reading the seed file: each seed becomes an input in state 0; the first of each text goes
  // to the high list, in the order of the file, and the others are freed.
  lemma {:induction false} SeedsAreLoaded(d: State, seeds: seq<cstring>)
    ensures Seeded(Load(d, seeds), seeds)
  {
    if seeds != [] {
      SeedsAreLoaded(d, seeds[..|seeds| - 1]);
      SeedOne(Load(d, seeds[..|seeds| - 1]), seeds);
    }
  }

  lemma StartInv(d: State, seeds: seq<cstring>)
    requires Init(d) && d.target + |d.lists.pool| < 0x8000_0000
    requires forall t | t in seeds :: |t| <= Strategies.MAX_LENGTH
    ensures CampaignInv(Load(d, seeds))
  {
    InitInv(d);
    LoadOwned(d, seeds);
    assert Flight(d) == {};
  }

  lemma {:induction false} CampaignKeeps(c: Campaign, es: seq<Event>)
    requires CampaignInv(c) && Happens(c, es)
    ensures CampaignInv(Reached(c, es))
    decreases |es|
  {
    if es != [] {
      StepKeepsCampaign(c, es[0]);
      CampaignKeeps(Step(c, es[0]), es[1..]);
    }
  }

  // ---------- The laws ----------

  // Reachable: from any seeds of at most 1024 characters.
  predicate Reachable(d: State, seeds: seq<cstring>, es: seq<Event>) {
    && Init(d) && d.target + |d.lists.pool| < 0x8000_0000
    && (forall t | t in seeds :: |t| <= Strategies.MAX_LENGTH)
    && Happens(Load(d, seeds), es)
  }

  lemma ReachableInv(d: State, seeds: seq<cstring>, es: seq<Event>)
    requires Reachable(d, seeds, es)
    ensures CampaignInv(Reached(Load(d, seeds), es))
  {
    StartInv(d, seeds);
    CampaignKeeps(Load(d, seeds), es);
  }

  // An input has at most one place: a position in one list, or one runner; and none once it
  // is freed. Placement says when one that is not freed has none either.
  lemma OnePlace(d: State, seeds: seq<cstring>, es: seq<Event>)
    requires Reachable(d, seeds, es)
    ensures var c := Reached(Load(d, seeds), es);
            && NoDuplicates(c)
            && Distinct(c.queue.high) && Distinct(c.queue.low) && Apart(c.queue.high, c.queue.low)
            && (forall i | i in c.queue.high || i in c.queue.low :: i !in Flight(c.d) && i !in c.freed)
            && (forall i | i in Flight(c.d) :: i !in c.freed)
            && FlightDistinct(c.d)
  {
    ReachableInv(d, seeds, es);
    var c := Reached(Load(d, seeds), es);
    forall i | i in c.queue.high || i in c.queue.low ensures i !in Flight(c.d) && i !in c.freed {
      assert QueuedOk(c, Flight(c.d), i);
    }
    forall i | i in Flight(c.d) ensures i !in c.freed {
      assert FlyingOk(c, i);
    }
  }

  // What the source passes to free_input in a step.
  function FreedBy(c: Campaign, e: Event): set<InputRef>
    requires Possible(c, e)
  {
    if e.a.Send? then if e.a.ok then {} else {c.created}
    else if e.a.Handle? && Tested(c).Some? then
      var i := Tested(c).value;
      match c.d.pc.reply
      case Some(Status(_, Valid)) =>
        if e.verdict == NoPriority || IsDuplicate(c, TextOf(c, i)) then {i} else {}
      case Some(_) => {i}
      case None => {}
    else {}
  }

  lemma FreedGrows(c: Campaign, e: Event)
    requires CampaignInv(c) && Possible(c, e)
    ensures FreedBy(c, e) !! c.freed
    ensures Step(c, e).freed == c.freed + FreedBy(c, e)
  {
    if e.a.Send? {
      ServedBound(c);
      DispatchedOwned(c, e.a.ok, Flight(c.d));
    } else if e.a.Handle? {
      FlyingHandle(c.d);
      assert FlyingOk(c, Tested(c).value);
    }
  }

  lemma FreedIsNowhere(c: Campaign, i: InputRef)
    requires CampaignInv(c) && i in c.freed
    ensures !InQueue(c, i) && i !in Flight(c.d)
  {
    forall j | j in c.queue.high || j in c.queue.low ensures j !in c.freed {
      assert QueuedOk(c, Flight(c.d), j);
    }
    forall j | j in Flight(c.d) ensures j !in c.freed {
      assert FlyingOk(c, j);
    }
  }

  // Nothing is freed twice, and what is freed is reachable from neither place afterwards.
  lemma FreedOnce(d: State, seeds: seq<cstring>, es: seq<Event>, e: Event)
    requires Reachable(d, seeds, es) && Possible(Reached(Load(d, seeds), es), e)
    ensures var c := Reached(Load(d, seeds), es); var c' := Step(c, e);
            && FreedBy(c, e) !! c.freed
            && c'.freed == c.freed + FreedBy(c, e)
            && (forall i | i in c'.freed :: !InQueue(c', i) && i !in Flight(c'.d))
  {
    ReachableInv(d, seeds, es);
    var c := Reached(Load(d, seeds), es);
    FreedGrows(c, e);
    StepKeepsCampaign(c, e);
    forall i | i in Step(c, e).freed ensures !InQueue(Step(c, e), i) && i !in Flight(Step(c, e).d) {
      FreedIsNowhere(Step(c, e), i);
    }
  }

  lemma CycleExact(S: word)
    requires S < 0x8000_0000
    ensures Strategies.Cycle(S) == S / Strategies.SCHEDULE_LENGTH + 1 < 0x7fff_ffff
  {
  }

  // The mutation state of a queued input is the number of times it has been served. It
  // never passes the number of jobs plus the runners lost to failed sends, so the states
  // stay in the range that mutate computes with.
  lemma StateCountsUses(d: State, seeds: seq<cstring>, es: seq<Event>, i: InputRef)
    requires Reachable(d, seeds, es) && InQueue(Reached(Load(d, seeds), es), i)
    ensures var c := Reached(Load(d, seeds), es);
            && StateOf(c, i) == Count(c.served, i)
            && Count(c.served, i) <= c.d.sent + c.failedSends <= c.d.target + c.jobs
            && Strategies.Cycle(StateOf(c, i)) == StateOf(c, i) / Strategies.SCHEDULE_LENGTH + 1 < 0x7fff_ffff
            && |TextOf(c, i)| <= Strategies.MAX_LENGTH
  {
    ReachableInv(d, seeds, es);
    var c := Reached(Load(d, seeds), es);
    assert QueuedOk(c, Flight(c.d), i);
    CountBound(c.served, i);
    ServedBound(c);
    CycleExact(StateOf(c, i));
  }

  // The first time an input is served a copy of it goes out; the k-th time after that, its
  // mutant in state k.
  lemma WhatIsSent(d: State, seeds: seq<cstring>, es: seq<Event>, e: Event)
    requires Reachable(d, seeds, es) && Possible(Reached(Load(d, seeds), es), e) && e.a.Send?
    ensures var c := Reached(Load(d, seeds), es);
            var i := c.queue.Front(); var uses := Count(c.served, i);
            && uses < WORD_RANGE && |TextOf(c, i)| <= Strategies.MAX_LENGTH
            && TextOf(Step(c, e), e.a.input) == if uses == 0 then TextOf(c, i) else Strategies.MutatedText(TextOf(c, i), uses)
  {
    ReachableInv(d, seeds, es);
    var c := Reached(Load(d, seeds), es);
    var i := c.queue.Front();
    assert i in c.queue.high || i in c.queue.low;
    assert QueuedOk(c, Flight(c.d), i);
  }

  // Every text ever made keeps to the bound.
  lemma TextsStaySmall(d: State, seeds: seq<cstring>, es: seq<Event>)
    requires Reachable(d, seeds, es)
    ensures var c := Reached(Load(d, seeds), es);
            forall i | i in c.text :: |c.text[i]| <= Strategies.MAX_LENGTH
  {
    ReachableInv(d, seeds, es);
  }
}
