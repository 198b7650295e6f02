// A run with two runners in which a valid input is of high priority for an edge that an
// earlier run took, although its runner has nothing left over: the earlier run crashed at
// the other runner, and what a crashed run took never reaches the bitmap.
module FeedbackRace {
  import opened Prelude
  import opened RunnerLists
  import opened Dispatch
  import opened Coverage
  import opened Feedback
  import opened FeedbackGap

  function Fresh(): Runner {
    Runner([], [], Waiting, true, None)
  }

  function Asked(r: InputRef): Runner {
    Runner([r], [], Waiting, true, Some(r))
  }

  function Reported(r: InputRef, o: Outcome): Runner {
    Runner([], [Status(r, o)], Waiting, true, Some(r))
  }

  function Duo(l: Lists, R0: Runner, R1: Runner, pc: Pc, pending: bool, seen: bool, sent: nat, received: nat): State {
    State(l, map[0 := R0, 1 := R1], pc, pending, false, seen, false, false, sent, received, 2, 0)
  }

  const BOTH_READY := Lists([0, 1], [0, 1], [], [])
  const ONE_ACTIVE := Lists([0, 1], [1], [0], [])
  const BOTH_ACTIVE := Lists([0, 1], [], [0, 1], [])
  const BOTH_DONE := Lists([0, 1], [], [], [0, 1])
  const ONE_DONE := Lists([0, 1], [0], [], [1])

  lemma Opening() returns (d: State)
    ensures d == Duo(BOTH_READY, Fresh(), Fresh(), Head, false, false, 0, 0) && Init(d)
  {
    d := Duo(BOTH_READY, Fresh(), Fresh(), Head, false, false, 0, 0);
    assert d.lists.Valid();
    assert d.lists.pool[0] in d.lists.pool && d.lists.pool[1] in d.lists.pool;
  }

  // Both runners are sent an input, and the fuzzer goes to sleep.
  lemma Launch() returns (d: State, evs: seq<Event>)
    ensures Init(d)
    ensures Gets(Start(d), evs, Start(d).(d := Duo(BOTH_ACTIVE, Asked(0), Asked(1), Suspended, false, false, 2, 0)))
  {
    d := Opening();
    var f := Start(d);
    var s1, s2, s3 := d.(pc := Polling), d.(pc := Collecting), d.(pc := Sending);
    evs := [];
    evs := Then(f, evs, f, Enter, s1);
    evs := Then(f, evs, f.(d := s1), Poll, s2);
    evs := Then(f, evs, f.(d := s2), Collected, s3);
    evs := SendBoth(f, evs, f.(d := s3));
  }

  lemma FirstSend()
    ensures Goes(Duo(BOTH_READY, Fresh(), Fresh(), Sending, false, false, 0, 0), Send(0, true),
                 Duo(ONE_ACTIVE, Asked(0), Fresh(), Sending, false, false, 1, 0))
  {
    assert [] + [0] == [0];
    assert BOTH_READY.Submitted(true) == ONE_ACTIVE;
  }

  lemma SecondSend()
    ensures Goes(Duo(ONE_ACTIVE, Asked(0), Fresh(), Sending, false, false, 1, 0), Send(1, true),
                 Duo(BOTH_ACTIVE, Asked(0), Asked(1), Sending, false, false, 2, 0))
  {
    assert [] + [1] == [1];
    assert ONE_ACTIVE.Submitted(true) == BOTH_ACTIVE;
  }

  lemma SendBoth(f: Feedback, evs: seq<Event>, g: Feedback) returns (evs': seq<Event>)
    requires Gets(f, evs, g) && g.d == Duo(BOTH_READY, Fresh(), Fresh(), Sending, false, false, 0, 0)
    ensures Gets(f, evs', g.(d := Duo(BOTH_ACTIVE, Asked(0), Asked(1), Suspended, false, false, 2, 0)))
  {
    FirstSend();
    SecondSend();
    var s1 := Duo(ONE_ACTIVE, Asked(0), Fresh(), Sending, false, false, 1, 0);
    var s2 := Duo(BOTH_ACTIVE, Asked(0), Asked(1), Sending, false, false, 2, 0);
    evs' := Then(f, evs, g, Send(0, true), s1);
    evs' := Then(f, evs', g.(d := s1), Send(1, true), s2);
    evs' := FallAsleep(f, evs', g.(d := s2));
  }

  lemma FallAsleep(f: Feedback, evs: seq<Event>, g: Feedback) returns (evs': seq<Event>)
    requires Gets(f, evs, g) && g.d == Duo(BOTH_ACTIVE, Asked(0), Asked(1), Sending, false, false, 2, 0)
    ensures Gets(f, evs', g.(d := g.d.(pc := Suspended)))
  {
    evs' := Then(f, evs, g, StopSending, g.d.(pc := Tail));
    evs' := Then(f, evs', g.(d := g.d.(pc := Tail)), Decide, g.d.(pc := Suspended));
  }

  // Runner r runs its input, which takes edge 1, and reports.
  function Ran(g: Feedback, r: Rid): Feedback
    requires Possible(g, Protocol(Receive(r)))
  {
    Step(Step(g, Protocol(Receive(r))), TakeEdge(r, 1))
  }

  lemma RunOne(f: Feedback, evs: seq<Event>, g: Feedback, r: Rid, o: Outcome) returns (evs': seq<Event>)
    requires Gets(f, evs, g) && r in g.d.runners && g.d.runners[r] == Asked(r)
    ensures Possible(g, Protocol(Receive(r)))
    ensures Gets(f, evs', Ran(g, r).(d := g.d.(runners := g.d.runners[r := Reported(r, o)], usrPending := true)))
  {
    var h := Step(g, Protocol(Receive(r)));
    evs' := ThenEvent(f, evs, g, Protocol(Receive(r)));
    evs' := ThenEvent(f, evs', h, TakeEdge(r, 1));
    evs' := ReportOne(f, evs', Step(h, TakeEdge(r, 1)), r, o);
    assert Asked(r).requests[1..] == [];
  }

  lemma ReportGoes(s: State, r: Rid, o: Outcome)
    requires r in s.runners && s.runners[r] == Runner([], [], Running(r), true, Some(r))
    ensures Goes(s, Finish(r, o), DoFinish(s, r, o))
    ensures Goes(DoFinish(s, r, o), Write(r), DoWrite(DoFinish(s, r, o), r))
    ensures var t := s.(runners := s.runners[r := Reported(r, o)], usrPending := true);
            Goes(DoWrite(DoFinish(s, r, o), r), Kill(r), t)
  {
    assert [] + [Status(r, o)] == [Status(r, o)];
    assert DoWrite(DoFinish(s, r, o), r).runners == s.runners[r := Reported(r, o).(phase := Written)];
  }

  lemma ReportOne(f: Feedback, evs: seq<Event>, g: Feedback, r: Rid, o: Outcome) returns (evs': seq<Event>)
    requires Gets(f, evs, g) && r in g.d.runners && g.d.runners[r] == Runner([], [], Running(r), true, Some(r))
    ensures Gets(f, evs', g.(d := g.d.(runners := g.d.runners[r := Reported(r, o)], usrPending := true)))
  {
    var s1 := DoFinish(g.d, r, o);
    var s2 := DoWrite(s1, r);
    ReportGoes(g.d, r, o);
    evs' := Then(f, evs, g, Finish(r, o), s1);
    evs' := Then(f, evs', g.(d := s1), Write(r), s2);
    evs' := Then(f, evs', g.(d := s2), Kill(r), g.d.(runners := g.d.runners[r := Reported(r, o)], usrPending := true));
  }

  // The fuzzer wakes and finds both results.
  lemma SortBoth(R0: Runner, R1: Runner)
    requires R0.results != [] && R1.results != []
    ensures Goes(Duo(BOTH_ACTIVE, R0, R1, Checking, false, false, 2, 0), Select({}),
                 Duo(BOTH_ACTIVE, R0, R1, Sorting({0, 1}), false, false, 2, 0))
    ensures Goes(Duo(BOTH_ACTIVE, R0, R1, Sorting({0, 1}), false, false, 2, 0), Sort,
                 Duo(BOTH_DONE, R0, R1, Collecting, false, false, 2, 0))
  {
    var s := Duo(BOTH_ACTIVE, R0, R1, Checking, false, false, 2, 0);
    assert s.lists.active[0] in s.lists.active && s.lists.active[1] in s.lists.active;
    assert Readable(s) + {} == {0, 1};
    SortTwo();
  }

  lemma SortTwo()
    ensures BOTH_ACTIVE.Checked({0, 1}) == BOTH_DONE
  {
    var s: seq<Rid>, all := [0, 1], {0, 1};
    assert OnlyFirst(s, 0, all) == [] && OnlyFirst(s, 1, all) == [0] && OnlyFirst(s, 2, all) == [0, 1];
    assert ExceptFirst(s, 0, all) == [] && ExceptFirst(s, 1, all) == [] && ExceptFirst(s, 2, all) == [];
    assert [] + [0, 1] == [0, 1];
  }

  lemma Collect(f: Feedback, evs: seq<Event>, g: Feedback, R0: Runner, R1: Runner) returns (evs': seq<Event>)
    requires Gets(f, evs, g) && g.d == Duo(BOTH_ACTIVE, R0, R1, Suspended, true, false, 2, 0)
    requires R0.results != [] && R1.results != []
    ensures Gets(f, evs', g.(d := Duo(BOTH_DONE, R0, R1, Collecting, false, false, 2, 0)))
  {
    var s1, s2 := Duo(BOTH_ACTIVE, R0, R1, Head, false, true, 2, 0), Duo(BOTH_ACTIVE, R0, R1, Polling, false, true, 2, 0);
    var s3 := Duo(BOTH_ACTIVE, R0, R1, Checking, false, false, 2, 0);
    var s4 := Duo(BOTH_ACTIVE, R0, R1, Sorting({0, 1}), false, false, 2, 0);
    SortBoth(R0, R1);
    evs' := Then(f, evs, g, Wake(true, false, false), s1);
    evs' := Then(f, evs', g.(d := s1), Enter, s2);
    evs' := Then(f, evs', g.(d := s2), Poll, s3);
    evs' := Then(f, evs', g.(d := s3), Select({}), s4);
    evs' := Then(f, evs', g.(d := s4), Sort, Duo(BOTH_DONE, R0, R1, Collecting, false, false, 2, 0));
  }

  // It handles the crash first, and then has the valid result of runner 1 in hand.
  lemma HandleFirst(f: Feedback, evs: seq<Event>, g: Feedback) returns (evs': seq<Event>, h: Feedback)
    requires Gets(f, evs, g) && g.d == Duo(BOTH_DONE, Reported(0, Crash), Reported(1, Valid), Collecting, false, false, 2, 0)
    ensures Gets(f, evs', h) && HandlesValid(h, 1)
    ensures h == g.(d := h.d, owed := h.owed, open := h.open) && At(h.owed, 1) == At(g.owed, 1)
  {
    var s1, s2 := DoTake(g.d), DoTake(g.d).(received := 1, pc := Collecting);
    assert BOTH_DONE.Processed() == ONE_DONE;
    evs' := Then(f, evs, g, Take, s1);
    evs' := ThenEvent(f, evs', g.(d := s1), Protocol(Handle));
    var k := Step(g.(d := s1), Protocol(Handle));
    assert k.d == s2;
    evs' := Then(f, evs', k, Take, DoTake(s2));
    h := k.(d := DoTake(s2));
  }

  const ASKED := Duo(BOTH_ACTIVE, Asked(0), Asked(1), Suspended, false, false, 2, 0)
  const CRASHED := Duo(BOTH_ACTIVE, Reported(0, Crash), Asked(1), Suspended, true, false, 2, 0)
  const REPORTED := Duo(BOTH_ACTIVE, Reported(0, Crash), Reported(1, Valid), Suspended, true, false, 2, 0)

  // Both runs took edge 1, runner 0's before runner 1's.
  predicate BothTook(g: Feedback) {
    At(g.buffer, 1) == At(g.current, 1) == At(g.prior, 1) == {1} && At(g.owed, 1) == {} && g.bitmap == {}
  }

  lemma FirstTook(d: State)
    requires ASKED == d
    ensures Possible(Start(d), Protocol(Receive(0)))
    ensures var g := Ran(Start(d), 0);
            At(g.buffer, 1) == {} && At(g.prior, 1) == {1} && At(g.current, 1) == {} && g.owed == map[] && g.bitmap == {}
  {
  }

  lemma SecondTook(g: Feedback)
    requires At(g.buffer, 1) == {} && At(g.prior, 1) == {1} && At(g.current, 1) == {} && g.owed == map[] && g.bitmap == {}
    requires g.d == CRASHED
    ensures Possible(g, Protocol(Receive(1))) && BothTook(Ran(g, 1))
  {
  }

  lemma RunBoth(f: Feedback, evs: seq<Event>) returns (evs': seq<Event>, k: Feedback)
    requires Gets(f, evs, Start(ASKED))
    ensures Gets(f, evs', k) && k.d == REPORTED && BothTook(k)
  {
    var g := Start(ASKED);
    FirstTook(ASKED);
    evs' := RunOne(f, evs, g, 0, Crash);
    var h := Ran(g, 0).(d := CRASHED);
    assert h.d == g.d.(runners := g.d.runners[0 := Reported(0, Crash)], usrPending := true);
    SecondTook(h);
    evs' := RunOne(f, evs', h, 1, Valid);
    k := Ran(h, 1).(d := REPORTED);
    assert k.d == h.d.(runners := h.d.runners[1 := Reported(1, Valid)], usrPending := true);
  }

  // Runner 1's only run takes an edge that the crashed run took before it, and it is of high
  // priority all the same.
  lemma HighForKnownEdge() returns (d: State, evs: seq<Event>)
    ensures Init(d) && Happens(Start(d), evs)
    ensures var f := Reached(Start(d), evs);
            && HandlesValid(f, 1)
            && Verdict(f, 1) == HighPriority
            && At(f.current, 1) == At(f.prior, 1) == {1} && At(f.owed, 1) == {}
  {
    d, evs := Launch();
    var k, last;
    evs, k := RunBoth(Start(d), evs);
    evs := Collect(Start(d), evs, k, Reported(0, Crash), Reported(1, Valid));
    evs, last := HandleFirst(Start(d), evs, k.(d := Duo(BOTH_DONE, Reported(0, Crash), Reported(1, Valid), Collecting, false, false, 2, 0)));
  }
}
