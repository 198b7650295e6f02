// A run of the whole protocol in which an input is of high priority although its own run
// took no edge at all: the edge it is credited with was taken by a run that crashed.
module FeedbackGap {
  import opened Prelude
  import opened RunnerLists
  import opened Dispatch
  import opened Coverage
  import opened Feedback

  // ---------- One runner, two jobs ----------

  const READY := Lists([0], [0], [], [])
  const ACTIVE := Lists([0], [], [0], [])
  const DONE := Lists([0], [], [], [0])

  // Runner 0 is all there is; the only signals are its own.
  function Solo(l: Lists, R: Runner, pc: Pc, pending: bool, seen: bool, sent: nat, received: nat): State {
    State(l, map[0 := R], pc, pending, false, seen, false, false, sent, received, 2, 0)
  }

  function With(results: seq<Status>, phase: Phase): Runner {
    Runner([], results, phase, true, Some(0))
  }

  predicate Goes(s: State, a: Action, t: State) {
    Enabled(s, a) && Apply(s, a) == t
  }

  lemma SendGoes(R: Runner, n: nat)
    requires R.requests == [] && n < 2
    ensures Goes(Solo(READY, R, Sending, false, false, n, n), Send(0, true),
                 Solo(ACTIVE, R.(requests := [0], activeInput := Some(0)), Sending, false, false, n + 1, n))
  {
  }

  lemma SleepGoes(R: Runner, n: nat)
    requires n < 2
    ensures Goes(Solo(ACTIVE, R, Sending, false, false, n + 1, n), StopSending, Solo(ACTIVE, R, Tail, false, false, n + 1, n))
    ensures Goes(Solo(ACTIVE, R, Tail, false, false, n + 1, n), Decide, Solo(ACTIVE, R, Suspended, false, false, n + 1, n))
  {
  }

  lemma ReceiveGoes(n: nat)
    ensures Goes(Solo(ACTIVE, Runner([0], [], Waiting, true, Some(0)), Suspended, false, false, n + 1, n), Receive(0),
                 Solo(ACTIVE, With([], Running(0)), Suspended, false, false, n + 1, n))
  {
    var requests: seq<InputRef> := [0];
    assert requests[1..] == [];
  }

  lemma FinishGoes(o: Outcome, n: nat)
    ensures Goes(Solo(ACTIVE, With([], Running(0)), Suspended, false, false, n + 1, n), Finish(0, o),
                 Solo(ACTIVE, With([], Finished(0, o)), Suspended, false, false, n + 1, n))
  {
  }

  lemma WriteGoes(o: Outcome, n: nat)
    ensures Goes(Solo(ACTIVE, With([], Finished(0, o)), Suspended, false, false, n + 1, n), Write(0),
                 Solo(ACTIVE, With([Status(0, o)], Written), Suspended, false, false, n + 1, n))
  {
    assert [] + [Status(0, o)] == [Status(0, o)];
  }

  lemma KillGoes(o: Outcome, n: nat)
    ensures Goes(Solo(ACTIVE, With([Status(0, o)], Written), Suspended, false, false, n + 1, n), Kill(0),
                 Solo(ACTIVE, With([Status(0, o)], Waiting), Suspended, true, false, n + 1, n))
  {
  }

  lemma WakeGoes(R: Runner, n: nat)
    requires n < 2
    ensures Goes(Solo(ACTIVE, R, Suspended, true, false, n + 1, n), Wake(true, false, false),
                 Solo(ACTIVE, R, Head, false, true, n + 1, n))
    ensures Goes(Solo(ACTIVE, R, Head, false, true, n + 1, n), Enter, Solo(ACTIVE, R, Polling, false, true, n + 1, n))
    ensures Goes(Solo(ACTIVE, R, Polling, false, true, n + 1, n), Poll, Solo(ACTIVE, R, Checking, false, false, n + 1, n))
  {
  }

  lemma SelectGoes(R: Runner, n: nat)
    requires R.results != []
    ensures Goes(Solo(ACTIVE, R, Checking, false, false, n + 1, n), Select({}),
                 Solo(ACTIVE, R, Sorting({0}), false, false, n + 1, n))
  {
    var s := Solo(ACTIVE, R, Checking, false, false, n + 1, n);
    assert s.lists.active[0] in s.lists.active;
    assert Readable(s) + {} == {0};
  }

  lemma SortGoes(R: Runner, n: nat)
    ensures Goes(Solo(ACTIVE, R, Sorting({0}), false, false, n + 1, n), Sort,
                 Solo(DONE, R, Collecting, false, false, n + 1, n))
  {
    var s: seq<Rid>, all := [0], {0};
    assert OnlyFirst(s, 1, all) == OnlyFirst(s, 0, all) + [s[0]];
    assert ExceptFirst(s, 1, all) == ExceptFirst(s, 0, all);
  }

  lemma TakeGoes(o: Outcome, n: nat)
    ensures Goes(Solo(DONE, With([Status(0, o)], Waiting), Collecting, false, false, n + 1, n), Take,
                 Solo(READY, With([], Waiting), Handling(0, Some(Status(0, o))), false, false, n + 1, n))
  {
    assert [Status(0, o)][1..] == [];
    assert DONE.Processed() == READY;
  }

  lemma HandleGoes(R: Runner, reply: Option<Status>)
    ensures Goes(Solo(READY, R, Handling(0, reply), false, false, 1, 0), Handle, Solo(READY, R, Collecting, false, false, 1, 1))
    ensures Goes(Solo(READY, R, Collecting, false, false, 1, 1), Collected, Solo(READY, R, Sending, false, false, 1, 1))
  {
  }

  lemma OpeningGoes(R: Runner)
    ensures Goes(Solo(READY, R, Head, false, false, 0, 0), Enter, Solo(READY, R, Polling, false, false, 0, 0))
    ensures Goes(Solo(READY, R, Polling, false, false, 0, 0), Poll, Solo(READY, R, Collecting, false, false, 0, 0))
    ensures Goes(Solo(READY, R, Collecting, false, false, 0, 0), Collected, Solo(READY, R, Sending, false, false, 0, 0))
  {
  }

  // ---------- Putting them together ----------

  lemma {:induction false} OneMore(f: Feedback, evs: seq<Event>, ev: Event)
    requires Happens(f, evs) && Possible(Reached(f, evs), ev)
    ensures Happens(f, evs + [ev]) && Reached(f, evs + [ev]) == Step(Reached(f, evs), ev)
    decreases |evs|
  {
    if evs == [] {
      assert evs + [ev] == [ev];
      assert [ev][1..] == [];
    } else {
      assert (evs + [ev])[1..] == evs[1..] + [ev];
      OneMore(Step(f, evs[0]), evs[1..], ev);
    }
  }

  predicate Gets(f: Feedback, evs: seq<Event>, g: Feedback) {
    Happens(f, evs) && Reached(f, evs) == g
  }

  // A step that leaves the feedback alone.
  lemma Then(f: Feedback, evs: seq<Event>, g: Feedback, a: Action, t: State) returns (evs': seq<Event>)
    requires Gets(f, evs, g) && Goes(g.d, a, t) && !a.Receive? && !a.Handle?
    ensures Gets(f, evs', g.(d := t))
  {
    evs' := evs + [Protocol(a)];
    OneMore(f, evs, Protocol(a));
  }

  lemma ThenEvent(f: Feedback, evs: seq<Event>, g: Feedback, ev: Event) returns (evs': seq<Event>)
    requires Gets(f, evs, g) && Possible(g, ev)
    ensures Gets(f, evs', Step(g, ev))
  {
    evs' := evs + [ev];
    OneMore(f, evs, ev);
  }

  // What the runner's start on its input makes of the feedback.
  function Begun(g: Feedback, n: nat): Feedback {
    g.(d := Solo(ACTIVE, With([], Running(0)), Suspended, false, false, n + 1, n),
       current := g.current[0 := {}], open := g.open + {0},
       left := g.left[0 := At(g.buffer, 0)], prior := g.prior[0 := At(g.prior, 0) + At(g.current, 0)])
  }

  lemma Starts(f: Feedback, evs: seq<Event>, g: Feedback, n: nat) returns (evs': seq<Event>)
    requires Gets(f, evs, g)
    requires g.d == Solo(ACTIVE, Runner([0], [], Waiting, true, Some(0)), Suspended, false, false, n + 1, n)
    ensures Gets(f, evs', Begun(g, n))
  {
    ReceiveGoes(n);
    evs' := ThenEvent(f, evs, g, Protocol(Receive(0)));
  }

  // From sending an input to the runner's start on it.
  lemma Begin(f: Feedback, evs: seq<Event>, g: Feedback, R: Runner, n: nat) returns (evs': seq<Event>)
    requires Gets(f, evs, g) && g.d == Solo(READY, R, Sending, false, false, n, n) && n < 2
    requires R == Runner([], [], Waiting, true, R.activeInput)
    ensures Gets(f, evs', Begun(g, n))
  {
    var R' := Runner([0], [], Waiting, true, Some(0));
    var s1, s2 := Solo(ACTIVE, R', Sending, false, false, n + 1, n), Solo(ACTIVE, R', Tail, false, false, n + 1, n);
    var s3 := Solo(ACTIVE, R', Suspended, false, false, n + 1, n);
    SendGoes(R, n);
    SleepGoes(R', n);
    evs' := Then(f, evs, g, Send(0, true), s1);
    evs' := Then(f, evs', g.(d := s1), StopSending, s2);
    evs' := Then(f, evs', g.(d := s2), Decide, s3);
    evs' := Starts(f, evs', g.(d := s3), n);
  }

  // From the end of a run to the result being in hand.
  lemma Report(f: Feedback, evs: seq<Event>, g: Feedback, o: Outcome, n: nat) returns (evs': seq<Event>)
    requires Gets(f, evs, g) && g.d == Solo(ACTIVE, With([], Running(0)), Suspended, false, false, n + 1, n) && n < 2
    ensures Gets(f, evs', g.(d := Solo(READY, With([], Waiting), Handling(0, Some(Status(0, o))), false, false, n + 1, n)))
  {
    var R := With([Status(0, o)], Waiting);
    var s1 := Solo(ACTIVE, With([], Finished(0, o)), Suspended, false, false, n + 1, n);
    var s2 := Solo(ACTIVE, With([Status(0, o)], Written), Suspended, false, false, n + 1, n);
    var s3 := Solo(ACTIVE, R, Suspended, true, false, n + 1, n);
    FinishGoes(o, n);
    WriteGoes(o, n);
    KillGoes(o, n);
    evs' := Then(f, evs, g, Finish(0, o), s1);
    evs' := Then(f, evs', g.(d := s1), Write(0), s2);
    evs' := Then(f, evs', g.(d := s2), Kill(0), s3);
    evs' := Collect(f, evs', g.(d := s3), o, n);
  }

  lemma Collect(f: Feedback, evs: seq<Event>, g: Feedback, o: Outcome, n: nat) returns (evs': seq<Event>)
    requires Gets(f, evs, g) && n < 2
    requires g.d == Solo(ACTIVE, With([Status(0, o)], Waiting), Suspended, true, false, n + 1, n)
    ensures Gets(f, evs', g.(d := Solo(READY, With([], Waiting), Handling(0, Some(Status(0, o))), false, false, n + 1, n)))
  {
    var R := With([Status(0, o)], Waiting);
    var s1, s2 := Solo(ACTIVE, R, Head, false, true, n + 1, n), Solo(ACTIVE, R, Polling, false, true, n + 1, n);
    var s3, s4 := Solo(ACTIVE, R, Checking, false, false, n + 1, n), Solo(ACTIVE, R, Sorting({0}), false, false, n + 1, n);
    var s5 := Solo(DONE, R, Collecting, false, false, n + 1, n);
    WakeGoes(R, n);
    SelectGoes(R, n);
    SortGoes(R, n);
    TakeGoes(o, n);
    evs' := Then(f, evs, g, Wake(true, false, false), s1);
    evs' := Then(f, evs', g.(d := s1), Enter, s2);
    evs' := Then(f, evs', g.(d := s2), Poll, s3);
    evs' := Then(f, evs', g.(d := s3), Select({}), s4);
    evs' := Then(f, evs', g.(d := s4), Sort, s5);
    evs' := Then(f, evs', g.(d := s5), Take,
                 Solo(READY, With([], Waiting), Handling(0, Some(Status(0, o))), false, false, n + 1, n));
  }

  // Runner 0 takes edge 1 on its first input and crashes; the fuzzer handles that and is
  // about to send the next input.
  predicate Crashed(g: Feedback) {
    && g.d == Solo(READY, With([], Waiting), Sending, false, false, 1, 1)
    && g.buffer == map[0 := {1}] && g.bitmap == {} && g.takenEdges == {1}
  }

  lemma CrashRun() returns (d: State, evs: seq<Event>)
    ensures Init(d) && Happens(Start(d), evs) && Crashed(Reached(Start(d), evs))
  {
    var R := Runner([], [], Waiting, true, None);
    d := Solo(READY, R, Head, false, false, 0, 0);
    assert d.lists.Valid();
    assert d.lists.pool[0] in d.lists.pool;
    assert Init(d);
    var f := Start(d);
    var s1, s2 := Solo(READY, R, Polling, false, false, 0, 0), Solo(READY, R, Collecting, false, false, 0, 0);
    var s3 := Solo(READY, R, Sending, false, false, 0, 0);
    OpeningGoes(R);
    evs := [];
    evs := Then(f, evs, f, Enter, s1);
    evs := Then(f, evs, f.(d := s1), Poll, s2);
    evs := Then(f, evs, f.(d := s2), Collected, s3);
    evs := FirstRun(f, evs, R);
  }

  lemma FirstRun(f: Feedback, evs: seq<Event>, R: Runner) returns (evs': seq<Event>)
    requires R == Runner([], [], Waiting, true, R.activeInput)
    requires f == Start(f.d) && Gets(f, evs, f.(d := Solo(READY, R, Sending, false, false, 0, 0)))
    ensures Happens(f, evs') && Crashed(Reached(f, evs'))
  {
    var g := f.(d := Solo(READY, R, Sending, false, false, 0, 0));
    evs' := Begin(f, evs, g, R, 0);
    var h := Begun(g, 0);
    evs' := ThenEvent(f, evs', h, TakeEdge(0, 1));
    var k := Step(h, TakeEdge(0, 1));
    assert At(h.buffer, 0) + {1} == {1} && h.takenEdges + {1} == {1};
    assert k.d == h.d && k.buffer == map[0 := {1}] && k.bitmap == {} && k.takenEdges == {1};
    evs' := Report(f, evs', k, Crash, 0);
    evs' := CrashHandled(f, evs', k.(d := Solo(READY, With([], Waiting), Handling(0, Some(Status(0, Crash))), false, false, 1, 0)));
  }

  lemma CrashHandled(f: Feedback, evs: seq<Event>, g: Feedback) returns (evs': seq<Event>)
    requires Gets(f, evs, g)
    requires g.d == Solo(READY, With([], Waiting), Handling(0, Some(Status(0, Crash))), false, false, 1, 0)
    requires g.buffer == map[0 := {1}] && g.bitmap == {} && g.takenEdges == {1}
    ensures Happens(f, evs') && Crashed(Reached(f, evs'))
  {
    var R := With([], Waiting);
    HandleGoes(R, g.d.pc.reply);
    evs' := ThenEvent(f, evs, g, Protocol(Handle));
    var h := Step(g, Protocol(Handle));
    assert h.d == Solo(READY, R, Collecting, false, false, 1, 1);
    evs' := Then(f, evs', h, Collected, Solo(READY, R, Sending, false, false, 1, 1));
  }

  // Here the second input is of high priority for edge 1, which the first one took before
  // crashing: its own run took no edge at all.
  lemma HighWithoutNewEdge() returns (d: State, evs: seq<Event>)
    ensures Init(d) && Happens(Start(d), evs)
    ensures var f := Reached(Start(d), evs);
            && HandlesValid(f, 0)
            && Verdict(f, 0) == HighPriority
            && At(f.current, 0) == {} && f.takenEdges == {1} && f.bitmap == {}
  {
    d, evs := CrashRun();
    var f := Start(d);
    var g := Reached(f, evs);
    evs := Begin(f, evs, g, With([], Waiting), 1);
    evs := Report(f, evs, Begun(g, 1), Valid, 1);
  }

  // runner.h has runner_get_active_input return NULL for a runner with nothing to run. Here
  // runner 0 is ready again after its first job, and the field still names that job.
  lemma IdleRunnerKeepsInput() returns (d: State, evs: seq<Event>)
    ensures Init(d) && Happens(Start(d), evs)
    ensures var s := Reached(Start(d), evs).d;
            && s.pc.Sending? && s.lists.ready == [0] && s.lists.active == [] && s.lists.done == []
            && 0 in s.runners && s.runners[0].activeInput == Some(0)
  {
    d, evs := CrashRun();
  }
}
