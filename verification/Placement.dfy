// Where every input is. One that has been made is freed, queued or in flight, or it has
// leaked: the runner it was sent to died before its verdict, and nobody frees it. Without
// deaths nothing leaks.
module Placement {
  import opened Prelude
  import opened Bytes
  import opened RunnerLists
  import opened Dispatch
  import opened DispatchSafety
  import opened Coverage
  import opened Campaign
  import opened Ownership
  import Strategies

  predicate Placed(c: Campaign, i: InputRef) {
    i in c.freed || InQueue(c, i) || i in Flight(c.d)
  }

  // ---------- Leaks ----------

  function ActiveInputs(s: State, from: set<Rid>): set<InputRef> {
    set r | r in s.lists.active && r in from && r in s.runners && s.runners[r].activeInput.Some? ::
      s.runners[r].activeInput.value
  }

  // The inputs a step forgets: those of runners reaped while active (runner.c:615-622),
  // and one whose status is missing, for which run_fuzzer has no case (fuzzer.c:111-129).
  function Dropped(c: Campaign, e: Event): set<InputRef>
    requires Possible(c, e)
  {
    if e.a.Reap? then ActiveInputs(c.d, e.a.exited)
    else if e.a.Handle? && c.d.pc.reply.None? && Tested(c).Some? then {Tested(c).value}
    else {}
  }

  function Leaked(c: Campaign, es: seq<Event>): set<InputRef>
    requires Happens(c, es)
    decreases |es|
  {
    if es == [] then {} else Dropped(c, es[0]) + Leaked(Step(c, es[0]), es[1..])
  }

  // ---------- What a step does to the flight ----------

  // Everybody stays in the flight with the same input.
  predicate FlightStays(s: State, t: State) {
    forall r | r in Flying(s) && r in s.runners ::
      r in Flying(t) && r in t.runners && t.runners[r].activeInput == s.runners[r].activeInput
  }

  lemma StaysRunner(s: State, a: Action)
    requires Inv(s) && Enabled(s, a)
    requires a.Receive? || a.Finish? || a.Write? || a.Kill? || a.Die?
    ensures FlightStays(s, Apply(s, a))
  {
    var t := Apply(s, a);
    assert t.lists == s.lists && t.pc == s.pc;
  }

  lemma StaysMove(s: State, a: Action)
    requires Inv(s) && Enabled(s, a)
    requires a.Enter? || a.Leave? || a.Poll? || a.Select? || a.Collected? || a.QueueEmpty? || a.StopSending? || a.Decide? || a.Wake?
    ensures FlightStays(s, Apply(s, a))
  {
    var t := Apply(s, a);
    assert t.lists == s.lists && t.runners == s.runners && !s.pc.Handling?;
  }

  lemma StaysList(s: State, a: Action)
    requires Inv(s) && Enabled(s, a)
    requires a.Sort? || a.Take? || a.Send?
    ensures FlightStays(s, Apply(s, a))
  {
    match a
    case Sort =>
      OnlyMembers(s.lists.active, s.pc.readable);
      ExceptMembers(s.lists.active, s.pc.readable);
    case Take => HeadAndTail(s.lists.done);
    case Send(_, _) => assert s.lists.ready[0] in s.lists.ready;
  }

  lemma StaysFlight(s: State, a: Action)
    requires Inv(s) && Enabled(s, a) && !a.Handle? && !a.Reap?
    ensures Flight(s) <= Flight(Apply(s, a))
  {
    if a.Sort? || a.Take? || a.Send? {
      StaysList(s, a);
    } else if a.Receive? || a.Finish? || a.Write? || a.Kill? || a.Die? {
      StaysRunner(s, a);
    } else {
      StaysMove(s, a);
    }
  }

  lemma HandleFlight(s: State)
    requires Inv(s) && FlightDistinct(s) && Enabled(s, Handle)
    ensures s.runners[s.pc.runner].activeInput.Some?
    ensures var i := s.runners[s.pc.runner].activeInput.value;
            i in Flight(s) && Flight(Apply(s, Handle)) == Flight(s) - {i}
  {
    FlyingHandle(s);
    var t := Apply(s, Handle);
    forall r | r in Flying(s) && r in s.runners && r != s.pc.runner ensures r in Flying(t) {
    }
  }

  // Reaping leaves in the flight the active runners that have not exited.
  lemma ReapFlying(s: State, exited: set<Rid>)
    requires Inv(s) && Enabled(s, Reap(exited))
    ensures Flying(s) == set r | r in s.lists.active
    ensures Flying(DoReap(s, exited)) == (set r | r in s.lists.active) - exited
  {
    ExceptMembers(s.lists.active, exited);
    assert s.lists.done == [] && Except(s.lists.done, exited) == [];
  }

  lemma ReapFlight(s: State, exited: set<Rid>)
    requires Inv(s) && FlightDistinct(s) && Enabled(s, Reap(exited))
    ensures var gone := ActiveInputs(s, exited);
            gone <= Flight(s) && Flight(DoReap(s, exited)) == Flight(s) - gone
  {
    var t, gone := DoReap(s, exited), ActiveInputs(s, exited);
    ReapFlying(s, exited);
    assert t.runners == s.runners;
    forall i | i in Flight(t) ensures i in Flight(s) - gone {
      var q :| q in Flying(t) && q in t.runners && t.runners[q].activeInput == Some(i);
      assert q in s.lists.active && q !in exited;
    }
    forall i | i in Flight(s) - gone ensures i in Flight(t) {
      var q :| q in Flying(s) && q in s.runners && s.runners[q].activeInput == Some(i);
      assert q in s.lists.active && q !in exited;
    }
  }

  // A send that goes through puts the new input into the flight.
  lemma SendFlight(s: State, input: InputRef, ok: bool)
    requires Inv(s) && FlightDistinct(s) && Enabled(s, Send(input, ok)) && input !in Flight(s)
    ensures Flight(DoSend(s, input, ok)) == Flight(s) + if ok then {input} else {}
  {
    var t, x := DoSend(s, input, ok), s.lists.ready[0];
    FlyingSend(s, input, ok);
    StaysFlight(s, Send(input, ok));
    if ok {
      assert t.lists.active[|s.lists.active|] == x;
      assert x in Flying(t) && t.runners[x].activeInput == Some(input);
    }
  }

  lemma OtherFlight(s: State, a: Action)
    requires Inv(s) && FlightDistinct(s) && Enabled(s, a) && !a.Send? && !a.Handle? && !a.Reap?
    ensures Flight(Apply(s, a)) == Flight(s)
  {
    FlyingStep(s, a);
    ShrinkFacts(s, Apply(s, a));
    StaysFlight(s, a);
  }

  // ---------- The accounts ----------

  predicate AccountedFor(c: Campaign, leaked: set<InputRef>, i: InputRef) {
    i in leaked <==> i < c.created && !Placed(c, i)
  }

  ghost predicate Accounts(c: Campaign, leaked: set<InputRef>) {
    forall i: InputRef :: AccountedFor(c, leaked, i)
  }

  lemma FlyingFacts(c: Campaign, i: InputRef)
    requires CampaignInv(c) && i in Flight(c.d)
    ensures i < c.created && i !in c.freed && !InQueue(c, i)
  {
    assert FlyingOk(c, i);
    forall j | j in c.queue.high || j in c.queue.low ensures j != i {
      assert QueuedOk(c, Flight(c.d), j);
    }
  }

  lemma DispatchedPlaces(c: Campaign, ok: bool, i: InputRef)
    requires NoDuplicates(c) && !c.queue.Empty()
    ensures InQueue(Dispatched(c, ok), i) <==> InQueue(c, i)
  {
    ServedDistinct(c);
    assert Dispatched(c, ok).queue == Served(c).queue;
  }

  // One more input, in the flight or freed.
  lemma OneMorePlaced(c: Campaign, c': Campaign, ok: bool, leaked: set<InputRef>)
    requires Accounts(c, leaked) && c'.created == c.created + 1
    requires forall i: InputRef :: InQueue(c', i) <==> InQueue(c, i)
    requires c'.freed == c.freed + if ok then {} else {c.created}
    requires Flight(c'.d) == Flight(c.d) + if ok then {c.created} else {}
    ensures Accounts(c', leaked)
  {
    forall i: InputRef ensures AccountedFor(c', leaked, i) {
      assert AccountedFor(c, leaked, i);
    }
  }

  lemma SendAccounts(c: Campaign, e: Event, leaked: set<InputRef>)
    requires CampaignInv(c) && Accounts(c, leaked) && Possible(c, e) && e.a.Send?
    ensures Accounts(Step(c, e), leaked)
  {
    var c' := Step(c, e);
    forall i | i in Flight(c.d) ensures i != c.created {
      FlyingFacts(c, i);
    }
    SendFlight(c.d, e.a.input, e.a.ok);
    forall i: InputRef ensures InQueue(c', i) <==> InQueue(c, i) {
      DispatchedPlaces(c, e.a.ok, i);
    }
    OneMorePlaced(c, c', e.a.ok, leaked);
  }

  lemma HandledPlaces(c: Campaign, i: InputRef, reply: Option<Status>, verdict: Priority, j: InputRef)
    ensures var c' := Handled(c, i, reply, verdict);
            && c'.d == c.d && c'.created == c.created
            && (j in c'.freed || InQueue(c', j) <==> j in c.freed || InQueue(c, j) || (j == i && reply.Some?))
  {
  }

  lemma HandleAccounts(c: Campaign, e: Event, leaked: set<InputRef>)
    requires CampaignInv(c) && Accounts(c, leaked) && Possible(c, e) && e.a.Handle?
    ensures Accounts(Step(c, e), leaked + Dropped(c, e))
  {
    var c', s := Step(c, e), c.d;
    HandleFlight(s);
    var i := Tested(c).value;
    FlyingFacts(c, i);
    forall j: InputRef ensures AccountedFor(c', leaked + Dropped(c, e), j) {
      assert AccountedFor(c, leaked, j);
      HandledPlaces(c, i, s.pc.reply, e.verdict, j);
    }
  }

  lemma ReapAccounts(c: Campaign, e: Event, leaked: set<InputRef>)
    requires CampaignInv(c) && Accounts(c, leaked) && Possible(c, e) && e.a.Reap?
    ensures Accounts(Step(c, e), leaked + Dropped(c, e))
  {
    var c', gone := Step(c, e), Dropped(c, e);
    ReapFlight(c.d, e.a.exited);
    forall j: InputRef ensures AccountedFor(c', leaked + gone, j) {
      assert AccountedFor(c, leaked, j);
      if j in gone {
        FlyingFacts(c, j);
      }
    }
  }

  lemma StepAccounts(c: Campaign, e: Event, leaked: set<InputRef>)
    requires CampaignInv(c) && Accounts(c, leaked) && Possible(c, e)
    ensures Accounts(Step(c, e), leaked + Dropped(c, e))
  {
    if e.a.Send? {
      SendAccounts(c, e, leaked);
      assert leaked + Dropped(c, e) == leaked;
    } else if e.a.Handle? {
      HandleAccounts(c, e, leaked);
    } else if e.a.Reap? {
      ReapAccounts(c, e, leaked);
    } else {
      OtherFlight(c.d, e.a);
      forall i: InputRef ensures AccountedFor(Step(c, e), leaked + Dropped(c, e), i) {
        assert AccountedFor(c, leaked, i);
      }
    }
  }

  lemma {:induction false} RunAccounts(c: Campaign, es: seq<Event>, leaked: set<InputRef>)
    requires CampaignInv(c) && Accounts(c, leaked) && Happens(c, es)
    ensures Accounts(Reached(c, es), leaked + Leaked(c, es))
    decreases |es|
  {
    if es == [] {
      assert leaked + Leaked(c, es) == leaked;
    } else {
      var more := leaked + Dropped(c, es[0]);
      StepKeepsCampaign(c, es[0]);
      StepAccounts(c, es[0], leaked);
      RunAccounts(Step(c, es[0]), es[1..], more);
      assert more + Leaked(Step(c, es[0]), es[1..]) == leaked + Leaked(c, es);
    }
  }

  lemma EnqueuePlaces(c: Campaign, i: InputRef, high: bool, j: InputRef)
    ensures var c' := Enqueue(c, i, high);
            c'.created == c.created && (j in c'.freed || InQueue(c', j) <==> j in c.freed || InQueue(c, j) || j == i)
  {
  }

  lemma {:induction false} LoadAccounts(d: State, seeds: seq<cstring>, i: InputRef)
    requires i < Load(d, seeds).created
    ensures i in Load(d, seeds).freed || InQueue(Load(d, seeds), i)
  {
    if seeds != [] {
      var c := Load(d, seeds[..|seeds| - 1]);
      if i < c.created {
        LoadAccounts(d, seeds[..|seeds| - 1], i);
      }
      EnqueuePlaces(Make(c, seeds[|seeds| - 1]), c.created, true, i);
    }
  }

  // The exact account. After any run, the inputs that are neither freed nor queued nor in
  // flight are those of runners reaped while active and those whose status was missing.
  lemma LeakedExactly(d: State, seeds: seq<cstring>, es: seq<Event>)
    requires Reachable(d, seeds, es)
    ensures var c := Reached(Load(d, seeds), es);
            forall i: InputRef :: i in Leaked(Load(d, seeds), es) <==> i < c.created && !Placed(c, i)
  {
    var c0 := Load(d, seeds);
    StartInv(d, seeds);
    forall i: InputRef ensures AccountedFor(c0, {}, i) {
      if i < c0.created {
        LoadAccounts(d, seeds, i);
      }
    }
    RunAccounts(c0, es, {});
    var c := Reached(c0, es);
    forall i: InputRef ensures i in Leaked(c0, es) <==> i < c.created && !Placed(c, i) {
      assert AccountedFor(c, {} + Leaked(c0, es), i);
    }
  }

  // A dropped input had a place before the step and has none after it; and the input of
  // every runner reaped while active is dropped.
  lemma DroppedIsGone(c: Campaign, e: Event)
    requires CampaignInv(c) && Possible(c, e)
    ensures forall i | i in Dropped(c, e) :: i in Flight(c.d) && !Placed(Step(c, e), i)
    ensures e.a.Reap? ==> forall r | r in c.d.lists.active && r in e.a.exited ::
              Known(c.d, r) && c.d.runners[r].activeInput.Some? && c.d.runners[r].activeInput.value in Dropped(c, e)
  {
    var without := set i: InputRef | i < c.created && !Placed(c, i);
    forall i: InputRef ensures AccountedFor(c, without, i) {
    }
    StepAccounts(c, e, without);
    forall i | i in Dropped(c, e) ensures i in Flight(c.d) && !Placed(Step(c, e), i) {
      assert AccountedFor(Step(c, e), without + Dropped(c, e), i);
    }
    if e.a.Reap? {
      forall r | r in c.d.lists.active && r in e.a.exited
        ensures Known(c.d, r) && c.d.runners[r].activeInput.Some? && c.d.runners[r].activeInput.value in Dropped(c, e)
      {
        assert ActiveOk(c.d.runners[r]);
      }
    }
  }

  // ---------- Without deaths ----------

  predicate AllAlive(s: State) {
    forall r | r in s.runners :: s.runners[r].alive
  }

  lemma AliveListStep(s: State, a: Action)
    requires AllAlive(s) && Enabled(s, a) && (a.Take? || a.Send?)
    ensures AllAlive(Apply(s, a))
  {
    var t := Apply(s, a);
    forall r | r in t.runners ensures t.runners[r].alive {
      assert r in s.runners;
    }
  }

  lemma AliveRunnerStep(s: State, a: Action)
    requires AllAlive(s) && Enabled(s, a) && (a.Receive? || a.Finish? || a.Write? || a.Kill?)
    ensures AllAlive(Apply(s, a))
  {
  }

  lemma AliveStep(s: State, a: Action)
    requires AllAlive(s) && Enabled(s, a) && !a.Die?
    ensures AllAlive(Apply(s, a))
  {
    if a.Take? || a.Send? {
      AliveListStep(s, a);
    } else if a.Receive? || a.Finish? || a.Write? || a.Kill? {
      AliveRunnerStep(s, a);
    } else {
      assert Apply(s, a).runners == s.runners;
    }
  }

  lemma AliveDropsNothing(c: Campaign, e: Event)
    requires Inv(c.d) && AllAlive(c.d) && Possible(c, e)
    ensures Dropped(c, e) == {}
  {
  }

  lemma {:induction false} AliveLeaksNothing(c: Campaign, es: seq<Event>)
    requires Inv(c.d) && AllAlive(c.d) && Happens(c, es)
    requires forall e | e in es :: !e.a.Die?
    ensures Leaked(c, es) == {}
    decreases |es|
  {
    if es != [] {
      AliveDropsNothing(c, es[0]);
      AliveStep(c.d, es[0].a);
      StepKeeps(c.d, es[0].a);
      AliveLeaksNothing(Step(c, es[0]), es[1..]);
    }
  }

  predicate PlacedOnce(c: Campaign, i: InputRef) {
    && Placed(c, i)
    && !(i in c.freed && InQueue(c, i)) && !(i in c.freed && i in Flight(c.d)) && !(InQueue(c, i) && i in Flight(c.d))
  }

  lemma PlacesApart(c: Campaign, i: InputRef)
    requires CampaignInv(c) && Placed(c, i)
    ensures PlacedOnce(c, i)
  {
    if i in c.freed {
      FreedIsNowhere(c, i);
    }
    if i in Flight(c.d) {
      FlyingFacts(c, i);
    }
  }

  lemma LoadAlive(d: State, seeds: seq<cstring>)
    requires Init(d) && AllAlive(d) && forall t | t in seeds :: |t| <= Strategies.MAX_LENGTH
    ensures Inv(Load(d, seeds).d) && AllAlive(Load(d, seeds).d)
  {
    LoadOwned(d, seeds);
    InitInv(d);
  }

  // In a run without deaths every input ever made has exactly one place: it is freed, or
  // queued, or in flight. Failed sends and shutdowns do not matter.
  lemma EveryInputPlaced(d: State, seeds: seq<cstring>, es: seq<Event>, i: InputRef)
    requires Reachable(d, seeds, es) && AllAlive(d) && (forall e | e in es :: !e.a.Die?)
    requires i < Reached(Load(d, seeds), es).created
    ensures PlacedOnce(Reached(Load(d, seeds), es), i)
  {
    LoadAlive(d, seeds);
    AliveLeaksNothing(Load(d, seeds), es);
    LeakedExactly(d, seeds, es);
    ReachableInv(d, seeds, es);
    PlacesApart(Reached(Load(d, seeds), es), i);
  }
}
