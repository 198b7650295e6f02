// What every reachable state of the dispatch protocol satisfies.
module DispatchSafety {
  import opened Prelude
  import opened RunnerLists
  import opened Dispatch

  // ---------- The invariant ----------

  predicate Idle(R: Runner) {
    R.phase.Waiting? || R.phase.Written?
  }

  // A ready runner owes nothing.
  predicate ReadyOk(R: Runner) {
    R.results == [] && (R.alive ==> R.requests == [] && Idle(R))
  }

  // An active runner that lives has its job in exactly one place: requested, under way or
  // reported.
  predicate ActiveOk(R: Runner) {
    && R.activeInput.Some?
    && (R.results == [] || (|R.results| == 1 && R.results[0].job == R.activeInput.value))
    && (R.alive ==>
          || (R.requests == [R.activeInput.value] && Idle(R) && R.results == [])
          || (R.requests == [] && R.results == [] && R.phase == Running(R.activeInput.value))
          || (R.requests == [] && R.results == [] && R.phase.Finished? && R.phase.job == R.activeInput.value)
          || (R.requests == [] && Idle(R) && R.results != []))
  }

  // A done runner has reported, unless it died first.
  predicate DoneOk(R: Runner) {
    ActiveOk(R) && (R.alive ==> R.results != [])
  }

  predicate Shape(s: State) {
    s.lists.Valid() && forall r | r in s.lists.pool :: r in s.runners
  }

  predicate Known(s: State, r: Rid) {
    r in s.runners
  }

  predicate Tokens(s: State) {
    && (forall r | r in s.lists.ready :: Known(s, r) && ReadyOk(s.runners[r]))
    && (forall r | r in s.lists.active :: Known(s, r) && ActiveOk(s.runners[r]))
    && (forall r | r in s.lists.done :: Known(s, r) && DoneOk(s.runners[r]))
  }

  // A reported status has its signal on the way, or the fuzzer is about to look.
  predicate Signalled(s: State, r: Rid)
    requires r in s.runners
  {
    s.runners[r].alive && s.runners[r].results != [] ==>
      || s.runners[r].phase.Written?
      || s.usrPending || s.usrSeen
      || s.pc.Checking? || (s.pc.Sorting? && r in s.pc.readable)
  }

  predicate Mourned(s: State, r: Rid)
    requires r in s.runners
  {
    !s.runners[r].alive ==> s.chldPending || s.chldSeen || s.pc.Reaping?
  }

  predicate Wakeups(s: State) {
    && (forall r | r in s.lists.active :: Known(s, r) && Signalled(s, r))
    && (forall r | r in s.lists.pool :: Known(s, r) && Mourned(s, r))
  }

  predicate HandlingOk(s: State) {
    s.pc.Handling? ==>
      var r := s.pc.runner;
      && r in s.lists.ready && Known(s, r) && s.runners[r].activeInput.Some?
      && (s.pc.reply.Some? ==> s.pc.reply.value.job == s.runners[r].activeInput.value)
      && (s.pc.reply.None? ==> !s.runners[r].alive)
  }

  predicate SortingOk(s: State) {
    s.pc.Sorting? ==> forall r | r in s.pc.readable ::
      r in s.lists.active && Known(s, r) && (s.runners[r].alive ==> s.runners[r].results != [])
  }

  predicate Control(s: State) {
    && (s.lists.done == [] || s.pc.Collecting? || s.pc.Handling?)
    && (s.pc.Suspended? ==> s.lists.active != [] && !s.usrSeen && !s.chldSeen && Continues(s))
    && (s.usrSeen ==> s.pc.Head? || s.pc.Reaping? || s.pc.Polling? || s.pc.Exited?)
    && (s.chldSeen ==> s.pc.Head? || s.pc.Exited?)
    && (s.pc.Exited? ==> !Continues(s))
    && HandlingOk(s) && SortingOk(s)
  }

  function InHand(s: State): nat {
    if s.pc.Handling? then 1 else 0
  }

  predicate Counts(s: State) {
    && s.sent <= s.target
    && s.sent == s.received + |s.lists.active| + |s.lists.done| + s.lost + InHand(s)
  }

  predicate Inv(s: State) {
    Shape(s) && Tokens(s) && Wakeups(s) && Control(s) && Counts(s)
  }

  lemma InitInv(s: State)
    requires Init(s)
    ensures Inv(s)
  {
  }

  // ---------- Every step keeps it ----------

  // Steps that move the fuzzer along without touching lists or runners.
  lemma MoveKeeps(s: State, t: State)
    requires Inv(s) && t == s.(pc := t.pc, usrSeen := t.usrSeen, chldSeen := t.chldSeen,
                              usrPending := t.usrPending, chldPending := t.chldPending, shutdown := t.shutdown)
    requires !s.pc.Handling? && Control(t) && !t.pc.Handling?
    requires s.usrPending || s.usrSeen || s.pc.Checking? ==>
               s.lists.active == [] || t.usrPending || t.usrSeen || t.pc.Checking?
               || (t.pc.Sorting? && forall r | r in s.lists.active && Known(s, r) && s.runners[r].results != [] :: r in t.pc.readable)
    requires s.pc.Sorting? ==> t.pc == s.pc
    requires s.chldPending || s.chldSeen || s.pc.Reaping? ==> t.chldPending || t.chldSeen || t.pc.Reaping?
    ensures Inv(t)
  {
    forall r | r in t.lists.active ensures Known(t, r) && Signalled(t, r) {
      assert Known(s, r) && Signalled(s, r);
    }
    forall r | r in t.lists.pool ensures Known(t, r) && Mourned(t, r) {
      assert Known(s, r) && Mourned(s, r);
    }
  }

  lemma LocalKeeps(s: State, a: Action)
    requires Inv(s) && Enabled(s, a)
    requires a.Enter? || a.Leave? || a.Poll? || a.Collected? || a.QueueEmpty? || a.StopSending? || a.Decide?
    ensures Inv(Apply(s, a))
  {
    MoveKeeps(s, Apply(s, a));
  }

  lemma WakeKeeps(s: State, usr: bool, chld: bool, stop: bool)
    requires Inv(s) && Enabled(s, Wake(usr, chld, stop))
    ensures Inv(DoWake(s, usr, chld, stop))
  {
    MoveKeeps(s, DoWake(s, usr, chld, stop));
  }

  lemma HandleKeeps(s: State)
    requires Inv(s) && Enabled(s, Handle)
    ensures Inv(Apply(s, Handle))
  {
  }

  lemma SelectKeeps(s: State, atEof: set<Rid>)
    requires Inv(s) && Enabled(s, Select(atEof))
    ensures Inv(DoSelect(s, atEof))
  {
    MoveKeeps(s, DoSelect(s, atEof));
  }

  lemma SortKeepsTokens(s: State)
    requires Inv(s) && Enabled(s, Sort)
    ensures Shape(DoSort(s)) && Tokens(DoSort(s)) && Control(DoSort(s))
  {
    var l, R := s.lists, s.pc.readable;
    CheckedValid(l, R);
    OnlyMembers(l.active, R);
    ExceptMembers(l.active, R);
    assert l.done == [];
  }

  lemma SortKeepsWakeups(s: State)
    requires Inv(s) && Enabled(s, Sort)
    ensures Wakeups(DoSort(s))
  {
    var t := DoSort(s);
    ExceptMembers(s.lists.active, s.pc.readable);
    forall r | r in t.lists.active ensures Known(t, r) && Signalled(t, r) {
      assert Known(s, r) && Signalled(s, r);
    }
    forall r | r in t.lists.pool ensures Known(t, r) && Mourned(t, r) {
      assert Known(s, r) && Mourned(s, r);
    }
  }

  lemma SortKeeps(s: State)
    requires Inv(s) && Enabled(s, Sort)
    ensures Inv(DoSort(s))
  {
    SortKeepsTokens(s);
    SortKeepsWakeups(s);
    FiltersSplit(s.lists.active, |s.lists.active|, s.pc.readable);
  }

  lemma ReapKeeps(s: State, exited: set<Rid>)
    requires Inv(s) && Enabled(s, Reap(exited))
    ensures Inv(DoReap(s, exited))
  {
    var l := s.lists;
    ReapedValid(l, exited);
    ExceptMembers(l.pool, exited);
    ExceptMembers(l.ready, exited);
    ExceptMembers(l.active, exited);
    FiltersSplit(l.active, |l.active|, exited);
    assert l.done == [] && Except(l.done, exited) == [];
  }

  lemma TakeKeepsTokens(s: State)
    requires Inv(s) && Enabled(s, Take)
    ensures DoTake(s).lists.Valid() && Tokens(DoTake(s)) && Control(DoTake(s))
  {
    var l, t, r := s.lists, DoTake(s), s.lists.done[0];
    ProcessedValid(l);
    HeadAndTail(l.done);
    assert r in l.done && DoneOk(s.runners[r]);
    forall x | x in t.lists.ready ensures Known(t, x) && ReadyOk(t.runners[x]) {
      if x != r {
        assert x in l.ready && ReadyOk(s.runners[x]);
      }
    }
    forall x | x in t.lists.active ensures Known(t, x) && ActiveOk(t.runners[x]) {
      assert x in l.active && x != r && ActiveOk(s.runners[x]);
    }
    forall x | x in t.lists.done ensures Known(t, x) && DoneOk(t.runners[x]) {
      assert x in l.done && x != r && DoneOk(s.runners[x]);
    }
  }

  // A fuzzer step that moves a runner between lists changes nothing about the others.
  lemma WakeupsFollow(s: State, t: State)
    requires Wakeups(s) && !s.pc.Checking? && !s.pc.Sorting? && !s.pc.Reaping?
    requires t.usrPending == s.usrPending && t.usrSeen == s.usrSeen
    requires t.chldPending == s.chldPending && t.chldSeen == s.chldSeen
    requires forall x | x in s.lists.pool :: Known(s, x) ==> Known(t, x) && t.runners[x].alive == s.runners[x].alive
    requires forall x | x in t.lists.pool :: x in s.lists.pool
    requires forall x | x in t.lists.active :: Known(t, x) &&
               ((x in s.lists.active && t.runners[x] == s.runners[x]) || t.runners[x].results == [])
    ensures Wakeups(t)
  {
    forall x | x in t.lists.active ensures Known(t, x) && Signalled(t, x) {
      if t.runners[x].results != [] {
        assert Known(s, x) && Signalled(s, x);
      }
    }
    forall x | x in t.lists.pool ensures Known(t, x) && Mourned(t, x) {
      assert Known(s, x) && Mourned(s, x);
    }
  }

  lemma TakeKeeps(s: State)
    requires Inv(s) && Enabled(s, Take)
    ensures Inv(DoTake(s))
  {
    TakeKeepsTokens(s);
    TakeKeepsWakeups(s);
  }

  lemma TakeKeepsWakeups(s: State)
    requires Inv(s) && Enabled(s, Take)
    ensures Wakeups(DoTake(s))
  {
    WakeupsFollow(s, DoTake(s));
  }

  lemma SendKeeps(s: State, input: InputRef, ok: bool)
    requires Inv(s) && Enabled(s, Send(input, ok))
    ensures Inv(DoSend(s, input, ok))
  {
    SubmittedValid(s.lists, ok);
    HeadAndTail(s.lists.ready);
    WakeupsFollow(s, DoSend(s, input, ok));
  }

  // A step of runner r keeps the invariant if it keeps what the invariant says of r.
  lemma RunnerKeeps(s: State, t: State, r: Rid)
    requires Inv(s) && r in s.runners && r in t.runners
    requires t == s.(runners := s.runners[r := t.runners[r]], usrPending := t.usrPending, chldPending := t.chldPending)
    requires (s.usrPending ==> t.usrPending) && (s.chldPending ==> t.chldPending)
    requires var R, R' := s.runners[r], t.runners[r];
             && (ReadyOk(R) ==> ReadyOk(R')) && (ActiveOk(R) ==> ActiveOk(R')) && (DoneOk(R) ==> DoneOk(R'))
             && R'.activeInput == R.activeInput && (R'.alive ==> R.alive)
             && (R.results != [] ==> R'.results != [])
    requires Signalled(s, r) ==> Signalled(t, r)
    requires Mourned(s, r) ==> Mourned(t, r)
    ensures Inv(t)
  {
    forall x | x in t.lists.active ensures Known(t, x) && Signalled(t, x) {
      assert Known(s, x) && Signalled(s, x);
    }
    forall x | x in t.lists.pool ensures Known(t, x) && Mourned(t, x) {
      assert Known(s, x) && Mourned(s, x);
    }
  }

  lemma ReceiveKeeps(s: State, r: Rid)
    requires Inv(s) && Enabled(s, Receive(r))
    ensures Inv(DoReceive(s, r))
  {
    RunnerKeeps(s, DoReceive(s, r), r);
  }

  lemma FinishKeeps(s: State, r: Rid, outcome: Outcome)
    requires Inv(s) && Enabled(s, Finish(r, outcome))
    ensures Inv(DoFinish(s, r, outcome))
  {
    RunnerKeeps(s, DoFinish(s, r, outcome), r);
  }

  lemma WriteKeeps(s: State, r: Rid)
    requires Inv(s) && Enabled(s, Write(r))
    ensures Inv(DoWrite(s, r))
  {
    RunnerKeeps(s, DoWrite(s, r), r);
  }

  lemma KillKeeps(s: State, r: Rid)
    requires Inv(s) && Enabled(s, Kill(r))
    ensures Inv(DoKill(s, r))
  {
    RunnerKeeps(s, DoKill(s, r), r);
  }

  lemma DieKeeps(s: State, r: Rid)
    requires Inv(s) && Enabled(s, Die(r))
    ensures Inv(DoDie(s, r))
  {
    RunnerKeeps(s, DoDie(s, r), r);
  }

  lemma StepKeeps(s: State, a: Action)
    requires Inv(s) && Enabled(s, a)
    ensures Inv(Apply(s, a))
  {
    match a
    case Handle => HandleKeeps(s);
    case Select(atEof) => SelectKeeps(s, atEof);
    case Sort => SortKeeps(s);
    case Reap(exited) => ReapKeeps(s, exited);
    case Take => TakeKeeps(s);
    case Send(input, ok) => SendKeeps(s, input, ok);
    case Receive(r) => ReceiveKeeps(s, r);
    case Finish(r, outcome) => FinishKeeps(s, r, outcome);
    case Write(r) => WriteKeeps(s, r);
    case Kill(r) => KillKeeps(s, r);
    case Die(r) => DieKeeps(s, r);
    case Wake(usr, chld, stop) => WakeKeeps(s, usr, chld, stop);
    case _ => LocalKeeps(s, a);
  }

  lemma {:induction false} RunKeeps(s: State, acts: seq<Action>)
    requires Inv(s) && Runs(s, acts)
    ensures Inv(Last(s, acts))
    decreases |acts|
  {
    if acts != [] {
      StepKeeps(s, acts[0]);
      RunKeeps(Apply(s, acts[0]), acts[1..]);
    }
  }

  // ---------- What it means in every reachable state ----------

  // Whenever an active runner's status is waiting in its pipe, a signal is pending or about
  // to be sent, or the fuzzer is about to look. In particular it never sleeps on one.
  lemma NoLostWakeup(s0: State, acts: seq<Action>, r: Rid)
    requires Init(s0) && Runs(s0, acts)
    requires var s := Last(s0, acts); r in s.lists.active && r in s.runners && s.runners[r].results != []
    ensures var s := Last(s0, acts);
            if s.runners[r].alive then
              || s.runners[r].phase.Written? || s.usrPending || s.usrSeen
              || s.pc.Checking? || (s.pc.Sorting? && r in s.pc.readable)
            else
              s.chldPending || s.chldSeen || s.pc.Reaping?
    ensures var s := Last(s0, acts);
            s.pc.Suspended? ==> s.usrPending || s.chldPending || (s.runners[r].alive && s.runners[r].phase.Written?)
  {
    InitInv(s0);
    RunKeeps(s0, acts);
    var s := Last(s0, acts);
    assert Known(s, r) && Signalled(s, r);
    assert r in s.lists.pool && Mourned(s, r);
  }

  // When a status is handled it is about the runner's own input, and no target of that
  // runner is executing: its coverage buffer can be read.
  lemma StatusBelongs(s0: State, acts: seq<Action>)
    requires Init(s0) && Runs(s0, acts) && Last(s0, acts).pc.Handling?
    ensures var s := Last(s0, acts);
            var r := s.pc.runner;
            && r in s.runners
            && s.runners[r].activeInput.Some?
            && (s.pc.reply.Some? ==> s.pc.reply.value.job == s.runners[r].activeInput.value)
            && (s.pc.reply.None? ==> !s.runners[r].alive)
            && (s.runners[r].alive ==> s.runners[r].requests == [] && s.runners[r].results == []
                                       && !s.runners[r].phase.Running? && !s.runners[r].phase.Finished?)
  {
    InitInv(s0);
    RunKeeps(s0, acts);
  }

  // The three lists stay disjoint and within the pool, and every job is accounted for.
  lemma JobsAccounted(s0: State, acts: seq<Action>)
    requires Init(s0) && Runs(s0, acts)
    ensures var s := Last(s0, acts);
            && s.lists.Valid()
            && |s.lists.ready| + |s.lists.active| + |s.lists.done| <= |s.lists.pool|
            && 0 <= s.received <= s.sent <= s.target
            && (s.pc.Head? ==> s.lists.done == [] && s.sent - s.received == |s.lists.active| + s.lost)
  {
    InitInv(s0);
    RunKeeps(s0, acts);
    ListsFit(Last(s0, acts).lists);
  }

  // ---------- The active input ----------

  predicate Sends(s: State, a: Action, r: Rid)
    requires Enabled(s, a)
  {
    a.Send? && a.ok && s.lists.ready[0] == r
  }

  // The inputs that reach runner r in a run, in order.
  function SentTo(s: State, acts: seq<Action>, r: Rid): seq<InputRef>
    requires Runs(s, acts)
    decreases |acts|
  {
    if acts == [] then []
    else (if Sends(s, acts[0], r) then [acts[0].input] else []) + SentTo(Apply(s, acts[0]), acts[1..], r)
  }

  lemma OtherStepKeepsInput(s: State, a: Action, r: Rid)
    requires Enabled(s, a) && !a.Send?
    ensures r in Apply(s, a).runners <==> r in s.runners
    ensures r in s.runners ==> Apply(s, a).runners[r].activeInput == s.runners[r].activeInput
  {
    if a.Receive? || a.Finish? || a.Write? || a.Kill? || a.Die? {
      RunnerStepKeepsInput(s, a, r);
    } else if a.Take? {
      assert DoTake(s).runners.Keys == s.runners.Keys;
    } else {
      assert Apply(s, a).runners == s.runners;
    }
  }

  lemma RunnerStepKeepsInput(s: State, a: Action, r: Rid)
    requires Enabled(s, a) && (a.Receive? || a.Finish? || a.Write? || a.Kill? || a.Die?)
    ensures r in Apply(s, a).runners <==> r in s.runners
    ensures r in s.runners ==> Apply(s, a).runners[r].activeInput == s.runners[r].activeInput
  {
  }

  lemma StepSetsInput(s: State, a: Action, r: Rid)
    requires Enabled(s, a)
    ensures r in Apply(s, a).runners <==> r in s.runners
    ensures r in s.runners ==>
              Apply(s, a).runners[r].activeInput == if Sends(s, a, r) then Some(a.input) else s.runners[r].activeInput
  {
    if !a.Send? {
      OtherStepKeepsInput(s, a, r);
    }
  }

  lemma {:induction false} RunSetsInput(s: State, acts: seq<Action>, r: Rid)
    requires Runs(s, acts)
    ensures r in Last(s, acts).runners <==> r in s.runners
    ensures r in s.runners ==>
              var sent := SentTo(s, acts, r);
              Last(s, acts).runners[r].activeInput == if sent == [] then s.runners[r].activeInput else Some(sent[|sent| - 1])
    decreases |acts|
  {
    if acts != [] {
      StepSetsInput(s, acts[0], r);
      RunSetsInput(Apply(s, acts[0]), acts[1..], r);
    }
  }

  // The active input of a runner is the last input that reached it, busy or not: it is NULL
  // exactly until the first one has. While the runner is active or done, that is the job it
  // has. So the field tells an idle runner from a busy one, as runner.h has it, exactly
  // for runners that are busy or have never been.
  lemma ActiveInputExactly(s0: State, acts: seq<Action>, r: Rid)
    requires Init(s0) && Runs(s0, acts) && r in Last(s0, acts).runners
    ensures var R := Last(s0, acts).runners[r]; var l := Last(s0, acts).lists; var sent := SentTo(s0, acts, r);
            && R.activeInput == (if sent == [] then None else Some(sent[|sent| - 1]))
            && (r in l.active || r in l.done ==> sent != [] && ActiveOk(R))
            && ((R.activeInput.Some? <==> r in l.active || r in l.done) <==> (r in l.active || r in l.done || sent == []))
  {
    InitInv(s0);
    RunKeeps(s0, acts);
    RunSetsInput(s0, acts, r);
    var s := Last(s0, acts);
    assert r in s.lists.active ==> ActiveOk(s.runners[r]);
    assert r in s.lists.done ==> DoneOk(s.runners[r]);
  }

  // A runner reaped while active takes its job with it: from then on the loop cannot receive
  // all it wants, and only a shutdown ends it.
  lemma LostJobNeverArrives(s0: State, acts: seq<Action>)
    requires Init(s0) && Runs(s0, acts)
    ensures var s := Last(s0, acts);
            && s.received <= s.target - s.lost
            && (s.lost > 0 && s.pc.Exited? ==> s.shutdown)
  {
    InitInv(s0);
    RunKeeps(s0, acts);
  }

  // ---------- Progress ----------

  // No death, no failed send, no empty queue, no shutdown.
  predicate Calm(a: Action) {
    !a.Die? && !a.QueueEmpty? && (a.Send? ==> a.ok) && (a.Wake? ==> !a.stop)
  }

  predicate CanStep(s: State, a: Action) {
    Enabled(s, a) && Calm(a)
  }

  lemma RunnerCanStep(s: State, r: Rid) returns (a: Action)
    requires Inv(s) && r in s.lists.active && s.pc.Suspended?
    ensures CanStep(s, a)
  {
    assert Known(s, r) && ActiveOk(s.runners[r]) && Signalled(s, r);
    assert r in s.lists.pool && Mourned(s, r);
    var R := s.runners[r];
    if !R.alive {
      a := Wake(false, true, false);
    } else {
      match R.phase
      case Written => a := Kill(r);
      case Running(_) => a := Finish(r, Valid);
      case Finished(_, _) => a := Write(r);
      case Waiting => a := if R.results == [] then Receive(r) else Wake(true, false, false);
    }
  }

  // Nothing that happens to a runner is worse than being reported or mourned: some calm step
  // is always possible until the loop exits.
  lemma NeverStuck(s: State) returns (a: Action)
    requires Inv(s) && !s.pc.Exited?
    ensures CanStep(s, a)
  {
    match s.pc
    case Head => a := if Continues(s) then Enter else Leave;
    case Reaping =>
      a := Reap(set r | r in s.lists.pool && r in s.runners && !s.runners[r].alive);
    case Polling => a := Poll;
    case Checking => a := Select({});
    case Sorting(_) => a := Sort;
    case Collecting =>
      if s.lists.done == [] {
        a := Collected;
      } else {
        assert s.lists.done[0] in s.lists.done;
        a := Take;
      }
    case Handling(_, _) => a := Handle;
    case Sending =>
      if s.lists.ready == [] || s.sent >= s.target {
        a := StopSending;
      } else {
        assert s.lists.ready[0] in s.lists.ready;
        a := Send(0, true);
      }
    case Tail => a := Decide;
    case Suspended => a := RunnerCanStep(s, s.lists.active[0]);
  }

  // As long as no send fails, no runner of the pool goes missing.
  lemma {:induction false} PoolStaysCovered(s: State, acts: seq<Action>)
    requires Inv(s) && s.lists.Covers() && Runs(s, acts)
    requires forall a | a in acts :: a.Send? ==> a.ok
    ensures Last(s, acts).lists.Covers()
    decreases |acts|
  {
    if acts != [] {
      CoverStep(s, acts[0]);
      StepKeeps(s, acts[0]);
      PoolStaysCovered(Apply(s, acts[0]), acts[1..]);
    }
  }

  lemma CoverStep(s: State, a: Action)
    requires Inv(s) && s.lists.Covers() && Enabled(s, a)
    requires a.Send? ==> a.ok
    ensures Apply(s, a).lists.Covers()
  {
    match a
    case Reap(exited) => ReapedValid(s.lists, exited);
    case Sort => CheckedValid(s.lists, s.pc.readable);
    case Take => ProcessedValid(s.lists);
    case Send(_, _) => SubmittedValid(s.lists, true);
    case _ => assert Apply(s, a).lists == s.lists;
  }
}
