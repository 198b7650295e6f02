// The main loop ends. With at least one runner and one input to send, no runner death, no
// failed send and no shutdown, a natural number falls with every step of every process,
// so each run is finite under any scheduling; and it can only end with all jobs received.
module Termination {
  import opened Prelude
  import opened RunnerLists
  import opened Dispatch
  import opened DispatchSafety

  // ---------- The measure ----------

  // How many steps the jobs at a runner still need.
  function Weight(R: Runner): nat {
    5 * |R.requests| + |R.results| +
    match R.phase
    case Running(_) => 4
    case Finished(_, _) => 3
    case Written => 1
    case Waiting => 0
  }

  predicate AllKnown(pool: seq<Rid>, runners: map<Rid, Runner>) {
    forall i | 0 <= i < |pool| :: pool[i] in runners
  }

  function Weights(pool: seq<Rid>, runners: map<Rid, Runner>, k: nat): nat
    requires AllKnown(pool, runners) && k <= |pool|
  {
    if k == 0 then 0 else Weights(pool, runners, k - 1) + Weight(runners[pool[k - 1]])
  }

  lemma {:induction false} WeightsOther(pool: seq<Rid>, runners: map<Rid, Runner>, k: nat, r: Rid, R: Runner)
    requires AllKnown(pool, runners) && k <= |pool| && r in runners
    requires forall i | 0 <= i < k :: pool[i] != r
    ensures Weights(pool, runners[r := R], k) == Weights(pool, runners, k)
  {
    if k > 0 {
      WeightsOther(pool, runners, k - 1, r, R);
    }
  }

  lemma {:induction false} WeightsUpdate(pool: seq<Rid>, runners: map<Rid, Runner>, k: nat, j: nat, R: Runner)
    requires AllKnown(pool, runners) && j < k <= |pool| && Distinct(pool)
    ensures Weights(pool, runners[pool[j] := R], k) == Weights(pool, runners, k) - Weight(runners[pool[j]]) + Weight(R)
  {
    if j == k - 1 {
      WeightsOther(pool, runners, k - 1, pool[j], R);
    } else {
      WeightsUpdate(pool, runners, k - 1, j, R);
    }
  }

  function Rank(pc: Pc): nat {
    match pc
    case Head => 9
    case Reaping => 8
    case Polling => 7
    case Checking => 6
    case Sorting(_) => 5
    case Handling(_, _) => 5
    case Collecting => 4
    case Sending => 3
    case Tail => 2
    case Suspended => 1
    case Exited => 0
  }

  function Work(s: State): int
    requires AllKnown(s.lists.pool, s.runners)
  {
    6 * (s.target - s.sent) + Weights(s.lists.pool, s.runners, |s.lists.pool|)
  }

  // A pending signal is worth one more turn of the loop.
  function Measure(s: State): int
    requires AllKnown(s.lists.pool, s.runners)
  {
    20 * Work(s) + (if s.usrPending then 10 else 0) + Rank(s.pc)
  }

  // ---------- Undisturbed states ----------

  predicate Quiet(s: State) {
    && Inv(s) && s.lists.Covers() && s.lists.pool != []
    && AllKnown(s.lists.pool, s.runners)
    && (forall r | r in s.runners :: r in s.lists.pool && s.runners[r].alive)
    && !s.chldPending && !s.chldSeen && !s.shutdown && !s.pc.Reaping? && s.lost == 0
    && (s.pc.Tail? ==> s.lists.ready == [] || s.sent >= s.target)
    && (s.pc.Exited? ==> s.received == s.target)
  }

  lemma InitQuiet(s: State)
    requires QuietStart(s) && s.lists.pool != []
    ensures Quiet(s) && Measure(s) == 120 * s.target + 9
  {
    InitInv(s);
    NothingToDo(s, |s.lists.pool|);
  }

  lemma {:induction false} NothingToDo(s: State, k: nat)
    requires QuietStart(s) && AllKnown(s.lists.pool, s.runners) && k <= |s.lists.pool|
    ensures Weights(s.lists.pool, s.runners, k) == 0
  {
    if k > 0 {
      NothingToDo(s, k - 1);
    }
  }

  lemma SomethingActive(s: State)
    requires Quiet(s) && s.pc.Tail? && s.received < s.target
    ensures s.lists.active != []
  {
    var r := s.lists.pool[0];
    assert r in s.lists.pool;
    assert r in s.lists.ready || r in s.lists.active || r in s.lists.done;
  }

  lemma QuietRunner(s: State, a: Action, r: Rid)
    requires Quiet(s) && Enabled(s, a) && Inv(Apply(s, a))
    requires a == Receive(r) || (a.Finish? && a.r == r) || a == Write(r) || a == Kill(r)
    ensures Quiet(Apply(s, a))
  {
    var t := Apply(s, a);
    assert t.lists == s.lists && t.pc == s.pc;
  }

  lemma QuietLists(s: State, t: State)
    requires Quiet(s) && Inv(t) && t.lists.Covers()
    requires t == s.(lists := t.lists, runners := t.runners, pc := t.pc, sent := t.sent)
    requires t.lists.pool == s.lists.pool && !t.pc.Tail? && !t.pc.Exited? && !t.pc.Reaping?
    requires forall r | r in t.runners :: r in s.runners && t.runners[r].alive == s.runners[r].alive
    ensures Quiet(t)
  {
    forall i | 0 <= i < |t.lists.pool| ensures t.lists.pool[i] in t.runners {
      assert t.lists.pool[i] in t.lists.pool;
    }
  }

  lemma QuietSort(s: State)
    requires Quiet(s) && s.pc.Sorting? && Inv(DoSort(s)) && DoSort(s).lists.Covers()
    ensures Quiet(DoSort(s))
  {
    QuietLists(s, DoSort(s));
  }

  lemma QuietTake(s: State)
    requires Quiet(s) && Enabled(s, Take) && Inv(DoTake(s)) && DoTake(s).lists.Covers()
    ensures Quiet(DoTake(s))
  {
    QuietLists(s, DoTake(s));
  }

  lemma QuietSend(s: State, input: InputRef)
    requires Quiet(s) && Enabled(s, Send(input, true))
    requires Inv(DoSend(s, input, true)) && DoSend(s, input, true).lists.Covers()
    ensures Quiet(DoSend(s, input, true))
  {
    QuietLists(s, DoSend(s, input, true));
  }

  // The loop never spins: it stops, or it sleeps with a job outstanding.
  lemma DecideEnds(s: State)
    requires Quiet(s) && s.pc.Tail?
    ensures DoDecide(s).pc.Exited? || DoDecide(s).pc.Suspended?
    ensures DoDecide(s).pc.Exited? ==> s.received == s.target
  {
    if s.received < s.target {
      SomethingActive(s);
    }
  }

  lemma QuietDecide(s: State)
    requires Quiet(s) && s.pc.Tail? && Inv(DoDecide(s))
    ensures Quiet(DoDecide(s))
  {
    DecideEnds(s);
  }

  lemma QuietMove(s: State, a: Action)
    requires Quiet(s) && Enabled(s, a) && Inv(Apply(s, a)) && Calm(a)
    requires a.Enter? || a.Leave? || a.Poll? || a.Select? || a.Handle? || a.Collected? || a.StopSending? || a.Wake?
    ensures Quiet(Apply(s, a))
  {
    var t := Apply(s, a);
    assert t.lists == s.lists && t.runners == s.runners;
  }

  lemma QuietStep(s: State, a: Action)
    requires Quiet(s) && Enabled(s, a) && Calm(a)
    ensures Quiet(Apply(s, a))
  {
    StepKeeps(s, a);
    CoverStep(s, a);
    match a
    case Receive(r) => QuietRunner(s, a, r);
    case Finish(r, _) => QuietRunner(s, a, r);
    case Write(r) => QuietRunner(s, a, r);
    case Kill(r) => QuietRunner(s, a, r);
    case Sort => QuietSort(s);
    case Take => QuietTake(s);
    case Send(input, _) => QuietSend(s, input);
    case Decide => QuietDecide(s);
    case _ => QuietMove(s, a);
  }

  // ---------- Every step makes progress ----------

  lemma RunnerProgress(s: State, t: State, r: Rid)
    requires Quiet(s) && r in s.runners && r in t.runners
    requires t.lists.pool == s.lists.pool && t.runners == s.runners[r := t.runners[r]]
    ensures AllKnown(t.lists.pool, t.runners)
    ensures Weights(t.lists.pool, t.runners, |t.lists.pool|) ==
            Weights(s.lists.pool, s.runners, |s.lists.pool|) - Weight(s.runners[r]) + Weight(t.runners[r])
  {
    assert r in s.lists.pool;
    var j :| 0 <= j < |s.lists.pool| && s.lists.pool[j] == r;
    WeightsUpdate(s.lists.pool, s.runners, |s.lists.pool|, j, t.runners[r]);
  }

  lemma DecideProgress(s: State)
    requires Quiet(s) && s.pc.Tail?
    ensures Measure(DoDecide(s)) < Measure(s)
  {
    DecideEnds(s);
  }

  // A step that touches no job brings the loop nearer its end, or uses up a signal.
  lemma MoveDrops(s: State, a: Action)
    requires Enabled(s, a) && Calm(a) && !s.chldPending && !s.chldSeen
    requires a.Enter? || a.Leave? || a.Poll? || a.Select? || a.Sort? || a.Handle? || a.Collected? || a.StopSending? || a.Wake?
    ensures var t := Apply(s, a);
            && t.runners == s.runners && t.lists.pool == s.lists.pool && t.sent == s.sent && t.target == s.target
            && (if t.usrPending then 10 else 0) + Rank(t.pc) < (if s.usrPending then 10 else 0) + Rank(s.pc)
  {
  }

  lemma MoveProgress(s: State, a: Action)
    requires Quiet(s) && Enabled(s, a) && Calm(a)
    requires a.Enter? || a.Leave? || a.Poll? || a.Select? || a.Sort? || a.Handle? || a.Collected? || a.StopSending? || a.Wake?
    ensures AllKnown(Apply(s, a).lists.pool, Apply(s, a).runners)
    ensures Measure(Apply(s, a)) < Measure(s)
  {
    MoveDrops(s, a);
  }

  lemma TakeProgress(s: State)
    requires Quiet(s) && Enabled(s, Take)
    ensures AllKnown(DoTake(s).lists.pool, DoTake(s).runners)
    ensures Measure(DoTake(s)) < Measure(s)
  {
    TakeWeight(s);
    RunnerProgress(s, DoTake(s), s.lists.done[0]);
  }

  // A runner in the done list that lives has a status to give up.
  lemma TakeWeight(s: State)
    requires Quiet(s) && Enabled(s, Take)
    ensures var r := s.lists.done[0]; Weight(DoTake(s).runners[r]) < Weight(s.runners[r])
  {
    var r := s.lists.done[0];
    assert r in s.lists.done && DoneOk(s.runners[r]);
  }

  lemma SendProgress(s: State, input: InputRef)
    requires Quiet(s) && Enabled(s, Send(input, true))
    ensures AllKnown(DoSend(s, input, true).lists.pool, DoSend(s, input, true).runners)
    ensures Measure(DoSend(s, input, true)) < Measure(s)
  {
    RunnerProgress(s, DoSend(s, input, true), s.lists.ready[0]);
  }

  lemma RunnerStepProgress(s: State, t: State, r: Rid)
    requires Quiet(s) && r in s.runners && r in t.runners
    requires t == s.(runners := s.runners[r := t.runners[r]], usrPending := t.usrPending)
    requires Weight(t.runners[r]) < Weight(s.runners[r])
    ensures AllKnown(t.lists.pool, t.runners)
    ensures Measure(t) < Measure(s)
  {
    RunnerProgress(s, t, r);
  }

  lemma RunnerWeightDrops(s: State, a: Action, r: Rid)
    requires Enabled(s, a)
    requires a == Receive(r) || (a.Finish? && a.r == r) || a == Write(r) || a == Kill(r)
    ensures r in s.runners && r in Apply(s, a).runners
    ensures var t := Apply(s, a); t == s.(runners := s.runners[r := t.runners[r]], usrPending := t.usrPending)
    ensures Weight(Apply(s, a).runners[r]) < Weight(s.runners[r])
  {
  }

  lemma RunnersProgress(s: State, a: Action, r: Rid)
    requires Quiet(s) && Enabled(s, a)
    requires a == Receive(r) || (a.Finish? && a.r == r) || a == Write(r) || a == Kill(r)
    ensures AllKnown(Apply(s, a).lists.pool, Apply(s, a).runners)
    ensures Measure(Apply(s, a)) < Measure(s)
  {
    RunnerWeightDrops(s, a, r);
    RunnerStepProgress(s, Apply(s, a), r);
  }

  lemma Progress(s: State, a: Action)
    requires Quiet(s) && Enabled(s, a) && Calm(a)
    ensures AllKnown(Apply(s, a).lists.pool, Apply(s, a).runners)
    ensures Measure(Apply(s, a)) < Measure(s)
  {
    match a
    case Take => TakeProgress(s);
    case Send(input, _) => SendProgress(s, input);
    case Receive(r) => RunnersProgress(s, a, r);
    case Finish(r, _) => RunnersProgress(s, a, r);
    case Write(r) => RunnersProgress(s, a, r);
    case Kill(r) => RunnersProgress(s, a, r);
    case Decide => DecideProgress(s);
    case _ => MoveProgress(s, a);
  }

  lemma {:induction false} RunsAreShort(s: State, acts: seq<Action>)
    requires Quiet(s) && Runs(s, acts)
    requires forall a | a in acts :: Calm(a)
    ensures Quiet(Last(s, acts)) && |acts| <= Measure(s) - Measure(Last(s, acts))
    decreases |acts|
  {
    if acts != [] {
      QuietStep(s, acts[0]);
      Progress(s, acts[0]);
      RunsAreShort(Apply(s, acts[0]), acts[1..]);
    }
  }

  // The main theorem. Any undisturbed run, however scheduled, has at most 120 steps a job;
  // unless it is over it can go on; and when it is over every job has been received and
  // every runner is ready again.
  lemma MainLoopTerminates(s0: State, acts: seq<Action>)
    requires QuietStart(s0) && s0.lists.pool != [] && Runs(s0, acts)
    requires forall a | a in acts :: Calm(a)
    ensures |acts| <= 120 * s0.target + 9
    ensures Last(s0, acts).pc.Exited? || exists a :: CanStep(Last(s0, acts), a)
    ensures Last(s0, acts).pc.Exited? ==>
              Last(s0, acts).received == s0.target && Last(s0, acts).lists.active == [] && Last(s0, acts).lists.done == []
  {
    InitQuiet(s0);
    RunsAreShort(s0, acts);
    TargetFixed(s0, acts);
    var s := Last(s0, acts);
    if !s.pc.Exited? {
      var a := NeverStuck(s);
      assert CanStep(s, a);
    }
  }

  lemma TargetStep(s: State, a: Action)
    requires Enabled(s, a)
    ensures Apply(s, a).target == s.target
  {
    match a
    case Enter => assert DoEnter(s).target == s.target;
    case Take => assert DoTake(s).target == s.target;
    case Send(input, ok) => assert DoSend(s, input, ok).target == s.target;
    case Decide => assert DoDecide(s).target == s.target;
    case _ =>
  }

  lemma {:induction false} TargetFixed(s: State, acts: seq<Action>)
    requires Runs(s, acts)
    ensures Last(s, acts).target == s.target
    decreases |acts|
  {
    if acts != [] {
      TargetStep(s, acts[0]);
      TargetFixed(Apply(s, acts[0]), acts[1..]);
    }
  }
}
