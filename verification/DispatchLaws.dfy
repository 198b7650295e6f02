// The protocol against references that do not mention its step functions: what stops the
// loop, which signals are pending, what the counters count, who is served next, and that
// jobs and statuses travel unchanged and in order. Each law speaks of the actions of a run.
module DispatchLaws {
  import opened Prelude
  import opened RunnerLists
  import opened Dispatch
  import opened DispatchSafety

  // ---------- What stops the loop ----------

  // A stop signal that is delivered, or a reaping that takes every runner left.
  predicate Stops(s: State, a: Action) {
    (a.Wake? && a.stop) || (a.Reap? && forall r | r in s.lists.pool :: r in a.exited)
  }

  predicate Stopped(s: State, acts: seq<Action>)
    requires Runs(s, acts)
    decreases |acts|
  {
    acts != [] && (Stops(s, acts[0]) || Stopped(Apply(s, acts[0]), acts[1..]))
  }

  lemma NoneLeft(pool: seq<Rid>, exited: set<Rid>)
    ensures Except(pool, exited) == [] <==> forall r | r in pool :: r in exited
  {
    ExceptMembers(pool, exited);
    var left := Except(pool, exited);
    if left != [] {
      assert left[0] in left;
    }
  }

  lemma StopByReap(s: State, exited: set<Rid>)
    requires Enabled(s, Reap(exited))
    ensures DoReap(s, exited).shutdown <==> s.shutdown || Stops(s, Reap(exited))
  {
    NoneLeft(s.lists.pool, exited);
  }

  lemma NoStop(s: State, a: Action)
    requires Enabled(s, a) && !a.Reap? && !a.Wake? && !OfRunner(a)
    ensures Apply(s, a).shutdown == s.shutdown
  {
    match a
    case Enter => assert DoEnter(s).shutdown == s.shutdown;
    case Poll => assert DoPoll(s).shutdown == s.shutdown;
    case Select(atEof) => assert DoSelect(s, atEof).shutdown == s.shutdown;
    case Sort => assert DoSort(s).shutdown == s.shutdown;
    case Take => assert DoTake(s).shutdown == s.shutdown;
    case Send(input, ok) => assert DoSend(s, input, ok).shutdown == s.shutdown;
    case Decide => assert DoDecide(s).shutdown == s.shutdown;
    case _ =>
  }

  lemma StopStep(s: State, a: Action)
    requires Enabled(s, a)
    ensures Apply(s, a).shutdown <==> s.shutdown || Stops(s, a)
  {
    if a.Reap? {
      StopByReap(s, a.exited);
    } else if OfRunner(a) {
      RunnerStep(s, a);
    } else if !a.Wake? {
      NoStop(s, a);
    }
  }

  lemma {:induction false} StopRun(s: State, acts: seq<Action>)
    requires Runs(s, acts)
    ensures Last(s, acts).shutdown <==> s.shutdown || Stopped(s, acts)
    decreases |acts|
  {
    if acts != [] {
      StopStep(s, acts[0]);
      StopRun(Apply(s, acts[0]), acts[1..]);
    }
  }

  // A shutdown is on exactly if it was from the start, a stop signal has been delivered, or
  // the last runners were reaped. Only then can the loop end with results still wanted.
  lemma ShutdownExactly(s0: State, acts: seq<Action>)
    requires Init(s0) && Runs(s0, acts)
    ensures var s := Last(s0, acts);
            && (s.shutdown <==> s0.shutdown || Stopped(s0, acts))
            && (s.pc.Exited? && s.received < s.target ==> s0.shutdown || Stopped(s0, acts))
  {
    StopRun(s0, acts);
    InitInv(s0);
    RunKeeps(s0, acts);
  }

  // ---------- Signals ----------

  datatype Signals = Signals(usrPending: bool, chldPending: bool, usrSeen: bool, chldSeen: bool)

  function SignalsOf(s: State): Signals {
    Signals(s.usrPending, s.chldPending, s.usrSeen, s.chldSeen)
  }

  // A kill and a death raise a signal, a wake delivers what it names, and the two tests of
  // the loop clear their flags. Nothing else touches them.
  function SignalsBy(g: Signals, a: Action): Signals {
    match a
    case Kill(_) => g.(usrPending := true)
    case Die(_) => g.(chldPending := true)
    case Wake(usr, chld, _) =>
      Signals(g.usrPending && !usr, g.chldPending && !chld, g.usrSeen || usr, g.chldSeen || chld)
    case Poll => g.(usrSeen := false)
    case Enter => g.(chldSeen := false)
    case _ => g
  }

  function SignalsAfter(g: Signals, acts: seq<Action>): Signals
    decreases |acts|
  {
    if acts == [] then g else SignalsAfter(SignalsBy(g, acts[0]), acts[1..])
  }

  predicate OfRunner(a: Action) {
    a.Receive? || a.Finish? || a.Write? || a.Kill? || a.Die?
  }

  // A runner's step is its own affair, but for the signal it may raise.
  lemma RunnerStep(s: State, a: Action)
    requires Enabled(s, a) && OfRunner(a)
    ensures var t := Apply(s, a);
            && t == s.(runners := t.runners, usrPending := t.usrPending, chldPending := t.chldPending)
            && t.usrPending == (s.usrPending || a.Kill?) && t.chldPending == (s.chldPending || a.Die?)
  {
    match a
    case Receive(r) => assert DoReceive(s, r) == s.(runners := DoReceive(s, r).runners);
    case Finish(r, outcome) => assert DoFinish(s, r, outcome) == s.(runners := DoFinish(s, r, outcome).runners);
    case Write(r) => assert DoWrite(s, r) == s.(runners := DoWrite(s, r).runners);
    case Kill(r) => assert DoKill(s, r) == s.(runners := DoKill(s, r).runners, usrPending := true);
    case Die(r) => assert DoDie(s, r) == s.(runners := DoDie(s, r).runners, chldPending := true);
  }

  // The steps that move the fuzzer along, and those that change its lists.
  predicate OfLists(a: Action) {
    a.Reap? || a.Sort? || a.Take? || a.Send?
  }

  datatype Tally = Tally(sent: nat, received: nat, pool: seq<Rid>)

  function TallyOf(s: State): Tally {
    Tally(s.sent, s.received, s.lists.pool)
  }

  function TallyBy(g: Tally, a: Action): Tally {
    if a.Handle? then g.(received := g.received + 1)
    else if a.Send? && a.ok then g.(sent := g.sent + 1)
    else if a.Reap? then g.(pool := Except(g.pool, a.exited))
    else g
  }

  lemma MoveStep(s: State, a: Action)
    requires Enabled(s, a) && !OfRunner(a) && !OfLists(a)
    ensures SignalsOf(Apply(s, a)) == SignalsBy(SignalsOf(s), a) && TallyOf(Apply(s, a)) == TallyBy(TallyOf(s), a)
  {
    match a
    case Enter => assert DoEnter(s).lists == s.lists;
    case Poll => assert DoPoll(s).lists == s.lists;
    case Select(atEof) => assert DoSelect(s, atEof).lists == s.lists;
    case Decide => assert DoDecide(s).lists == s.lists;
    case Wake(usr, chld, stop) => assert DoWake(s, usr, chld, stop).lists == s.lists;
    case _ =>
  }

  lemma ListStep(s: State, a: Action)
    requires Enabled(s, a) && OfLists(a)
    ensures SignalsOf(Apply(s, a)) == SignalsBy(SignalsOf(s), a) && TallyOf(Apply(s, a)) == TallyBy(TallyOf(s), a)
  {
    match a
    case Reap(exited) => assert DoReap(s, exited).lists == s.lists.Reaped(exited);
    case Sort => assert DoSort(s).lists.pool == s.lists.pool;
    case Take => assert TallyOf(DoTake(s)) == TallyOf(s) && SignalsOf(DoTake(s)) == SignalsOf(s);
    case Send(input, ok) => SendStep(s, input, ok);
  }

  lemma SendStep(s: State, input: InputRef, ok: bool)
    requires Enabled(s, Send(input, ok))
    ensures var t := DoSend(s, input, ok);
            && SignalsOf(t) == SignalsOf(s)
            && TallyOf(t) == TallyOf(s).(sent := s.sent + if ok then 1 else 0)
  {
  }

  lemma FuzzerStep(s: State, a: Action)
    requires Enabled(s, a) && !OfRunner(a)
    ensures SignalsOf(Apply(s, a)) == SignalsBy(SignalsOf(s), a) && TallyOf(Apply(s, a)) == TallyBy(TallyOf(s), a)
  {
    if OfLists(a) {
      ListStep(s, a);
    } else {
      MoveStep(s, a);
    }
  }

  lemma SignalStep(s: State, a: Action)
    requires Enabled(s, a)
    ensures SignalsOf(Apply(s, a)) == SignalsBy(SignalsOf(s), a)
  {
    if OfRunner(a) {
      RunnerStep(s, a);
    } else {
      FuzzerStep(s, a);
    }
  }

  lemma {:induction false} SignalsExactly(s: State, acts: seq<Action>)
    requires Runs(s, acts)
    ensures SignalsOf(Last(s, acts)) == SignalsAfter(SignalsOf(s), acts)
    decreases |acts|
  {
    if acts != [] {
      SignalStep(s, acts[0]);
      SignalsExactly(Apply(s, acts[0]), acts[1..]);
    }
  }

  // ---------- Counters and the pool ----------

  function SendsOf(acts: seq<Action>): nat {
    if acts == [] then 0 else (if acts[0].Send? && acts[0].ok then 1 else 0) + SendsOf(acts[1..])
  }

  function HandlesOf(acts: seq<Action>): nat {
    if acts == [] then 0 else (if acts[0].Handle? then 1 else 0) + HandlesOf(acts[1..])
  }

  function ReapedIn(acts: seq<Action>): set<Rid> {
    if acts == [] then {} else (if acts[0].Reap? then acts[0].exited else {}) + ReapedIn(acts[1..])
  }

  lemma CountStep(s: State, a: Action)
    requires Enabled(s, a)
    ensures var t := Apply(s, a);
            && t.sent == s.sent + (if a.Send? && a.ok then 1 else 0)
            && t.received == s.received + (if a.Handle? then 1 else 0)
            && t.lists.pool == (if a.Reap? then Except(s.lists.pool, a.exited) else s.lists.pool)
  {
    if OfRunner(a) {
      RunnerStep(s, a);
    } else {
      FuzzerStep(s, a);
    }
  }

  // jobs_sent counts the sends that went through, jobs_received the results handled, and
  // the pool has lost exactly the runners reaped.
  lemma {:induction false} CountsExactly(s: State, acts: seq<Action>)
    requires Runs(s, acts)
    ensures var t := Last(s, acts);
            && t.sent == s.sent + SendsOf(acts) && t.received == s.received + HandlesOf(acts)
            && (forall r :: r in t.lists.pool <==> r in s.lists.pool && r !in ReapedIn(acts))
    decreases |acts|
  {
    if acts != [] {
      CountStep(s, acts[0]);
      if acts[0].Reap? {
        ExceptMembers(s.lists.pool, acts[0].exited);
      }
      CountsExactly(Apply(s, acts[0]), acts[1..]);
    }
  }

  // The active runners that each reaping takes.
  function LostIn(s: State, acts: seq<Action>): nat
    requires Runs(s, acts)
    decreases |acts|
  {
    if acts == [] then 0
    else (if acts[0].Reap? then |set r | r in s.lists.active && r in acts[0].exited| else 0)
         + LostIn(Apply(s, acts[0]), acts[1..])
  }

  lemma OnlySize(s: seq<Rid>, keep: set<Rid>)
    requires Distinct(s)
    ensures |Only(s, keep)| == |set r | r in s && r in keep|
  {
    OnlyMembers(s, keep);
    FirstDistinct(s, |s|, keep);
    DistinctSize(Only(s, keep));
    assert Elements(Only(s, keep)) == set r | r in s && r in keep;
  }

  lemma LostStep(s: State, a: Action)
    requires Inv(s) && Enabled(s, a)
    ensures Apply(s, a).lost == s.lost + if a.Reap? then |set r | r in s.lists.active && r in a.exited| else 0
  {
    match a
    case Reap(exited) => OnlySize(s.lists.active, exited);
    case Take => assert DoTake(s).lost == s.lost;
    case Send(input, ok) => assert DoSend(s, input, ok).lost == s.lost;
    case _ =>
  }

  lemma {:induction false} LostExactly(s: State, acts: seq<Action>)
    requires Inv(s) && Runs(s, acts)
    ensures Last(s, acts).lost == s.lost + LostIn(s, acts)
    decreases |acts|
  {
    if acts != [] {
      LostStep(s, acts[0]);
      StepKeeps(s, acts[0]);
      LostExactly(Apply(s, acts[0]), acts[1..]);
    }
  }

  // ---------- Who is next ----------

  // The runners that the sends of a run go to, failed ones included.
  function Chosen(s: State, acts: seq<Action>): seq<Rid>
    requires Runs(s, acts)
    decreases |acts|
  {
    if acts == [] then []
    else (if acts[0].Send? then [s.lists.ready[0]] else []) + Chosen(Apply(s, acts[0]), acts[1..])
  }

  // The runners whose results are taken.
  function TakenFrom(s: State, acts: seq<Action>): seq<Rid>
    requires Runs(s, acts)
    decreases |acts|
  {
    if acts == [] then []
    else (if acts[0].Take? then [s.lists.done[0]] else []) + TakenFrom(Apply(s, acts[0]), acts[1..])
  }

  lemma {:induction false} ExceptPrefix(s: seq<Rid>, k: nat, drop: set<Rid>)
    requires k <= |s| && forall i | 0 <= i < k :: s[i] !in drop
    ensures |Except(s, drop)| >= k && Except(s, drop)[..k] == s[..k]
  {
    ExceptFirstPrefix(s, |s|, k, drop);
  }

  lemma {:induction false} ExceptFirstPrefix(s: seq<Rid>, n: nat, k: nat, drop: set<Rid>)
    requires k <= n <= |s| && forall i | 0 <= i < k :: s[i] !in drop
    ensures |ExceptFirst(s, n, drop)| >= k && ExceptFirst(s, n, drop)[..k] == s[..k]
  {
    if n > k {
      ExceptFirstPrefix(s, n - 1, k, drop);
    } else if k > 0 {
      ExceptFirstPrefix(s, k - 1, k - 1, drop);
      FirstCount(s, k - 1, drop);
      assert s[..k] == s[..k - 1] + [s[k - 1]];
    }
  }

  lemma FirstCount(s: seq<Rid>, k: nat, drop: set<Rid>)
    requires k <= |s|
    ensures |ExceptFirst(s, k, drop)| <= k
  {
    FiltersSplit(s, k, drop);
  }

  predicate StartsWith(s: seq<Rid>, front: seq<Rid>) {
    |front| <= |s| && s[..|front|] == front
  }

  lemma ReapedFront(s: seq<Rid>, front: seq<Rid>, exited: set<Rid>)
    requires StartsWith(s, front) && forall r | r in front :: r !in exited
    ensures StartsWith(Except(s, exited), front)
  {
    forall i | 0 <= i < |front| ensures s[i] !in exited {
      assert s[i] == front[i];
    }
    ExceptPrefix(s, |front|, exited);
  }

  lemma TailFront(s: seq<Rid>, front: seq<Rid>)
    requires s != [] && StartsWith(s, front)
    ensures StartsWith(s[1..], if front == [] then [] else front[1..])
    ensures front != [] ==> s[0] == front[0]
  {
    if front != [] {
      assert s[0] == front[0];
      assert s[1..][..|front| - 1] == front[1..];
    }
  }

  lemma OtherLists(s: State, a: Action)
    requires Enabled(s, a) && !a.Reap? && !a.Send? && !a.Take? && !a.Sort?
    ensures Apply(s, a).lists == s.lists
  {
    match a
    case Enter => assert DoEnter(s).lists == s.lists;
    case Poll => assert DoPoll(s).lists == s.lists;
    case Select(atEof) => assert DoSelect(s, atEof).lists == s.lists;
    case Decide => assert DoDecide(s).lists == s.lists;
    case Wake(usr, chld, stop) => assert DoWake(s, usr, chld, stop).lists == s.lists;
    case _ =>
      if OfRunner(a) {
        RunnerStep(s, a);
      }
  }

  lemma ReadyStep(s: State, a: Action, front: seq<Rid>)
    requires Enabled(s, a) && StartsWith(s.lists.ready, front)
    requires a.Reap? ==> forall r | r in front :: r !in a.exited
    ensures StartsWith(Apply(s, a).lists.ready, if !a.Send? then front else if front == [] then [] else front[1..])
    ensures a.Send? && front != [] ==> s.lists.ready[0] == front[0]
  {
    match a
    case Reap(exited) => ReapedFront(s.lists.ready, front, exited);
    case Send(input, ok) => TailFront(s.lists.ready, front);
    case Take => assert DoTake(s).lists.ready == s.lists.ready + [s.lists.done[0]];
    case Sort => assert DoSort(s).lists.ready == s.lists.ready;
    case _ => OtherLists(s, a);
  }

  lemma ReapedLater(a: Action, rest: seq<Action>)
    ensures ReapedIn(rest) <= ReapedIn([a] + rest)
    ensures a.Reap? ==> a.exited <= ReapedIn([a] + rest)
  {
    assert ([a] + rest)[1..] == rest;
  }

  // The runners that are ready are sent to in their order, those at the front first, unless
  // one of them is reaped before.
  lemma {:induction false} ReadyInTurn(s: State, acts: seq<Action>, front: seq<Rid>)
    requires Runs(s, acts) && StartsWith(s.lists.ready, front)
    requires forall r | r in front :: r !in ReapedIn(acts)
    ensures var c := Chosen(s, acts); if |c| <= |front| then c == front[..|c|] else StartsWith(c, front)
    decreases |acts|
  {
    if acts != [] {
      var a, t := acts[0], Apply(s, acts[0]);
      assert acts == [a] + acts[1..];
      ReapedLater(a, acts[1..]);
      ReadyStep(s, a, front);
      if !a.Send? {
        ReadyInTurn(t, acts[1..], front);
      } else if front != [] {
        forall r | r in front[1..] ensures r in front {
        }
        ReadyInTurn(t, acts[1..], front[1..]);
        assert front == [front[0]] + front[1..];
      }
    }
  }

  // So the runner at position p is the one chosen by the (p + 1)-th send from then on.
  lemma ReadyIsServed(s: State, acts: seq<Action>, p: nat)
    requires Runs(s, acts) && p < |s.lists.ready| && p < |Chosen(s, acts)|
    requires forall i | 0 <= i <= p :: s.lists.ready[i] !in ReapedIn(acts)
    ensures Chosen(s, acts)[p] == s.lists.ready[p]
  {
    var front := s.lists.ready[..p + 1];
    ReadyInTurn(s, acts, front);
    assert front[p] == s.lists.ready[p];
  }

  lemma DoneStep(s: State, a: Action, front: seq<Rid>)
    requires Enabled(s, a) && StartsWith(s.lists.done, front)
    requires a.Reap? ==> forall r | r in front :: r !in a.exited
    ensures StartsWith(Apply(s, a).lists.done, if !a.Take? then front else if front == [] then [] else front[1..])
    ensures a.Take? && front != [] ==> s.lists.done[0] == front[0]
  {
    match a
    case Reap(exited) => ReapedFront(s.lists.done, front, exited);
    case Take => TailFront(s.lists.done, front);
    case Send(input, ok) => assert DoSend(s, input, ok).lists.done == s.lists.done;
    case Sort => assert DoSort(s).lists.done == s.lists.done + Only(s.lists.active, s.pc.readable);
    case _ => OtherLists(s, a);
  }

  // Results are taken in the order of the done list, too.
  lemma {:induction false} DoneInTurn(s: State, acts: seq<Action>, front: seq<Rid>)
    requires Runs(s, acts) && StartsWith(s.lists.done, front)
    requires forall r | r in front :: r !in ReapedIn(acts)
    ensures var c := TakenFrom(s, acts); if |c| <= |front| then c == front[..|c|] else StartsWith(c, front)
    decreases |acts|
  {
    if acts != [] {
      var a, t := acts[0], Apply(s, acts[0]);
      assert acts == [a] + acts[1..];
      ReapedLater(a, acts[1..]);
      DoneStep(s, a, front);
      if !a.Take? {
        DoneInTurn(t, acts[1..], front);
      } else if front != [] {
        forall r | r in front[1..] ensures r in front {
        }
        DoneInTurn(t, acts[1..], front[1..]);
        assert front == [front[0]] + front[1..];
      }
    }
  }

  // ---------- Who is found done ----------

  lemma {:induction false} RunnersOnly(s: State, acts: seq<Action>)
    requires Runs(s, acts) && forall a | a in acts :: OfRunner(a)
    ensures Last(s, acts).lists == s.lists && Last(s, acts).pc == s.pc
    decreases |acts|
  {
    if acts != [] {
      RunnerStep(s, acts[0]);
      RunnersOnly(Apply(s, acts[0]), acts[1..]);
    }
  }

  // What select finds readable, a status or the end of a dead runner's pipe, is what moves
  // from active to done, whatever the runners do in between.
  lemma FoundIsMoved(s: State, atEof: set<Rid>, acts: seq<Action>)
    requires Enabled(s, Select(atEof)) && s.lists.active != []
    requires Runs(Apply(s, Select(atEof)), acts) && forall a | a in acts :: OfRunner(a)
    ensures Enabled(Last(Apply(s, Select(atEof)), acts), Sort)
    ensures var l := Apply(Last(Apply(s, Select(atEof)), acts), Sort).lists;
            var found := set r | r in s.lists.active && (s.runners[r].results != [] || r in atEof);
            && l.pool == s.lists.pool && l.ready == s.lists.ready
            && l.active == Except(s.lists.active, found) && l.done == s.lists.done + Only(s.lists.active, found)
  {
    var t := Apply(s, Select(atEof));
    var found := set r | r in s.lists.active && (s.runners[r].results != [] || r in atEof);
    assert t == DoSelect(s, atEof) && t.pc == Sorting(found) by { assert Readable(s) + atEof == found; }
    RunnersOnly(t, acts);
  }

  // ---------- Jobs and statuses travel unchanged ----------

  // One step that hands on x of what was held and takes in e, and then the rest of a run.
  lemma Carry<T>(x1: seq<T>, x2: seq<T>, w0: seq<T>, w1: seq<T>, w2: seq<T>, e1: seq<T>, e2: seq<T>)
    requires x1 + w1 == w0 + e1 && x2 + w2 == w1 + e2
    ensures (x1 + x2) + w2 == w0 + (e1 + e2)
  {
    assert (x1 + x2) + w2 == x1 + (x2 + w2) == x1 + (w1 + e2) == (x1 + w1) + e2 == w0 + (e1 + e2);
  }

  // How runner r's run ends in a step, and the status of r that a step takes from its pipe.
  function EndBy(s: State, a: Action, r: Rid): seq<Status>
    requires Enabled(s, a)
  {
    if a.Finish? && a.r == r then [Status(s.runners[r].phase.job, a.outcome)] else []
  }

  function ReplyBy(s: State, a: Action, r: Rid): seq<Status>
    requires Enabled(s, a)
  {
    var t := Apply(s, a);
    if a.Take? && t.pc.Handling? && t.pc.runner == r && t.pc.reply.Some? then [t.pc.reply.value] else []
  }

  function EndedAs(s: State, acts: seq<Action>, r: Rid): seq<Status>
    requires Runs(s, acts)
    decreases |acts|
  {
    if acts == [] then [] else EndBy(s, acts[0], r) + EndedAs(Apply(s, acts[0]), acts[1..], r)
  }

  function Replies(s: State, acts: seq<Action>, r: Rid): seq<Status>
    requires Runs(s, acts)
    decreases |acts|
  {
    if acts == [] then [] else ReplyBy(s, acts[0], r) + Replies(Apply(s, acts[0]), acts[1..], r)
  }

  // Those on the way: in the pipe, or not yet written.
  function Unwritten(R: Runner): seq<Status> {
    match R.phase
    case Finished(job, outcome) => [Status(job, outcome)]
    case _ => []
  }

  function OnTheWay(s: State, r: Rid): seq<Status> {
    if r in s.runners then s.runners[r].results + Unwritten(s.runners[r]) else []
  }

  lemma TakeConserves(s: State, r: Rid)
    requires Enabled(s, Take)
    ensures ReplyBy(s, Take, r) + OnTheWay(DoTake(s), r) == OnTheWay(s, r)
  {
    TakeRunner(s, r);
    if s.lists.done[0] == r && s.runners[r].results != [] {
      assert s.runners[r].results == [s.runners[r].results[0]] + s.runners[r].results[1..];
    }
  }

  lemma TakeRunner(s: State, r: Rid)
    requires Enabled(s, Take)
    ensures r in DoTake(s).runners <==> r in s.runners
    ensures if r == s.lists.done[0] && s.runners[r].results != [] then
              && DoTake(s).runners[r] == s.runners[r].(results := s.runners[r].results[1..])
              && ReplyBy(s, Take, r) == [s.runners[r].results[0]]
            else
              (r in s.runners ==> DoTake(s).runners[r] == s.runners[r]) && ReplyBy(s, Take, r) == []
  {
  }

  lemma RunnerConserves(s: State, a: Action, r: Rid)
    requires Enabled(s, a) && OfRunner(a)
    ensures OnTheWay(Apply(s, a), r) == OnTheWay(s, r) + EndBy(s, a, r)
  {
    var t := Apply(s, a);
    if a.r != r {
      assert r in t.runners <==> r in s.runners;
    } else if a.Finish? {
      assert Unwritten(s.runners[r]) == [];
    } else if a.Write? {
      assert t.runners[r].results == s.runners[r].results + Unwritten(s.runners[r]);
    }
  }

  lemma OtherRunners(s: State, a: Action)
    requires Enabled(s, a) && !a.Receive? && !a.Finish? && !a.Write? && !a.Kill? && !a.Die? && !a.Take? && !a.Send?
    ensures Apply(s, a).runners == s.runners
  {
    match a
    case Enter => assert DoEnter(s).runners == s.runners;
    case Reap(exited) => assert DoReap(s, exited).runners == s.runners;
    case Poll => assert DoPoll(s).runners == s.runners;
    case Select(atEof) => assert DoSelect(s, atEof).runners == s.runners;
    case Sort => assert DoSort(s).runners == s.runners;
    case Decide => assert DoDecide(s).runners == s.runners;
    case Wake(usr, chld, stop) => assert DoWake(s, usr, chld, stop).runners == s.runners;
    case _ =>
  }

  lemma SendStatuses(s: State, input: InputRef, ok: bool, r: Rid)
    requires Enabled(s, Send(input, ok))
    ensures OnTheWay(DoSend(s, input, ok), r) == OnTheWay(s, r)
  {
  }

  lemma StatusStep(s: State, a: Action, r: Rid)
    requires Enabled(s, a)
    ensures ReplyBy(s, a, r) + OnTheWay(Apply(s, a), r) == OnTheWay(s, r) + EndBy(s, a, r)
  {
    match a
    case Take => TakeConserves(s, r);
    case Send(input, ok) => SendStatuses(s, input, ok, r);
    case Receive(_) => RunnerConserves(s, a, r);
    case Finish(_, _) => RunnerConserves(s, a, r);
    case Write(_) => RunnerConserves(s, a, r);
    case Kill(_) => RunnerConserves(s, a, r);
    case Die(_) => RunnerConserves(s, a, r);
    case _ => OtherRunners(s, a);
  }

  // What the fuzzer has been told of a runner, followed by what is on the way, is how its
  // runs have ended: nothing is lost, changed, doubled or overtaken.
  lemma {:induction false} StatusesConserved(s: State, acts: seq<Action>, r: Rid)
    requires Runs(s, acts)
    ensures Replies(s, acts, r) + OnTheWay(Last(s, acts), r) == OnTheWay(s, r) + EndedAs(s, acts, r)
    decreases |acts|
  {
    if acts != [] {
      var a, t, rest := acts[0], Apply(s, acts[0]), acts[1..];
      StatusStep(s, a, r);
      StatusesConserved(t, rest, r);
      Carry(ReplyBy(s, a, r), Replies(t, rest, r), OnTheWay(s, r), OnTheWay(t, r), OnTheWay(Last(t, rest), r),
            EndBy(s, a, r), EndedAs(t, rest, r));
    }
  }

  // The jobs a runner takes from its pipe, those in it, and those sent to it.
  function BegunBy(s: State, a: Action, r: Rid): seq<InputRef>
    requires Enabled(s, a)
  {
    if a == Receive(r) && Apply(s, a).runners[r].phase.Running? then [Apply(s, a).runners[r].phase.job] else []
  }

  function Begun(s: State, acts: seq<Action>, r: Rid): seq<InputRef>
    requires Runs(s, acts)
    decreases |acts|
  {
    if acts == [] then [] else BegunBy(s, acts[0], r) + Begun(Apply(s, acts[0]), acts[1..], r)
  }

  function InPipe(s: State, r: Rid): seq<InputRef> {
    if r in s.runners then s.runners[r].requests else []
  }

  function SentBy(s: State, a: Action, r: Rid): seq<InputRef>
    requires Enabled(s, a)
  {
    if Sends(s, a, r) then [a.input] else []
  }

  lemma RunnerKeepsJobs(s: State, a: Action, r: Rid)
    requires Enabled(s, a) && (a.Finish? || a.Write? || a.Kill? || a.Die?)
    ensures InPipe(Apply(s, a), r) == InPipe(s, r)
  {
  }

  lemma TakeKeepsJobs(s: State, r: Rid)
    requires Enabled(s, Take)
    ensures InPipe(DoTake(s), r) == InPipe(s, r)
  {
  }

  lemma SendAddsJob(s: State, input: InputRef, ok: bool, r: Rid)
    requires Enabled(s, Send(input, ok))
    ensures InPipe(DoSend(s, input, ok), r) == InPipe(s, r) + SentBy(s, Send(input, ok), r)
  {
  }

  lemma ReceiveConserves(s: State, q: Rid, r: Rid)
    requires Enabled(s, Receive(q))
    ensures BegunBy(s, Receive(q), r) + InPipe(DoReceive(s, q), r) == InPipe(s, r)
  {
    if q == r {
      assert s.runners[r].requests == [s.runners[r].requests[0]] + s.runners[r].requests[1..];
    }
  }

  lemma JobStep(s: State, a: Action, r: Rid)
    requires Enabled(s, a)
    ensures BegunBy(s, a, r) + InPipe(Apply(s, a), r) == InPipe(s, r) + SentBy(s, a, r)
  {
    match a
    case Take => TakeKeepsJobs(s, r);
    case Send(input, ok) => SendAddsJob(s, input, ok, r);
    case Receive(q) => ReceiveConserves(s, q, r);
    case Finish(_, _) => RunnerKeepsJobs(s, a, r);
    case Write(_) => RunnerKeepsJobs(s, a, r);
    case Kill(_) => RunnerKeepsJobs(s, a, r);
    case Die(_) => RunnerKeepsJobs(s, a, r);
    case _ => OtherRunners(s, a);
  }

  // The jobs a runner has begun, followed by those waiting in its pipe, are those sent to it.
  lemma {:induction false} JobsConserved(s: State, acts: seq<Action>, r: Rid)
    requires Runs(s, acts)
    ensures Begun(s, acts, r) + InPipe(Last(s, acts), r) == InPipe(s, r) + SentTo(s, acts, r)
    decreases |acts|
  {
    if acts != [] {
      var a, t, rest := acts[0], Apply(s, acts[0]), acts[1..];
      JobStep(s, a, r);
      JobsConserved(t, rest, r);
      Carry(BegunBy(s, a, r), Begun(t, rest, r), InPipe(s, r), InPipe(t, r), InPipe(Last(t, rest), r),
            SentBy(s, a, r), SentTo(t, rest, r));
    }
  }
}
