// When the main loop spins. The fuzzer's signals are blocked except while it sleeps, and it
// sleeps only when a runner is active; so a loop with nothing active and nothing to send
// turns for ever, and no signal, not even SIGTERM, reaches it.
module Spinning {
  import opened RunnerLists
  import opened Dispatch
  import opened DispatchSafety
  import opened Coverage
  import opened Campaign
  import opened Ownership
  import opened Bytes

  predicate NothingToSend(c: Campaign) {
    c.d.lists.ready == [] || c.d.sent >= c.d.target || c.queue.Empty()
  }

  predicate Stalled(c: Campaign) {
    && Continues(c.d) && c.d.lists.active == [] && NothingToSend(c)
  }

  // ---------- A stalled loop never stops ----------

  predicate Turning(pc: Pc) {
    pc.Head? || pc.Polling? || pc.Collecting? || pc.Sending? || pc.Tail?
  }

  function NextPc(pc: Pc): Pc
    requires Turning(pc)
  {
    match pc
    case Head => Polling
    case Polling => Collecting
    case Collecting => Sending
    case Sending => Tail
    case Tail => Head
  }

  predicate Spins(c: Campaign) {
    Stalled(c) && c.d.lists.done == [] && !c.d.usrSeen && !c.d.chldSeen && Turning(c.d.pc)
  }

  predicate OfRunner(a: Action) {
    a.Receive? || a.Finish? || a.Write? || a.Kill? || a.Die?
  }

  lemma RunnerSpins(c: Campaign, e: Event)
    requires Spins(c) && Possible(c, e) && OfRunner(e.a)
    ensures Spins(Step(c, e)) && Step(c, e).d.pc == c.d.pc && Step(c, e).d.received == c.d.received
  {
    var s := c.d;
    assert Apply(s, e.a) == s.(runners := Apply(s, e.a).runners, usrPending := Apply(s, e.a).usrPending,
                               chldPending := Apply(s, e.a).chldPending);
  }

  lemma SpinStep(c: Campaign, e: Event)
    requires Spins(c) && Possible(c, e)
    ensures Spins(Step(c, e)) && !e.a.Wake?
    ensures Step(c, e).d.pc == if OfRunner(e.a) then c.d.pc else NextPc(c.d.pc)
    ensures Step(c, e).d.received == c.d.received
  {
    if OfRunner(e.a) {
      RunnerSpins(c, e);
    } else {
      assert Apply(c.d, e.a) == c.d.(pc := NextPc(c.d.pc));
    }
  }

  // From a state with nothing active, nothing to send and no flag set, whatever the runners
  // do and whatever signals arrive, the fuzzer only goes round.
  lemma {:induction false} SpinsForever(c: Campaign, es: seq<Event>)
    requires Spins(c) && Happens(c, es)
    ensures Spins(Reached(c, es)) && forall e | e in es :: !e.a.Wake?
    ensures Reached(c, es).d.received == c.d.received
    decreases |es|
  {
    if es != [] {
      SpinStep(c, es[0]);
      SpinsForever(Step(c, es[0]), es[1..]);
    }
  }

  // With an empty seed file and some inputs asked for, it does so from the start, unless a
  // runner has died or a signal to stop has come before the signals were blocked.
  lemma NoSeedsSpins(d: State, es: seq<Event>)
    requires Init(d) && !d.chldSeen && !d.shutdown && d.target > 0 && Happens(Load(d, []), es)
    ensures Spins(Reached(Load(d, []), es)) && !Reached(Load(d, []), es).d.pc.Exited?
    ensures forall e | e in es :: !e.a.Wake?
  {
    SpinsForever(Load(d, []), es);
  }

  // ---------- Exactly when it can stop ----------

  ghost predicate CanExit(c: Campaign) {
    exists es :: Happens(c, es) && Reached(c, es).d.pc.Exited?
  }

  lemma ExitAfter(c: Campaign, e: Event)
    requires Possible(c, e) && CanExit(Step(c, e))
    ensures CanExit(c)
  {
    var es :| Happens(Step(c, e), es) && Reached(Step(c, e), es).d.pc.Exited?;
    assert ([e] + es)[1..] == es;
    assert Happens(c, [e] + es) && Reached(c, [e] + es).d.pc.Exited?;
  }

  lemma ExitNow(c: Campaign)
    requires c.d.pc.Exited?
    ensures CanExit(c)
  {
    assert Happens(c, []) && Reached(c, []).d.pc.Exited?;
  }

  function Does(a: Action): Event {
    Event(a, NoPriority)
  }

  lemma ExitFromHead(c: Campaign)
    requires c.d.pc.Head? && !Continues(c.d)
    ensures CanExit(c)
  {
    ExitNow(Step(c, Does(Leave)));
    ExitAfter(c, Does(Leave));
  }

  // A sleeping fuzzer can be told to stop.
  lemma ExitFromSleep(c: Campaign)
    requires c.d.pc.Suspended?
    ensures CanExit(c)
  {
    var stop := Does(Wake(false, false, true));
    ExitFromHead(Step(c, stop));
    ExitAfter(c, stop);
  }

  lemma ExitFromTail(c: Campaign)
    requires Inv(c.d) && c.d.pc.Tail? && (c.d.lists.active != [] || !Continues(c.d))
    ensures CanExit(c)
  {
    var c' := Step(c, Does(Decide));
    if c'.d.pc.Exited? {
      ExitNow(c');
    } else if c'.d.pc.Suspended? {
      ExitFromSleep(c');
    } else {
      ExitFromHead(c');
    }
    ExitAfter(c, Does(Decide));
  }

  lemma FailedSend(c: Campaign, e: Event)
    requires Inv(c.d) && c.d.pc.Sending? && !NothingToSend(c) && e == Does(Send(c.created, false))
    ensures Possible(c, e) && Step(c, e).d.pc.Tail? && Step(c, e).d.lists.active == c.d.lists.active
  {
    assert c.d.lists.ready[0] in c.d.lists.ready;
    assert Step(c, e).d == DoSend(c.d, c.created, false);
  }

  // After a send that goes through there is a runner to wait for: one way or another the
  // loop gets to its end with it.
  lemma EndOfSending(c: Campaign) returns (e: Event)
    requires Inv(c.d) && c.d.pc.Sending?
    ensures Possible(c, e) && Step(c, e).d.pc.Tail? && Step(c, e).d.lists.active == c.d.lists.active
  {
    if c.d.lists.ready == [] || c.d.sent >= c.d.target {
      e := Does(StopSending);
    } else if c.queue.Empty() {
      e := Does(QueueEmpty);
    } else {
      e := Does(Send(c.created, false));
      FailedSend(c, e);
    }
  }

  lemma ExitFromSent(c: Campaign)
    requires Inv(c.d) && c.d.pc.Sending? && c.d.lists.active != []
    ensures CanExit(c)
  {
    var e := EndOfSending(c);
    StepKeeps(c.d, e.a);
    ExitFromTail(Step(c, e));
    ExitAfter(c, e);
  }

  lemma ExitFromSending(c: Campaign)
    requires Inv(c.d) && c.d.pc.Sending? && !NothingToSend(c)
    ensures CanExit(c)
  {
    var e := Does(Send(c.created, true));
    assert c.d.lists.ready[0] in c.d.lists.ready;
    StepKeeps(c.d, e.a);
    ExitFromSent(Step(c, e));
    ExitAfter(c, e);
  }

  lemma ExitFromTurn(c: Campaign)
    requires Inv(c.d) && c.d.pc.Tail? && Continues(c.d) && c.d.lists.active == [] && !NothingToSend(c)
    ensures CanExit(c)
  {
    var c1 := Step(c, Does(Decide));
    var c2 := Step(c1, Does(Enter));
    var c3 := Step(c2, Does(Poll));
    var c4 := Step(c3, Does(Collected));
    StepKeeps(c.d, Decide);
    StepKeeps(c1.d, Enter);
    StepKeeps(c2.d, Poll);
    StepKeeps(c3.d, Collected);
    ExitFromSending(c4);
    ExitAfter(c3, Does(Collected));
    ExitAfter(c2, Does(Poll));
    ExitAfter(c1, Does(Enter));
    ExitAfter(c, Does(Decide));
  }

  // At the end of every turn of the loop: some continuation, with the signals it may bring,
  // ends the loop, unless the loop is stalled, and then none does. fuzzer.h promises that
  // the limit or a terminating signal always ends it.
  lemma CanExitExactly(c: Campaign)
    requires Inv(c.d) && c.d.pc.Tail?
    ensures CanExit(c) <==> !Stalled(c)
  {
    if Stalled(c) {
      forall es | Happens(c, es) ensures !Reached(c, es).d.pc.Exited? {
        SpinsForever(c, es);
      }
    } else if c.d.lists.active != [] || !Continues(c.d) {
      ExitFromTail(c);
    } else {
      ExitFromTurn(c);
    }
  }

  // ---------- Without seeds ----------

  lemma ExitFromReaping(c: Campaign, k: nat)
    requires Inv(c.d) && c.d.pc.Reaping? && k <= |c.d.lists.pool|
    requires forall i | 0 <= i < k :: Known(c.d, c.d.lists.pool[i]) && !c.d.runners[c.d.lists.pool[i]].alive
    ensures CanExit(c)
    decreases |c.d.lists.pool| - k
  {
    var pool := c.d.lists.pool;
    if k == |pool| {
      ReapAll(c);
    } else {
      assert pool[k] in pool;
      if c.d.runners[pool[k]].alive {
        var e := Does(Die(pool[k]));
        StepKeeps(c.d, e.a);
        ExitFromReaping(Step(c, e), k + 1);
        ExitAfter(c, e);
      } else {
        ExitFromReaping(c, k + 1);
      }
    }
  }

  lemma SomeMember(s: seq<Rid>)
    ensures s == [] || exists r :: r in s
  {
    if s != [] {
      assert s[0] in s;
    }
  }

  lemma ReapAll(c: Campaign)
    requires Inv(c.d) && c.d.pc.Reaping?
    requires forall r | r in c.d.lists.pool :: Known(c.d, r) && !c.d.runners[r].alive
    ensures CanExit(c)
  {
    var pool := c.d.lists.pool;
    var e := Does(Reap(Elements(pool)));
    ExceptMembers(pool, Elements(pool));
    SomeMember(Except(pool, Elements(pool)));
    ExitFromHead(Step(c, e));
    ExitAfter(c, e);
  }

  // With an empty seed file the loop can end exactly if nothing is asked for, or a signal to
  // stop or of a death was seen before the signals were blocked.
  lemma NoSeedsExitExactly(d: State)
    requires Init(d)
    ensures CanExit(Load(d, [])) <==> d.target == 0 || d.shutdown || d.chldSeen
  {
    var c := Load(d, []);
    InitInv(d);
    if !Continues(d) {
      ExitFromHead(c);
    } else if d.chldSeen {
      var c' := Step(c, Does(Enter));
      StepKeeps(d, Enter);
      ExitFromReaping(c', 0);
      ExitAfter(c, Does(Enter));
    } else {
      forall es | Happens(c, es) ensures !Reached(c, es).d.pc.Exited? {
        NoSeedsSpins(d, es);
      }
    }
  }

  // ---------- After a loss ----------

  // Deaths lead there: once a runner was reaped while active, every other job has come in
  // and the limit of sends is used up, the loop is stalled.
  lemma LostJobStalls(d: State, seeds: seq<cstring>, es: seq<Event>)
    requires Reachable(d, seeds, es)
    requires var s := Reached(Load(d, seeds), es).d;
             s.pc.Tail? && s.lost > 0 && s.lists.active == [] && s.sent == s.target && !s.shutdown
    ensures !CanExit(Reached(Load(d, seeds), es))
  {
    var c := Reached(Load(d, seeds), es);
    ReachableInv(d, seeds, es);
    CanExitExactly(c);
  }
}
