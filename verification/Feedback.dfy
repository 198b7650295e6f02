// Coverage feedback over whole runs. Each runner's buffer is only ever or-ed into, so what
// the fuzzer reads after a run still holds the edges of earlier runs of that runner; the
// theorems say exactly what that does to the priorities.
module Feedback {
  import opened Prelude
  import opened RunnerLists
  import opened Dispatch
  import opened DispatchSafety
  import opened Coverage

  type EdgeMap = map<Rid, set<Edge>>

  function At(m: EdgeMap, r: Rid): set<Edge> {
    if r in m then m[r] else {}
  }

  datatype Feedback = Feedback(
    d: State,
    buffer: EdgeMap,           // shared with each runner, zeroed once
    bitmap: set<Edge>,         // of the coverage map
    seen: set<set<Edge>>,      // in its hash set
    // What we record to state the theorems:
    current: EdgeMap,          // edges of the runner's present or last run
    prior: EdgeMap,            // edges of all other runs so far, the runner's own earlier ones included
    left: EdgeMap,             // what the runner's buffer held when its present run began
    owed: EdgeMap,             // edges of its runs since its last valid result, handled ones only
    open: set<Rid>,            // runners with a run not yet handled
    validEdges: set<Edge>,     // edges of all runs handled as valid
    takenEdges: set<Edge>)     // edges of all runs

  // A step of the protocol, or a target taking an edge.
  datatype Event = Protocol(a: Action) | TakeEdge(r: Rid, e: Edge)

  predicate Possible(f: Feedback, ev: Event) {
    match ev
    case Protocol(a) => Enabled(f.d, a)
    case TakeEdge(r, e) => Alive(f.d, r) && f.d.runners[r].phase.Running? && e < MAP_BITS
  }

  // fuzzer.c:107-122 on the coverage map; any other result only leaves edges behind.
  function Handled(f: Feedback, r: Rid, reply: Option<Status>): Feedback {
    match reply
    case Some(Status(_, Valid)) =>
      f.(bitmap := f.bitmap + At(f.buffer, r), seen := f.seen + {At(f.buffer, r)},
         owed := f.owed[r := {}], open := f.open - {r}, validEdges := f.validEdges + At(f.current, r))
    case _ =>
      f.(owed := f.owed[r := At(f.owed, r) + At(f.current, r)], open := f.open - {r})
  }

  function Verdict(f: Feedback, r: Rid): Priority {
    PriorityOf(f.bitmap, At(f.buffer, r) in f.seen, At(f.buffer, r))
  }

  function Step(f: Feedback, ev: Event): Feedback
    requires Possible(f, ev)
  {
    match ev
    case TakeEdge(r, e) =>
      f.(buffer := f.buffer[r := At(f.buffer, r) + {e}], current := f.current[r := At(f.current, r) + {e}],
         prior := map q | q in f.d.runners :: At(f.prior, q) + if q == r then {} else {e},
         takenEdges := f.takenEdges + {e})
    case Protocol(a) =>
      var f' := if a.Receive? then f.(current := f.current[a.r := {}], open := f.open + {a.r},
                                      left := f.left[a.r := At(f.buffer, a.r)],
                                      prior := f.prior[a.r := At(f.prior, a.r) + At(f.current, a.r)])
                else if a.Handle? then Handled(f, f.d.pc.runner, f.d.pc.reply)
                else f;
      f'.(d := Apply(f.d, a))
  }

  predicate Happens(f: Feedback, evs: seq<Event>)
    decreases |evs|
  {
    evs == [] || (Possible(f, evs[0]) && Happens(Step(f, evs[0]), evs[1..]))
  }

  function Reached(f: Feedback, evs: seq<Event>): Feedback
    requires Happens(f, evs)
    decreases |evs|
  {
    if evs == [] then f else Reached(Step(f, evs[0]), evs[1..])
  }

  function Start(d: State): Feedback {
    Feedback(d, map[], {}, {}, map[], map[], map[], map[], {}, {}, {})
  }

  // ---------- The invariant ----------

  // A request waits only at an active runner; and a run that has not been handled belongs
  // to a runner whose verdict is still to come, so the next run cannot have begun.
  predicate Requested(s: State, r: Rid)
    requires r in s.runners
  {
    s.runners[r].alive && s.runners[r].requests != [] ==> r in s.lists.active
  }

  predicate OpenOk(s: State, r: Rid) {
    r in s.runners &&
    (s.runners[r].alive ==>
      || (r in s.lists.active && s.runners[r].requests == [])
      || r in s.lists.done
      || (s.pc.Handling? && s.pc.runner == r))
  }

  predicate UnderWay(R: Runner) {
    R.results != [] || (R.alive && (R.phase.Running? || R.phase.Finished?))
  }

  predicate RunIsOpen(f: Feedback, r: Rid)
    requires r in f.d.runners
  {
    UnderWay(f.d.runners[r]) ==> r in f.open
  }

  predicate HandlingIsOpen(f: Feedback) {
    f.d.pc.Handling? && f.d.pc.reply.Some? ==> f.d.pc.runner in f.open
  }

  predicate RunsOk(f: Feedback) {
    && (forall r | r in f.d.runners :: Requested(f.d, r) && RunIsOpen(f, r))
    && (forall r | r in f.open :: OpenOk(f.d, r))
    && HandlingIsOpen(f)
  }

  // The buffer holds the edges of the present run, those left over, and known ones.
  predicate BufferOk(f: Feedback, r: Rid) {
    && At(f.owed, r) <= At(f.buffer, r)
    && At(f.current, r) <= At(f.buffer, r)
    && At(f.buffer, r) <= f.bitmap + At(f.owed, r) + At(f.current, r)
    && (r !in f.open ==> At(f.buffer, r) <= f.bitmap + At(f.owed, r))
    && At(f.buffer, r) <= f.takenEdges
  }

  // Until a run is handled, the buffer holds what it found there and what it took itself.
  predicate LeftOk(f: Feedback, r: Rid) {
    && At(f.buffer, r) == At(f.left, r) + At(f.current, r)
    && At(f.owed, r) <= At(f.left, r) <= f.bitmap + At(f.owed, r)
  }

  predicate LeftsOk(f: Feedback) {
    forall r | r in f.open :: LeftOk(f, r)
  }

  // What a runner owes comes from other runs than its present one, and so do all bits of
  // the bitmap until the present run is handled.
  predicate OwnPriorOk(f: Feedback, r: Rid) {
    && f.takenEdges == At(f.prior, r) + At(f.current, r)
    && (r in f.open ==> f.bitmap <= At(f.prior, r) && At(f.owed, r) <= At(f.prior, r))
  }

  predicate ElsewhereOk(f: Feedback, q: Rid, prior: set<Edge>) {
    At(f.current, q) <= prior && At(f.owed, q) <= prior
  }

  predicate OthersOk(f: Feedback, r: Rid) {
    forall q | q in f.d.runners && q != r :: ElsewhereOk(f, q, At(f.prior, r))
  }

  predicate PriorsOk(f: Feedback) {
    forall r | r in f.d.runners :: OwnPriorOk(f, r) && OthersOk(f, r)
  }

  ghost predicate EdgesOk(f: Feedback) {
    && (forall r: Rid :: BufferOk(f, r))
    && f.validEdges <= f.bitmap <= f.takenEdges
  }

  ghost predicate FeedbackInv(f: Feedback) {
    Inv(f.d) && RunsOk(f) && EdgesOk(f) && LeftsOk(f) && PriorsOk(f)
  }

  lemma BufferAlways(f: Feedback, r: Rid)
    requires EdgesOk(f)
    ensures BufferOk(f, r)
  {
  }

  // ---------- Steps ----------

  lemma RunnerRunsOk(f: Feedback, a: Action)
    requires Inv(f.d) && RunsOk(f) && Enabled(f.d, a)
    requires a.Receive? || a.Finish? || a.Write? || a.Kill? || a.Die?
    ensures RunsOk(Step(f, Protocol(a)))
  {
    var s, f' := f.d, Step(f, Protocol(a));
    var t := f'.d;
    assert t.lists == s.lists && t.pc == s.pc;
    forall r | r in t.runners ensures Requested(t, r) && RunIsOpen(f', r) {
      assert Requested(s, r) && RunIsOpen(f, r);
    }
    forall r | r in f'.open ensures OpenOk(t, r) {
      if r in f.open {
        assert OpenOk(s, r);
      }
      if a.Receive? && a.r == r {
        assert Requested(s, r) && RunIsOpen(f, r);
        assert Known(s, r) && ActiveOk(s.runners[r]);
      }
    }
  }

  lemma MoveRunsOk(f: Feedback, a: Action)
    requires Inv(f.d) && RunsOk(f) && Enabled(f.d, a)
    requires a.Enter? || a.Leave? || a.Poll? || a.Select? || a.Collected? || a.QueueEmpty? || a.StopSending? || a.Decide? || a.Wake?
    ensures RunsOk(Step(f, Protocol(a)))
  {
    var s, f' := f.d, Step(f, Protocol(a));
    var t := f'.d;
    assert t.lists == s.lists && t.runners == s.runners && !s.pc.Handling?;
    forall r | r in t.runners ensures Requested(t, r) && RunIsOpen(f', r) {
      assert Requested(s, r) && RunIsOpen(f, r);
    }
    forall r | r in f'.open ensures OpenOk(t, r) {
      assert OpenOk(s, r);
    }
  }

  lemma HandleRunsOk(f: Feedback)
    requires Inv(f.d) && RunsOk(f) && Enabled(f.d, Handle)
    ensures RunsOk(Step(f, Protocol(Handle)))
  {
    var s, f' := f.d, Step(f, Protocol(Handle));
    HandledElsewhere(f, s.pc.runner, s.pc.reply, s.pc.runner);
    HandledIsIdle(s);
    forall r | r in f'.d.runners ensures Requested(f'.d, r) && RunIsOpen(f', r) {
      assert Requested(s, r) && RunIsOpen(f, r);
    }
    forall r | r in f'.open ensures OpenOk(f'.d, r) {
      assert OpenOk(s, r) && r != s.pc.runner;
    }
  }

  lemma HandledIsIdle(s: State)
    requires Inv(s) && s.pc.Handling?
    ensures s.pc.runner in s.runners && !UnderWay(s.runners[s.pc.runner])
  {
    assert Known(s, s.pc.runner) && ReadyOk(s.runners[s.pc.runner]);
  }

  lemma SortRunsOk(f: Feedback)
    requires Inv(f.d) && RunsOk(f) && Enabled(f.d, Sort)
    ensures RunsOk(Step(f, Protocol(Sort)))
  {
    var s := f.d;
    var t := DoSort(s);
    var f' := Step(f, Protocol(Sort));
    OnlyMembers(s.lists.active, s.pc.readable);
    ExceptMembers(s.lists.active, s.pc.readable);
    forall r | r in t.runners ensures Requested(t, r) && RunIsOpen(f', r) {
      assert Requested(s, r) && RunIsOpen(f, r);
      if r in s.lists.active {
        assert ActiveOk(s.runners[r]);
      }
    }
    forall r | r in f.open ensures OpenOk(t, r) {
      assert OpenOk(s, r);
    }
  }

  lemma ReapRunsOk(f: Feedback, exited: set<Rid>)
    requires Inv(f.d) && RunsOk(f) && Enabled(f.d, Reap(exited))
    ensures RunsOk(Step(f, Protocol(Reap(exited))))
  {
    var s := f.d;
    var t := DoReap(s, exited);
    var f' := Step(f, Protocol(Reap(exited)));
    ExceptMembers(s.lists.active, exited);
    ExceptMembers(s.lists.done, exited);
    forall r | r in t.runners ensures Requested(t, r) && RunIsOpen(f', r) {
      assert Requested(s, r) && RunIsOpen(f, r);
    }
    forall r | r in f.open ensures OpenOk(t, r) {
      assert OpenOk(s, r);
    }
  }

  lemma TakeRunsOk(f: Feedback)
    requires Inv(f.d) && RunsOk(f) && Enabled(f.d, Take)
    ensures RunsOk(Step(f, Protocol(Take)))
  {
    var s := f.d;
    var t := DoTake(s);
    var f' := Step(f, Protocol(Take));
    HeadAndTail(s.lists.done);
    forall r | r in t.runners ensures Requested(t, r) && RunIsOpen(f', r) {
      assert Requested(s, r) && RunIsOpen(f, r);
    }
    forall r | r in f.open ensures OpenOk(t, r) {
      assert OpenOk(s, r);
    }
  }

  lemma SendRunsOk(f: Feedback, input: InputRef, ok: bool)
    requires Inv(f.d) && RunsOk(f) && Enabled(f.d, Send(input, ok))
    ensures RunsOk(Step(f, Protocol(Send(input, ok))))
  {
    var s := f.d;
    var t, x := DoSend(s, input, ok), s.lists.ready[0];
    var f' := Step(f, Protocol(Send(input, ok)));
    forall r | r in t.runners ensures Requested(t, r) && RunIsOpen(f', r) {
      assert Requested(s, r) && RunIsOpen(f, r);
    }
    forall r | r in f.open ensures OpenOk(t, r) {
      assert OpenOk(s, r);
      assert x in s.lists.ready;
    }
  }

  lemma StepRunsOk(f: Feedback, a: Action)
    requires Inv(f.d) && RunsOk(f) && Enabled(f.d, a)
    ensures RunsOk(Step(f, Protocol(a)))
  {
    match a
    case Handle => HandleRunsOk(f);
    case Sort => SortRunsOk(f);
    case Reap(exited) => ReapRunsOk(f, exited);
    case Take => TakeRunsOk(f);
    case Send(input, ok) => SendRunsOk(f, input, ok);
    case Receive(_) => RunnerRunsOk(f, a);
    case Finish(_, _) => RunnerRunsOk(f, a);
    case Write(_) => RunnerRunsOk(f, a);
    case Kill(_) => RunnerRunsOk(f, a);
    case Die(_) => RunnerRunsOk(f, a);
    case _ => MoveRunsOk(f, a);
  }

  // A run begins only when the one before it has been handled.
  lemma ReceiveIsFresh(f: Feedback, r: Rid)
    requires Inv(f.d) && RunsOk(f) && Enabled(f.d, Receive(r))
    ensures r !in f.open
  {
    assert Requested(f.d, r);
    assert r in f.d.lists.active;
    forall q | q in f.open ensures q != r {
      assert OpenOk(f.d, q);
    }
  }

  lemma ReceiveEdgesOk(f: Feedback, r: Rid)
    requires EdgesOk(f) && r !in f.open && Enabled(f.d, Receive(r))
    ensures EdgesOk(Step(f, Protocol(Receive(r))))
  {
    var f' := Step(f, Protocol(Receive(r)));
    forall q: Rid ensures BufferOk(f', q) {
      BufferAlways(f, q);
    }
  }

  lemma HandleBuffer(f: Feedback, q: Rid)
    requires Enabled(f.d, Handle) && BufferOk(f, q)
    ensures BufferOk(Step(f, Protocol(Handle)), q)
  {
    var r, reply := f.d.pc.runner, f.d.pc.reply;
    assert Step(f, Protocol(Handle)) == Handled(f, r, reply).(d := Apply(f.d, Handle));
    if q == r {
      HandleOwnBuffer(f, r, reply);
    }
  }

  lemma HandleOwnBuffer(f: Feedback, r: Rid, reply: Option<Status>)
    requires BufferOk(f, r)
    ensures BufferOk(Handled(f, r, reply), r)
  {
  }

  lemma HandleEdgesOk(f: Feedback)
    requires EdgesOk(f) && Enabled(f.d, Handle)
    ensures EdgesOk(Step(f, Protocol(Handle)))
  {
    BufferAlways(f, f.d.pc.runner);
    forall q: Rid ensures BufferOk(Step(f, Protocol(Handle)), q) {
      BufferAlways(f, q);
      HandleBuffer(f, q);
    }
  }

  lemma TakeEdgeOk(f: Feedback, r: Rid, e: Edge)
    requires EdgesOk(f) && Possible(f, TakeEdge(r, e)) && r in f.open
    ensures EdgesOk(Step(f, TakeEdge(r, e)))
  {
    var f' := Step(f, TakeEdge(r, e));
    forall q: Rid ensures BufferOk(f', q) {
      BufferAlways(f, q);
    }
  }

  lemma OtherEdgesOk(f: Feedback, a: Action)
    requires EdgesOk(f) && Enabled(f.d, a) && !a.Receive? && !a.Handle?
    ensures EdgesOk(Step(f, Protocol(a)))
  {
    var f' := Step(f, Protocol(a));
    forall q: Rid ensures BufferOk(f', q) {
      BufferAlways(f, q);
    }
  }

  lemma TakeEdgeLeft(f: Feedback, r: Rid, e: Edge)
    requires LeftsOk(f) && Possible(f, TakeEdge(r, e))
    ensures LeftsOk(Step(f, TakeEdge(r, e)))
  {
    var f' := Step(f, TakeEdge(r, e));
    forall q | q in f'.open ensures LeftOk(f', q) {
      assert LeftOk(f, q);
    }
  }

  lemma ReceiveLeft(f: Feedback, r: Rid)
    requires LeftsOk(f) && BufferOk(f, r) && r !in f.open && Enabled(f.d, Receive(r))
    ensures LeftsOk(Step(f, Protocol(Receive(r))))
  {
    var f' := Step(f, Protocol(Receive(r)));
    forall q | q in f'.open ensures LeftOk(f', q) {
      assert q != r ==> LeftOk(f, q);
    }
  }

  lemma HandleLeft(f: Feedback)
    requires LeftsOk(f) && Enabled(f.d, Handle)
    ensures LeftsOk(Step(f, Protocol(Handle)))
  {
    var f' := Step(f, Protocol(Handle));
    forall q | q in f'.open ensures LeftOk(f', q) {
      HandledElsewhere(f, f.d.pc.runner, f.d.pc.reply, q);
    }
  }

  // Handling one runner changes nothing about another, and only adds to the bitmap.
  lemma HandledElsewhere(f: Feedback, r: Rid, reply: Option<Status>, q: Rid)
    ensures var f' := Handled(f, r, reply);
            && f'.open == f.open - {r} && f'.takenEdges == f.takenEdges
            && f'.buffer == f.buffer && f'.current == f.current && f'.left == f.left && f'.prior == f.prior
            && (q != r ==> At(f'.owed, q) == At(f.owed, q))
            && f.bitmap <= f'.bitmap <= f.bitmap + At(f.buffer, r)
  {
  }

  lemma OtherLeft(f: Feedback, a: Action)
    requires LeftsOk(f) && Enabled(f.d, a) && !a.Receive? && !a.Handle?
    ensures LeftsOk(Step(f, Protocol(a)))
  {
    forall q | q in f.open ensures LeftOk(Step(f, Protocol(a)), q) {
      assert LeftOk(f, q);
    }
  }

  lemma TakeEdgeOwn(f: Feedback, r: Rid, e: Edge, q: Rid)
    requires OwnPriorOk(f, q) && Possible(f, TakeEdge(r, e)) && q in f.d.runners
    ensures OwnPriorOk(Step(f, TakeEdge(r, e)), q)
  {
  }

  lemma TakeEdgeOthers(f: Feedback, r: Rid, e: Edge, q: Rid)
    requires OthersOk(f, q) && Possible(f, TakeEdge(r, e)) && q in f.d.runners
    ensures OthersOk(Step(f, TakeEdge(r, e)), q)
  {
    var f' := Step(f, TakeEdge(r, e));
    forall x | x in f.d.runners && x != q ensures ElsewhereOk(f', x, At(f'.prior, q)) {
      assert ElsewhereOk(f, x, At(f.prior, q));
    }
  }

  lemma TakeEdgePrior(f: Feedback, r: Rid, e: Edge)
    requires PriorsOk(f) && Possible(f, TakeEdge(r, e))
    ensures PriorsOk(Step(f, TakeEdge(r, e)))
  {
    var f' := Step(f, TakeEdge(r, e));
    forall q | q in f.d.runners ensures OwnPriorOk(f', q) && OthersOk(f', q) {
      TakeEdgeOwn(f, r, e, q);
      TakeEdgeOthers(f, r, e, q);
    }
  }

  lemma ReceiveOwn(f: Feedback, r: Rid, q: Rid)
    requires OwnPriorOk(f, q) && BufferOk(f, r) && f.bitmap <= f.takenEdges && Enabled(f.d, Receive(r))
    ensures OwnPriorOk(Step(f, Protocol(Receive(r))), q)
  {
  }

  lemma ReceiveOthers(f: Feedback, r: Rid, q: Rid)
    requires OthersOk(f, q) && Enabled(f.d, Receive(r))
    ensures OthersOk(Step(f, Protocol(Receive(r))), q)
  {
    var f' := Step(f, Protocol(Receive(r)));
    forall x | x in f.d.runners && x != q ensures ElsewhereOk(f', x, At(f'.prior, q)) {
      assert ElsewhereOk(f, x, At(f.prior, q));
    }
  }

  lemma ReceivePrior(f: Feedback, r: Rid)
    requires PriorsOk(f) && EdgesOk(f) && Enabled(f.d, Receive(r))
    ensures PriorsOk(Step(f, Protocol(Receive(r))))
  {
    var f' := Step(f, Protocol(Receive(r)));
    BufferAlways(f, r);
    forall q | q in f'.d.runners ensures OwnPriorOk(f', q) && OthersOk(f', q) {
      assert q in f.d.runners;
      ReceiveOwn(f, r, q);
      ReceiveOthers(f, r, q);
    }
  }

  // What handling a runner adds to the bitmap was taken by that runner.
  lemma HandleBitmap(f: Feedback, prior: set<Edge>)
    requires Enabled(f.d, Handle) && BufferOk(f, f.d.pc.runner)
    requires f.bitmap <= prior && ElsewhereOk(f, f.d.pc.runner, prior)
    ensures Step(f, Protocol(Handle)).bitmap <= prior
  {
  }

  lemma HandleOwnElsewhere(f: Feedback, q: Rid)
    requires OwnPriorOk(f, q) && Enabled(f.d, Handle) && BufferOk(f, f.d.pc.runner)
    requires q != f.d.pc.runner && ElsewhereOk(f, f.d.pc.runner, At(f.prior, q))
    ensures OwnPriorOk(Step(f, Protocol(Handle)), q)
  {
    HandledElsewhere(f, f.d.pc.runner, f.d.pc.reply, q);
    if q in f.open {
      HandleBitmap(f, At(f.prior, q));
    }
  }

  lemma HandleOwn(f: Feedback, r: Rid, reply: Option<Status>)
    requires OwnPriorOk(f, r)
    ensures OwnPriorOk(Handled(f, r, reply), r)
  {
  }

  lemma HandleOthers(f: Feedback, q: Rid)
    requires OthersOk(f, q) && Enabled(f.d, Handle)
    ensures OthersOk(Step(f, Protocol(Handle)), q)
  {
    var f' := Step(f, Protocol(Handle));
    forall x | x in f.d.runners && x != q ensures ElsewhereOk(f', x, At(f'.prior, q)) {
      assert ElsewhereOk(f, x, At(f.prior, q));
    }
  }

  lemma HandlePrior(f: Feedback)
    requires PriorsOk(f) && EdgesOk(f) && Enabled(f.d, Handle) && f.d.pc.runner in f.d.runners
    ensures PriorsOk(Step(f, Protocol(Handle)))
  {
    var f' := Step(f, Protocol(Handle));
    BufferAlways(f, f.d.pc.runner);
    forall q | q in f.d.runners ensures OwnPriorOk(f', q) && OthersOk(f', q) {
      assert OthersOk(f, q);
      if q == f.d.pc.runner {
        HandleOwn(f, q, f.d.pc.reply);
      } else {
        HandleOwnElsewhere(f, q);
      }
      HandleOthers(f, q);
    }
  }

  lemma OtherPrior(f: Feedback, a: Action)
    requires PriorsOk(f) && Enabled(f.d, a) && !a.Receive? && !a.Handle?
    ensures PriorsOk(Step(f, Protocol(a)))
  {
    var f' := Step(f, Protocol(a));
    forall q | q in f'.d.runners ensures OwnPriorOk(f', q) && OthersOk(f', q) {
      SameRunners(f.d, a, q);
      assert OwnPriorOk(f, q) && OthersOk(f, q);
      forall x | x in f'.d.runners && x != q ensures ElsewhereOk(f', x, At(f'.prior, q)) {
        SameRunners(f.d, a, x);
        assert ElsewhereOk(f, x, At(f.prior, q));
      }
    }
  }

  lemma SameRunners(s: State, a: Action, r: Rid)
    requires Enabled(s, a)
    ensures r in Apply(s, a).runners <==> r in s.runners
  {
    StepSetsInput(s, a, r);
  }

  lemma StepKeepsFeedback(f: Feedback, ev: Event)
    requires FeedbackInv(f) && Possible(f, ev)
    ensures FeedbackInv(Step(f, ev))
  {
    match ev
    case TakeEdge(r, e) =>
      assert RunIsOpen(f, r);
      TakeEdgeOk(f, r, e);
      TakeEdgeLeft(f, r, e);
      TakeEdgePrior(f, r, e);
      EdgeRunsOk(f, r, e);
    case Protocol(a) =>
      StepKeeps(f.d, a);
      StepRunsOk(f, a);
      if a.Receive? {
        ReceiveIsFresh(f, a.r);
        ReceiveEdgesOk(f, a.r);
        BufferAlways(f, a.r);
        ReceiveLeft(f, a.r);
        ReceivePrior(f, a.r);
      } else if a.Handle? {
        HandleEdgesOk(f);
        HandleLeft(f);
        HandlePrior(f);
      } else {
        OtherEdgesOk(f, a);
        OtherLeft(f, a);
        OtherPrior(f, a);
      }
  }

  lemma EdgeRunsOk(f: Feedback, r: Rid, e: Edge)
    requires RunsOk(f) && Possible(f, TakeEdge(r, e))
    ensures RunsOk(Step(f, TakeEdge(r, e)))
  {
    var f' := Step(f, TakeEdge(r, e));
    forall q | q in f'.d.runners ensures Requested(f'.d, q) && RunIsOpen(f', q) {
      assert Requested(f.d, q) && RunIsOpen(f, q);
    }
    forall q | q in f'.open ensures OpenOk(f'.d, q) {
      assert OpenOk(f.d, q);
    }
  }

  lemma {:induction false} FeedbackKeeps(f: Feedback, evs: seq<Event>)
    requires FeedbackInv(f) && Happens(f, evs)
    ensures FeedbackInv(Reached(f, evs))
    decreases |evs|
  {
    if evs != [] {
      StepKeepsFeedback(f, evs[0]);
      FeedbackKeeps(Step(f, evs[0]), evs[1..]);
    }
  }

  lemma StartInv(d: State)
    requires Init(d)
    ensures FeedbackInv(Start(d))
  {
    InitInv(d);
  }

  // ---------- The laws ----------

  // The fuzzer is about to handle a valid result of runner r.
  predicate HandlesValid(f: Feedback, r: Rid) {
    f.d.pc.Handling? && f.d.pc.runner == r && f.d.pc.reply.Some? && f.d.pc.reply.value.outcome == Valid
  }

  // A valid result is of high priority exactly when the run, or an earlier run of the same
  // runner since its last valid result, took an edge the bitmap lacks.
  lemma HighExactly(d: State, evs: seq<Event>, r: Rid)
    requires Init(d) && Happens(Start(d), evs) && HandlesValid(Reached(Start(d), evs), r)
    ensures var f := Reached(Start(d), evs);
            Verdict(f, r) == HighPriority <==> !(At(f.current, r) + At(f.owed, r) <= f.bitmap)
  {
    StartInv(d);
    FeedbackKeeps(Start(d), evs);
    BufferAlways(Reached(Start(d), evs), r);
  }

  // So a run that takes a new edge is never missed; and where every earlier result of the
  // runner was valid, nothing else is of high priority.
  lemma NewEdgeIsHigh(d: State, evs: seq<Event>, r: Rid, e: Edge)
    requires Init(d) && Happens(Start(d), evs) && HandlesValid(Reached(Start(d), evs), r)
    requires var f := Reached(Start(d), evs); e in At(f.current, r) && e !in f.bitmap
    ensures Verdict(Reached(Start(d), evs), r) == HighPriority
  {
    HighExactly(d, evs, r);
  }

  // All results of r handled along a run were valid.
  predicate OnlyValid(f: Feedback, evs: seq<Event>, r: Rid)
    requires Happens(f, evs)
    decreases |evs|
  {
    evs == [] ||
    ((evs[0] == Protocol(Handle) && f.d.pc.Handling? && f.d.pc.runner == r ==> HandlesValid(f, r))
     && OnlyValid(Step(f, evs[0]), evs[1..], r))
  }

  lemma {:induction false} NothingOwed(f: Feedback, evs: seq<Event>, r: Rid)
    requires Happens(f, evs) && OnlyValid(f, evs, r) && At(f.owed, r) == {}
    ensures At(Reached(f, evs).owed, r) == {}
    decreases |evs|
  {
    if evs != [] {
      NothingOwed(Step(f, evs[0]), evs[1..], r);
    }
  }

  lemma HighWhenAllValid(d: State, evs: seq<Event>, r: Rid)
    requires Init(d) && Happens(Start(d), evs) && HandlesValid(Reached(Start(d), evs), r)
    requires OnlyValid(Start(d), evs, r)
    ensures var f := Reached(Start(d), evs);
            Verdict(f, r) == HighPriority <==> !(At(f.current, r) <= f.bitmap)
  {
    HighExactly(d, evs, r);
    NothingOwed(Start(d), evs, r);
  }

  // coverage_map.h promises high priority exactly for an edge that no prior execution took.
  predicate PromiseKept(f: Feedback, r: Rid) {
    Verdict(f, r) == HighPriority <==> !(At(f.current, r) <= At(f.prior, r))
  }

  // The same situation, had the run of r taken other edges.
  function WithRun(f: Feedback, r: Rid, edges: set<Edge>): Feedback {
    f.(current := f.current[r := edges], buffer := f.buffer[r := At(f.left, r) + edges])
  }

  lemma WithRunVerdict(f: Feedback, r: Rid, edges: set<Edge>)
    ensures Verdict(WithRun(f, r, edges), r) == HighPriority <==> !(At(f.left, r) + edges <= f.bitmap)
  {
  }

  lemma WithRunPromise(f: Feedback, r: Rid)
    requires LeftOk(f, r) && f.bitmap <= At(f.prior, r) && At(f.owed, r) <= At(f.prior, r)
    ensures (forall edges: set<Edge> :: PromiseKept(WithRun(f, r, edges), r)) <==> At(f.prior, r) <= f.bitmap
  {
    var prior := At(f.prior, r);
    if prior <= f.bitmap {
      forall edges: set<Edge> ensures PromiseKept(WithRun(f, r, edges), r) {
        WithRunVerdict(f, r, edges);
      }
    } else {
      WithRunVerdict(f, r, prior);
      assert !PromiseKept(WithRun(f, r, prior), r);
    }
  }

  // An edge no other run took is always noticed. The promise as a whole holds, whichever
  // edges the run takes, exactly when the bitmap already has every edge of every other run.
  lemma PromiseExactly(d: State, evs: seq<Event>, r: Rid)
    requires Init(d) && Happens(Start(d), evs) && HandlesValid(Reached(Start(d), evs), r)
    ensures var f := Reached(Start(d), evs);
            && f.takenEdges == At(f.prior, r) + At(f.current, r)
            && At(f.buffer, r) == At(f.left, r) + At(f.current, r)
            && (!(At(f.current, r) <= At(f.prior, r)) ==> Verdict(f, r) == HighPriority)
            && ((forall edges: set<Edge> :: PromiseKept(WithRun(f, r, edges), r)) <==> At(f.prior, r) <= f.bitmap)
  {
    StartInv(d);
    FeedbackKeeps(Start(d), evs);
    var f := Reached(Start(d), evs);
    assert OwnPriorOk(f, r) && LeftOk(f, r);
    WithRunPromise(f, r);
  }

  // The bitmap has every edge of every run handled as valid, and no edge no run took.
  lemma BitmapBounds(d: State, evs: seq<Event>)
    requires Init(d) && Happens(Start(d), evs)
    ensures var f := Reached(Start(d), evs); f.validEdges <= f.bitmap <= f.takenEdges
  {
    StartInv(d);
    FeedbackKeeps(Start(d), evs);
  }

  // The buffer read belongs to the run just reported: its runner has nothing under way.
  lemma BufferIsStill(d: State, evs: seq<Event>, r: Rid, e: Edge)
    requires Init(d) && Happens(Start(d), evs) && HandlesValid(Reached(Start(d), evs), r)
    ensures !Possible(Reached(Start(d), evs), TakeEdge(r, e))
  {
    StartInv(d);
    FeedbackKeeps(Start(d), evs);
  }
}
