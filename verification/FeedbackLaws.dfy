// The coverage feedback against the events of a run: what the buffers, the bitmap and the
// hash set hold, and so which priority a result gets, told from the edges taken and the
// results handled alone.
module FeedbackLaws {
  import opened RunnerLists
  import opened Dispatch
  import opened Coverage
  import opened Feedback

  // ---------- What has been added ----------

  // The buffer that a step adds to the coverage map: the one read for a valid result.
  function AddedBy(f: Feedback, ev: Event): seq<set<Edge>> {
    if ev == Protocol(Handle) && f.d.pc.Handling? && HandlesValid(f, f.d.pc.runner) then [At(f.buffer, f.d.pc.runner)] else []
  }

  function Added(f: Feedback, evs: seq<Event>): seq<set<Edge>>
    requires Happens(f, evs)
    decreases |evs|
  {
    if evs == [] then [] else AddedBy(f, evs[0]) + Added(Step(f, evs[0]), evs[1..])
  }

  predicate InOne(history: seq<set<Edge>>, e: Edge) {
    exists i :: 0 <= i < |history| && e in history[i]
  }

  lemma InOneOf(a: seq<set<Edge>>, b: seq<set<Edge>>, e: Edge)
    ensures InOne(a + b, e) <==> InOne(a, e) || InOne(b, e)
  {
    if i :| 0 <= i < |a| && e in a[i] {
      assert (a + b)[i] == a[i];
    }
    if i :| 0 <= i < |b| && e in b[i] {
      assert (a + b)[|a| + i] == b[i];
    }
    if i :| 0 <= i < |a + b| && e in (a + b)[i] {
      assert if i < |a| then (a + b)[i] == a[i] else (a + b)[i] == b[i - |a|];
    }
  }

  lemma AddStep(f: Feedback, ev: Event)
    requires Possible(f, ev)
    ensures forall e :: e in Step(f, ev).bitmap <==> e in f.bitmap || InOne(AddedBy(f, ev), e)
    ensures forall v :: v in Step(f, ev).seen <==> v in f.seen || v in AddedBy(f, ev)
  {
    var added := AddedBy(f, ev);
    if added != [] {
      assert added == [At(f.buffer, f.d.pc.runner)];
      forall e ensures InOne(added, e) <==> e in At(f.buffer, f.d.pc.runner) {
        assert added[0] == At(f.buffer, f.d.pc.runner);
      }
    }
  }

  // The bitmap is the union of what has been added, and the hash set its set.
  lemma {:induction false} MapHolds(f: Feedback, evs: seq<Event>)
    requires Happens(f, evs)
    ensures forall e :: e in Reached(f, evs).bitmap <==> e in f.bitmap || InOne(Added(f, evs), e)
    ensures forall v :: v in Reached(f, evs).seen <==> v in f.seen || v in Added(f, evs)
    decreases |evs|
  {
    if evs != [] {
      var g, rest := Step(f, evs[0]), evs[1..];
      AddStep(f, evs[0]);
      MapHolds(g, rest);
      forall e ensures InOne(Added(f, evs), e) <==> InOne(AddedBy(f, evs[0]), e) || InOne(Added(g, rest), e) {
        InOneOf(AddedBy(f, evs[0]), Added(g, rest), e);
      }
    }
  }

  // In every run the three priorities are those of coverage_map.h, with the results handled
  // as valid for the executions seen.
  lemma PrioritiesExactly(d: State, evs: seq<Event>, r: Rid)
    requires Init(d) && Happens(Start(d), evs) && HandlesValid(Reached(Start(d), evs), r)
    ensures var f := Reached(Start(d), evs); var v := At(f.buffer, r); var history := Added(Start(d), evs);
            && (Verdict(f, r) == HighPriority <==> exists e :: e in v && !InOne(history, e))
            && (Verdict(f, r) == LowPriority <==> v !in history && forall e | e in v :: InOne(history, e))
            && (Verdict(f, r) == NoPriority <==> v in history)
  {
    var f, history := Reached(Start(d), evs), Added(Start(d), evs);
    var v := At(f.buffer, r);
    MapHolds(Start(d), evs);
    if v in history {
      var i :| 0 <= i < |history| && history[i] == v;
      forall e | e in v ensures InOne(history, e) {
        assert e in history[i];
      }
    }
  }

  // ---------- What the buffers hold ----------

  // A buffer holds every edge its runner ever took, and nothing else.
  lemma {:induction false} BufferHolds(f: Feedback, evs: seq<Event>, r: Rid, e: Edge)
    requires Happens(f, evs)
    ensures e in At(Reached(f, evs).buffer, r) <==> e in At(f.buffer, r) || TakeEdge(r, e) in evs
    decreases |evs|
  {
    if evs != [] {
      BufferHolds(Step(f, evs[0]), evs[1..], r, e);
      assert evs == [evs[0]] + evs[1..];
      BufferStep(f, evs[0], r, e);
    }
  }

  lemma BufferStep(f: Feedback, ev: Event, r: Rid, e: Edge)
    requires Possible(f, ev)
    ensures e in At(Step(f, ev).buffer, r) <==> e in At(f.buffer, r) || ev == TakeEdge(r, e)
  {
  }

  // Runner r took e in its present or last run: it has not received an input since.
  predicate TookSince(evs: seq<Event>, r: Rid, e: Edge) {
    evs != [] && ((evs[0] == TakeEdge(r, e) && Protocol(Receive(r)) !in evs[1..]) || TookSince(evs[1..], r, e))
  }

  // Some other run took e: one of another runner, or an earlier one of r.
  predicate TookElsewhere(evs: seq<Event>, r: Rid, e: Edge) {
    evs != [] &&
    (|| (evs[0].TakeEdge? && evs[0].e == e && (evs[0].r != r || Protocol(Receive(r)) in evs[1..]))
     || TookElsewhere(evs[1..], r, e))
  }

  lemma CurrentStep(f: Feedback, ev: Event, r: Rid, e: Edge)
    requires Possible(f, ev)
    ensures e in At(Step(f, ev).current, r) <==> ev == TakeEdge(r, e) || (e in At(f.current, r) && ev != Protocol(Receive(r)))
  {
  }

  lemma {:induction false} CurrentHolds(f: Feedback, evs: seq<Event>, r: Rid, e: Edge)
    requires Happens(f, evs)
    ensures e in At(Reached(f, evs).current, r) <==>
            TookSince(evs, r, e) || (e in At(f.current, r) && Protocol(Receive(r)) !in evs)
    decreases |evs|
  {
    if evs != [] {
      CurrentHolds(Step(f, evs[0]), evs[1..], r, e);
      assert evs == [evs[0]] + evs[1..];
      CurrentStep(f, evs[0], r, e);
    }
  }

  lemma PriorStep(f: Feedback, ev: Event, r: Rid, e: Edge)
    requires Possible(f, ev) && r in f.d.runners
    ensures r in Step(f, ev).d.runners
    ensures e in At(Step(f, ev).prior, r) <==>
            e in At(f.prior, r) || (ev.TakeEdge? && ev.e == e && ev.r != r)
            || (ev == Protocol(Receive(r)) && e in At(f.current, r))
  {
    if ev.Protocol? {
      SameRunners(f.d, ev.a, r);
    }
  }

  lemma {:induction false} PriorHolds(f: Feedback, evs: seq<Event>, r: Rid, e: Edge)
    requires Happens(f, evs) && r in f.d.runners
    ensures e in At(Reached(f, evs).prior, r) <==>
            e in At(f.prior, r) || TookElsewhere(evs, r, e) || (e in At(f.current, r) && Protocol(Receive(r)) in evs)
    decreases |evs|
  {
    if evs != [] {
      PriorStep(f, evs[0], r, e);
      CurrentStep(f, evs[0], r, e);
      PriorHolds(Step(f, evs[0]), evs[1..], r, e);
      assert evs == [evs[0]] + evs[1..];
    }
  }

  // Runner r took e before it last received an input.
  predicate TookBefore(evs: seq<Event>, r: Rid, e: Edge) {
    evs != [] && ((evs[0] == TakeEdge(r, e) && Protocol(Receive(r)) in evs[1..]) || TookBefore(evs[1..], r, e))
  }

  lemma LeftStep(f: Feedback, ev: Event, r: Rid, e: Edge)
    requires Possible(f, ev)
    ensures e in At(Step(f, ev).left, r) <==> e in if ev == Protocol(Receive(r)) then At(f.buffer, r) else At(f.left, r)
  {
  }

  lemma {:induction false} LeftHolds(f: Feedback, evs: seq<Event>, r: Rid, e: Edge)
    requires Happens(f, evs)
    ensures e in At(Reached(f, evs).left, r) <==>
            TookBefore(evs, r, e) || e in if Protocol(Receive(r)) in evs then At(f.buffer, r) else At(f.left, r)
    decreases |evs|
  {
    if evs != [] {
      LeftStep(f, evs[0], r, e);
      BufferStep(f, evs[0], r, e);
      LeftHolds(Step(f, evs[0]), evs[1..], r, e);
      assert evs == [evs[0]] + evs[1..];
    }
  }

  // The edges of the runs handled as valid, run by run.
  function ValidBy(f: Feedback, ev: Event): seq<set<Edge>> {
    if ev == Protocol(Handle) && f.d.pc.Handling? && HandlesValid(f, f.d.pc.runner) then [At(f.current, f.d.pc.runner)] else []
  }

  function ValidRuns(f: Feedback, evs: seq<Event>): seq<set<Edge>>
    requires Happens(f, evs)
    decreases |evs|
  {
    if evs == [] then [] else ValidBy(f, evs[0]) + ValidRuns(Step(f, evs[0]), evs[1..])
  }

  lemma ValidStep(f: Feedback, ev: Event, e: Edge)
    requires Possible(f, ev)
    ensures e in Step(f, ev).validEdges <==> e in f.validEdges || InOne(ValidBy(f, ev), e)
  {
    var edges := ValidBy(f, ev);
    if edges != [] {
      assert edges[0] == At(f.current, f.d.pc.runner);
    }
  }

  lemma {:induction false} ValidHolds(f: Feedback, evs: seq<Event>, e: Edge)
    requires Happens(f, evs)
    ensures e in Reached(f, evs).validEdges <==> e in f.validEdges || InOne(ValidRuns(f, evs), e)
    decreases |evs|
  {
    if evs != [] {
      var g, rest := Step(f, evs[0]), evs[1..];
      ValidStep(f, evs[0], e);
      ValidHolds(g, rest, e);
      InOneOf(ValidBy(f, evs[0]), ValidRuns(g, rest), e);
    }
  }

  lemma {:induction false} TakenHolds(f: Feedback, evs: seq<Event>, e: Edge)
    requires Happens(f, evs)
    ensures e in Reached(f, evs).takenEdges <==> e in f.takenEdges || exists r: Rid :: TakeEdge(r, e) in evs
    decreases |evs|
  {
    if evs != [] {
      TakenHolds(Step(f, evs[0]), evs[1..], e);
      assert evs == [evs[0]] + evs[1..];
      if evs[0].TakeEdge? && evs[0].e == e {
        assert TakeEdge(evs[0].r, e) in evs;
      }
      if r: Rid :| TakeEdge(r, e) in evs[1..] {
        assert TakeEdge(r, e) in evs;
      }
      TakenStep(f, evs[0], e);
    }
  }

  lemma TakenStep(f: Feedback, ev: Event, e: Edge)
    requires Possible(f, ev)
    ensures e in Step(f, ev).takenEdges <==> e in f.takenEdges || (ev.TakeEdge? && ev.e == e)
  {
  }

  // What the theorems of Feedback call the present run, all other runs and all runs, in
  // terms of the events of the run.
  lemma RecordsAre(d: State, evs: seq<Event>, r: Rid, e: Edge)
    requires Init(d) && Happens(Start(d), evs) && r in d.runners
    ensures var f := Reached(Start(d), evs);
            && (e in At(f.buffer, r) <==> TakeEdge(r, e) in evs)
            && (e in At(f.current, r) <==> TookSince(evs, r, e))
            && (e in At(f.prior, r) <==> TookElsewhere(evs, r, e))
            && (e in At(f.left, r) <==> TookBefore(evs, r, e))
            && (e in f.takenEdges <==> exists q: Rid :: TakeEdge(q, e) in evs)
            && (e in f.validEdges <==> InOne(ValidRuns(Start(d), evs), e))
  {
    LeftHolds(Start(d), evs, r, e);
    ValidHolds(Start(d), evs, e);
    BufferHolds(Start(d), evs, r, e);
    CurrentHolds(Start(d), evs, r, e);
    PriorHolds(Start(d), evs, r, e);
    TakenHolds(Start(d), evs, e);
  }

  // ---------- What a runner owes ----------

  // Event k handles a result of r, a valid one or another.
  predicate HandlesAt(f: Feedback, evs: seq<Event>, k: nat, r: Rid, valid: bool) {
    && k < |evs| && evs[k] == Protocol(Handle) && Happens(f, evs[..k])
    && var g := Reached(f, evs[..k]);
       g.d.pc.Handling? && g.d.pc.runner == r && HandlesValid(g, r) == valid
  }

  // The edges of the run whose result event k handles.
  function EdgesAt(f: Feedback, evs: seq<Event>, k: nat, r: Rid): set<Edge>
    requires k <= |evs| && Happens(f, evs[..k])
  {
    At(Reached(f, evs[..k]).current, r)
  }

  // A run of r that took e was handled, but not as valid, and none has been valid since.
  predicate OwesFrom(f: Feedback, evs: seq<Event>, k: nat, r: Rid, e: Edge) {
    && HandlesAt(f, evs, k, r, false) && e in EdgesAt(f, evs, k, r)
    && forall m: nat | k < m < |evs| :: !HandlesAt(f, evs, m, r, true)
  }

  lemma {:induction false} PrefixHappens(f: Feedback, evs: seq<Event>, k: nat)
    requires Happens(f, evs) && k <= |evs|
    ensures Happens(f, evs[..k])
    decreases |evs|
  {
    if k > 0 {
      PrefixHappens(Step(f, evs[0]), evs[1..], k - 1);
      assert evs[..k][1..] == evs[1..][..k - 1];
    }
  }

  lemma PrefixStep(f: Feedback, evs: seq<Event>, k: nat)
    requires Happens(f, evs) && k < |evs|
    ensures Happens(f, evs[..k + 1]) && Happens(Step(f, evs[0]), evs[1..][..k])
    ensures Reached(f, evs[..k + 1]) == Reached(Step(f, evs[0]), evs[1..][..k])
  {
    PrefixHappens(f, evs, k + 1);
    assert evs[..k + 1][1..] == evs[1..][..k];
  }

  lemma HandlesLater(f: Feedback, evs: seq<Event>, k: nat, r: Rid, valid: bool)
    requires Happens(f, evs) && k + 1 < |evs|
    ensures HandlesAt(f, evs, k + 1, r, valid) <==> HandlesAt(Step(f, evs[0]), evs[1..], k, r, valid)
    ensures Happens(f, evs[..k + 1]) && Happens(Step(f, evs[0]), evs[1..][..k])
    ensures EdgesAt(f, evs, k + 1, r) == EdgesAt(Step(f, evs[0]), evs[1..], k, r)
  {
    PrefixStep(f, evs, k);
  }

  lemma OwesLater(f: Feedback, evs: seq<Event>, k: nat, r: Rid, e: Edge)
    requires Happens(f, evs) && k + 1 < |evs|
    ensures OwesFrom(f, evs, k + 1, r, e) <==> OwesFrom(Step(f, evs[0]), evs[1..], k, r, e)
  {
    HandlesLater(f, evs, k, r, false);
    forall m: nat | m + 1 < |evs|
      ensures HandlesAt(f, evs, m + 1, r, true) <==> HandlesAt(Step(f, evs[0]), evs[1..], m, r, true)
    {
      HandlesLater(f, evs, m, r, true);
    }
    if OwesFrom(f, evs, k + 1, r, e) {
      forall m: nat | k < m < |evs[1..]| ensures !HandlesAt(Step(f, evs[0]), evs[1..], m, r, true) {
        assert !HandlesAt(f, evs, m + 1, r, true);
      }
    }
    if OwesFrom(Step(f, evs[0]), evs[1..], k, r, e) {
      forall m: nat | k + 1 < m < |evs| ensures !HandlesAt(f, evs, m, r, true) {
        assert !HandlesAt(Step(f, evs[0]), evs[1..], m - 1, r, true);
      }
    }
  }

  lemma OwedStep(f: Feedback, ev: Event, r: Rid, e: Edge)
    requires Possible(f, ev)
    ensures var handles := ev == Protocol(Handle) && f.d.pc.Handling? && f.d.pc.runner == r;
            e in At(Step(f, ev).owed, r) <==>
            !(handles && HandlesValid(f, r)) && (e in At(f.owed, r) || (handles && e in At(f.current, r)))
  {
  }

  lemma LaterHandles(f: Feedback, evs: seq<Event>, r: Rid)
    requires Happens(f, evs) && evs != []
    ensures (forall m: nat | 0 < m < |evs| :: !HandlesAt(f, evs, m, r, true)) ==
            (forall m: nat | m < |evs[1..]| :: !HandlesAt(Step(f, evs[0]), evs[1..], m, r, true))
  {
    var g, rest := Step(f, evs[0]), evs[1..];
    forall m: nat | m < |rest| ensures HandlesAt(f, evs, m + 1, r, true) == HandlesAt(g, rest, m, r, true) {
      HandlesLater(f, evs, m, r, true);
    }
    if forall m: nat | 0 < m < |evs| :: !HandlesAt(f, evs, m, r, true) {
      forall m: nat | m < |rest| ensures !HandlesAt(g, rest, m, r, true) {
        assert !HandlesAt(f, evs, m + 1, r, true);
      }
    }
    if forall m: nat | m < |rest| :: !HandlesAt(g, rest, m, r, true) {
      forall m: nat | 0 < m < |evs| ensures !HandlesAt(f, evs, m, r, true) {
        assert !HandlesAt(g, rest, m - 1, r, true);
      }
    }
  }

  lemma HeadHandles(f: Feedback, evs: seq<Event>, r: Rid, valid: bool)
    requires Happens(f, evs) && evs != []
    ensures HandlesAt(f, evs, 0, r, valid) ==
            (evs[0] == Protocol(Handle) && f.d.pc.Handling? && f.d.pc.runner == r && HandlesValid(f, r) == valid)
  {
    assert evs[..0] == [];
  }

  lemma HeadOwes(f: Feedback, evs: seq<Event>, r: Rid, e: Edge)
    requires Happens(f, evs) && evs != []
    ensures OwesFrom(f, evs, 0, r, e) ==
            (HandlesAt(f, evs, 0, r, false) && e in At(f.current, r)
             && forall m: nat | m < |evs[1..]| :: !HandlesAt(Step(f, evs[0]), evs[1..], m, r, true))
  {
    LaterHandles(f, evs, r);
    assert evs[..0] == [];
  }

  lemma SomeOwes(f: Feedback, evs: seq<Event>, r: Rid, e: Edge)
    requires Happens(f, evs) && evs != []
    ensures (exists k: nat :: k < |evs| && OwesFrom(f, evs, k, r, e)) ==
            (OwesFrom(f, evs, 0, r, e) || exists k: nat :: k < |evs[1..]| && OwesFrom(Step(f, evs[0]), evs[1..], k, r, e))
  {
    if k: nat :| k < |evs| && OwesFrom(f, evs, k, r, e) {
      if k > 0 {
        OwesLater(f, evs, k - 1, r, e);
      }
    }
    if k: nat :| k < |evs[1..]| && OwesFrom(Step(f, evs[0]), evs[1..], k, r, e) {
      OwesLater(f, evs, k, r, e);
    }
  }

  lemma NoneHandles(f: Feedback, evs: seq<Event>, r: Rid)
    requires Happens(f, evs) && evs != []
    ensures (forall m: nat | m < |evs| :: !HandlesAt(f, evs, m, r, true)) ==
            (!HandlesAt(f, evs, 0, r, true) && forall m: nat | m < |evs[1..]| :: !HandlesAt(Step(f, evs[0]), evs[1..], m, r, true))
  {
    LaterHandles(f, evs, r);
  }

  lemma {:induction false} OwedHolds(f: Feedback, evs: seq<Event>, r: Rid, e: Edge)
    requires Happens(f, evs)
    ensures e in At(Reached(f, evs).owed, r) <==>
            (exists k: nat :: k < |evs| && OwesFrom(f, evs, k, r, e))
            || (e in At(f.owed, r) && forall m: nat | m < |evs| :: !HandlesAt(f, evs, m, r, true))
    decreases |evs|
  {
    if evs != [] {
      var g, rest := Step(f, evs[0]), evs[1..];
      OwedHolds(g, rest, r, e);
      OwedStep(f, evs[0], r, e);
      HeadHandles(f, evs, r, true);
      HeadHandles(f, evs, r, false);
      HeadOwes(f, evs, r, e);
      SomeOwes(f, evs, r, e);
      NoneHandles(f, evs, r);
    }
  }

  // What HighExactly calls left over: the edges of the runs of r handled since its last
  // valid result.
  lemma OwedIs(d: State, evs: seq<Event>, r: Rid, e: Edge)
    requires Init(d) && Happens(Start(d), evs)
    ensures e in At(Reached(Start(d), evs).owed, r) <==> exists k: nat :: k < |evs| && OwesFrom(Start(d), evs, k, r, e)
  {
    OwedHolds(Start(d), evs, r, e);
  }
}
