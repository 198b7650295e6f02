// The whole system: protocol, queue, inputs and coverage together. The priority that decides
// where an input goes is the one the coverage map gives the buffer of its runner. Every edge
// in the bitmap keeps an input in the queue, and few inputs are ever of high priority.
module WholeSystem {
  import opened Prelude
  import opened Bytes
  import opened RunnerLists
  import opened Dispatch
  import opened QueueSchedule
  import opened Coverage
  import Campaign
  import Feedback
  import FeedbackLaws
  import Ownership
  import Strategies

  datatype System = System(
    c: Campaign.Campaign,
    f: Feedback.Feedback,
    finder: map<Edge, InputRef>)  // for each edge of the bitmap, the input whose result brought it

  function Start(d: State, seeds: seq<cstring>): System {
    System(Campaign.Load(d, seeds), Feedback.Start(d), map[])
  }

  // What coverage_map_add says of the result in hand.
  function Verdict(s: System): Priority {
    if s.c.d.pc.Handling? then Feedback.Verdict(s.f, s.c.d.pc.runner) else NoPriority
  }

  function InCampaign(s: System, a: Action): Campaign.Event {
    Campaign.Event(a, Verdict(s))
  }

  predicate Possible(s: System, ev: Feedback.Event) {
    && Feedback.Possible(s.f, ev)
    && (ev.Protocol? ==> Campaign.Possible(s.c, InCampaign(s, ev.a)))
  }

  function Step(s: System, ev: Feedback.Event): System
    requires Possible(s, ev)
  {
    match ev
    case TakeEdge(_, _) => s.(f := Feedback.Step(s.f, ev))
    case Protocol(a) =>
      System(Campaign.Step(s.c, InCampaign(s, a)), Feedback.Step(s.f, ev), Credited(s, ev))
  }

  function Credited(s: System, ev: Feedback.Event): map<Edge, InputRef>
    requires Possible(s, ev)
  {
    if ev == Feedback.Protocol(Handle) && Campaign.Tested(s.c).Some? then
      s.finder + map e | e in Feedback.Step(s.f, ev).bitmap - s.f.bitmap :: Campaign.Tested(s.c).value
    else s.finder
  }

  predicate Happens(s: System, evs: seq<Feedback.Event>)
    decreases |evs|
  {
    evs == [] || (Possible(s, evs[0]) && Happens(Step(s, evs[0]), evs[1..]))
  }

  function Reached(s: System, evs: seq<Feedback.Event>): System
    requires Happens(s, evs)
    decreases |evs|
  {
    if evs == [] then s else Reached(Step(s, evs[0]), evs[1..])
  }

  // ---------- Its two sides ----------

  function CampaignEvents(s: System, evs: seq<Feedback.Event>): seq<Campaign.Event>
    requires Happens(s, evs)
    decreases |evs|
  {
    if evs == [] then []
    else (if evs[0].Protocol? then [InCampaign(s, evs[0].a)] else []) + CampaignEvents(Step(s, evs[0]), evs[1..])
  }

  // A run of the system is a run of the campaign and one of the feedback, so what holds in
  // all of those holds here.
  lemma {:induction false} SystemRuns(s: System, evs: seq<Feedback.Event>)
    requires Happens(s, evs)
    ensures Feedback.Happens(s.f, evs) && Feedback.Reached(s.f, evs) == Reached(s, evs).f
    ensures var es := CampaignEvents(s, evs);
            Campaign.Happens(s.c, es) && Campaign.Reached(s.c, es) == Reached(s, evs).c
    decreases |evs|
  {
    if evs != [] {
      var rest := CampaignEvents(Step(s, evs[0]), evs[1..]);
      SystemRuns(Step(s, evs[0]), evs[1..]);
      if evs[0].Protocol? {
        assert CampaignEvents(s, evs) == [InCampaign(s, evs[0].a)] + rest;
        assert CampaignEvents(s, evs)[1..] == rest;
      } else {
        assert CampaignEvents(s, evs) == rest;
      }
    }
  }

  // ---------- The invariant ----------

  predicate TextQueued(c: Campaign.Campaign, i: InputRef) {
    i < c.created && Campaign.IsDuplicate(c, Campaign.TextOf(c, i))
  }

  // Each edge of the bitmap has its finder, whose text is queued.
  predicate FindersQueued(s: System) {
    forall e | e in s.f.bitmap :: e in s.finder && TextQueued(s.c, s.finder[e])
  }

  // Every input but the seeds came into the high list with a new edge.
  predicate HighEarned(s: System, seeds: nat) {
    |s.c.queue.high| <= seeds + |s.f.bitmap| && s.f.takenEdges <= Below(MAP_BITS)
  }

  ghost predicate SystemInv(s: System, seeds: nat) {
    && s.f.d == s.c.d && Ownership.CampaignInv(s.c) && Feedback.FeedbackInv(s.f)
    && FindersQueued(s) && HighEarned(s, seeds)
  }

  // ---------- Steps ----------

  // The queue keeps what it holds, and texts do not change.
  predicate QueueKeeps(c: Campaign.Campaign, c': Campaign.Campaign) {
    && (forall i | i in c.queue.high :: i in c'.queue.high)
    && (forall i | i in c.queue.low :: i in c'.queue.low)
    && c.created <= c'.created
    && (forall i: InputRef | i < c.created :: Campaign.TextOf(c', i) == Campaign.TextOf(c, i))
  }

  lemma SendKeepsQueue(c: Campaign.Campaign, e: Campaign.Event)
    requires Ownership.CampaignInv(c) && Campaign.Possible(c, e) && e.a.Send?
    ensures QueueKeeps(c, Campaign.Step(c, e)) && |Campaign.Step(c, e).queue.high| == |c.queue.high|
  {
    var c' := Campaign.Step(c, e);
    assert c'.queue == c.queue.Dequeued();
    if c.queue.TakesHigh() {
      Ownership.RotateDistinct(c, c.queue.high);
    } else {
      Ownership.RotateDistinct(c, c.queue.low);
    }
  }

  lemma HandleKeepsQueue(c: Campaign.Campaign, i: InputRef, reply: Option<Status>, verdict: Priority)
    ensures var c' := Campaign.Handled(c, i, reply, verdict);
            && QueueKeeps(c, c')
            && |c'.queue.high| <= |c.queue.high| + if reply.Some? && reply.value.outcome == Valid && verdict == HighPriority then 1 else 0
  {
  }

  lemma StepKeepsQueue(c: Campaign.Campaign, e: Campaign.Event)
    requires Ownership.CampaignInv(c) && Campaign.Possible(c, e)
    ensures QueueKeeps(c, Campaign.Step(c, e))
  {
    if e.a.Send? {
      SendKeepsQueue(c, e);
    } else if e.a.Handle? && Campaign.Tested(c).Some? {
      HandleKeepsQueue(c, Campaign.Tested(c).value, c.d.pc.reply, e.verdict);
    }
  }

  lemma StillQueued(c: Campaign.Campaign, c': Campaign.Campaign, i: InputRef)
    requires Ownership.CampaignInv(c) && QueueKeeps(c, c') && TextQueued(c, i)
    ensures TextQueued(c', i)
  {
    var flight := Ownership.Flight(c.d);
    var text := Campaign.TextOf(c, i);
    if j :| j in c.queue.high && Campaign.TextOf(c, j) == text {
      assert Ownership.QueuedOk(c, flight, j);
      assert j in c'.queue.high && Campaign.TextOf(c', j) == text;
    } else {
      var j :| j in c.queue.low && Campaign.TextOf(c, j) == text;
      assert Ownership.QueuedOk(c, flight, j);
      assert j in c'.queue.low && Campaign.TextOf(c', j) == text;
    }
  }

  // Where the input of a valid result goes.
  lemma ValidQueues(c: Campaign.Campaign, i: InputRef, reply: Option<Status>)
    requires i < c.created && reply.Some? && reply.value.outcome == Valid
    ensures TextQueued(Campaign.Handled(c, i, reply, HighPriority), i)
  {
    var c' := Campaign.Handled(c, i, reply, HighPriority);
    if !Campaign.IsDuplicate(c, Campaign.TextOf(c, i)) {
      assert c'.queue.high[|c.queue.high|] == i;
      assert i in c'.queue.high && Campaign.TextOf(c', i) == Campaign.TextOf(c, i);
    }
  }

  // A result that changes the bitmap is a valid one of high priority.
  lemma BitmapGrowth(f: Feedback.Feedback)
    requires Feedback.Possible(f, Feedback.Protocol(Handle))
    ensures var f' := Feedback.Step(f, Feedback.Protocol(Handle)); var r := f.d.pc.runner;
            && f.bitmap <= f'.bitmap
            && (f'.bitmap != f.bitmap <==> Feedback.HandlesValid(f, r) && Feedback.Verdict(f, r) == HighPriority)
  {
  }

  lemma BitmapSame(f: Feedback.Feedback, ev: Feedback.Event)
    requires Feedback.Possible(f, ev) && ev != Feedback.Protocol(Handle)
    ensures Feedback.Step(f, ev).bitmap == f.bitmap
    ensures Feedback.Step(f, ev).takenEdges == f.takenEdges + if ev.TakeEdge? then {ev.e} else {}
  {
  }

  lemma EdgeKeepsSystem(s: System, ev: Feedback.Event, seeds: nat)
    requires FindersQueued(s) && HighEarned(s, seeds) && Possible(s, ev) && ev.TakeEdge?
    ensures FindersQueued(Step(s, ev)) && HighEarned(Step(s, ev), seeds)
  {
    BitmapSame(s.f, ev);
    assert ev.e in Below(MAP_BITS);
  }

  lemma MoveKeepsFinders(s: System, ev: Feedback.Event)
    requires Ownership.CampaignInv(s.c) && FindersQueued(s) && Possible(s, ev) && ev.Protocol? && !ev.a.Handle?
    ensures FindersQueued(Step(s, ev))
  {
    var s' := Step(s, ev);
    BitmapSame(s.f, ev);
    StepKeepsQueue(s.c, InCampaign(s, ev.a));
    forall x | x in s'.f.bitmap ensures x in s'.finder && TextQueued(s'.c, s'.finder[x]) {
      StillQueued(s.c, s'.c, s.finder[x]);
    }
  }

  lemma MoveKeepsEarned(s: System, ev: Feedback.Event, seeds: nat)
    requires Ownership.CampaignInv(s.c) && HighEarned(s, seeds) && Possible(s, ev) && ev.Protocol? && !ev.a.Handle?
    ensures HighEarned(Step(s, ev), seeds)
  {
    BitmapSame(s.f, ev);
    if ev.a.Send? {
      SendKeepsQueue(s.c, InCampaign(s, ev.a));
    }
  }

  lemma TestedIsMade(s: System, seeds: nat)
    requires SystemInv(s, seeds) && Possible(s, Feedback.Protocol(Handle))
    ensures Campaign.Tested(s.c).Some? && Campaign.Tested(s.c).value < s.c.created
    ensures Campaign.Tested(s.c).value !in s.c.freed
  {
    Ownership.FlyingHandle(s.c.d);
    assert Ownership.FlyingOk(s.c, Campaign.Tested(s.c).value);
  }

  // What the lemmas on handling need of the invariant.
  predicate Handles(s: System) {
    && s.f.d == s.c.d && Possible(s, Feedback.Protocol(Handle))
    && Campaign.Tested(s.c).Some? && Campaign.Tested(s.c).value < s.c.created
  }

  // The campaign's side of handling a result.
  lemma HandleStep(s: System)
    requires Handles(s)
    ensures var s' := Step(s, Feedback.Protocol(Handle));
            s'.c == Campaign.Handled(s.c, Campaign.Tested(s.c).value, s.c.d.pc.reply, Verdict(s)).(d := s'.c.d)
  {
  }

  lemma NewEdgeFinder(s: System, x: Edge)
    requires Handles(s) && x !in s.f.bitmap && x in Step(s, Feedback.Protocol(Handle)).f.bitmap
    ensures var s' := Step(s, Feedback.Protocol(Handle)); x in s'.finder && TextQueued(s'.c, s'.finder[x])
  {
    var s', i := Step(s, Feedback.Protocol(Handle)), Campaign.Tested(s.c).value;
    HandleStep(s);
    BitmapGrowth(s.f);
    ValidQueues(s.c, i, s.c.d.pc.reply);
    SameQueue(Campaign.Handled(s.c, i, s.c.d.pc.reply, HighPriority), s'.c, i);
    assert s'.finder[x] == i;
  }

  lemma SameQueue(c: Campaign.Campaign, c': Campaign.Campaign, i: InputRef)
    requires c' == c.(d := c'.d) && TextQueued(c, i)
    ensures TextQueued(c', i)
  {
    var text := Campaign.TextOf(c, i);
    if j :| j in c.queue.high && Campaign.TextOf(c, j) == text {
      assert Campaign.TextOf(c', j) == text;
    } else {
      var j :| j in c.queue.low && Campaign.TextOf(c, j) == text;
      assert Campaign.TextOf(c', j) == text;
    }
  }

  lemma OldEdgeFinder(s: System, seeds: nat, x: Edge)
    requires SystemInv(s, seeds) && Possible(s, Feedback.Protocol(Handle)) && x in s.f.bitmap
    ensures var s' := Step(s, Feedback.Protocol(Handle)); x in s'.finder && TextQueued(s'.c, s'.finder[x])
  {
    var s' := Step(s, Feedback.Protocol(Handle));
    StepKeepsQueue(s.c, InCampaign(s, Handle));
    assert x in s.finder && TextQueued(s.c, s.finder[x]);
    StillQueued(s.c, s'.c, s.finder[x]);
    assert s'.finder[x] == s.finder[x];
  }

  lemma HandleKeepsFinders(s: System, seeds: nat)
    requires SystemInv(s, seeds) && Possible(s, Feedback.Protocol(Handle))
    ensures FindersQueued(Step(s, Feedback.Protocol(Handle)))
  {
    var s' := Step(s, Feedback.Protocol(Handle));
    TestedIsMade(s, seeds);
    forall x | x in s'.f.bitmap ensures x in s'.finder && TextQueued(s'.c, s'.finder[x]) {
      if x in s.f.bitmap {
        OldEdgeFinder(s, seeds, x);
      } else {
        NewEdgeFinder(s, x);
      }
    }
  }

  // The high list grows only with the bitmap.
  lemma HighGrowth(s: System)
    requires Handles(s)
    ensures var s' := Step(s, Feedback.Protocol(Handle));
            && s'.f.takenEdges == s.f.takenEdges && s.f.bitmap <= s'.f.bitmap
            && |s'.c.queue.high| <= |s.c.queue.high| + if s'.f.bitmap != s.f.bitmap then 1 else 0
  {
    HandleStep(s);
    BitmapGrowth(s.f);
    HandleKeepsQueue(s.c, Campaign.Tested(s.c).value, s.c.d.pc.reply, Verdict(s));
  }

  lemma HandleKeepsEarned(s: System, seeds: nat)
    requires Handles(s) && HighEarned(s, seeds)
    ensures HighEarned(Step(s, Feedback.Protocol(Handle)), seeds)
  {
    HighGrowth(s);
    SubsetSize(s.f.bitmap, Step(s, Feedback.Protocol(Handle)).f.bitmap);
  }

  lemma OtherKeepsSystem(s: System, ev: Feedback.Event, seeds: nat)
    requires Ownership.CampaignInv(s.c) && FindersQueued(s) && HighEarned(s, seeds)
    requires Possible(s, ev) && ev != Feedback.Protocol(Handle)
    ensures FindersQueued(Step(s, ev)) && HighEarned(Step(s, ev), seeds)
  {
    if ev.TakeEdge? {
      EdgeKeepsSystem(s, ev, seeds);
    } else {
      MoveKeepsFinders(s, ev);
      MoveKeepsEarned(s, ev, seeds);
    }
  }

  lemma StepKeepsSystem(s: System, ev: Feedback.Event, seeds: nat)
    requires SystemInv(s, seeds) && Possible(s, ev)
    ensures SystemInv(Step(s, ev), seeds)
  {
    Feedback.StepKeepsFeedback(s.f, ev);
    if ev.Protocol? {
      Ownership.StepKeepsCampaign(s.c, InCampaign(s, ev.a));
    }
    if ev == Feedback.Protocol(Handle) {
      TestedIsMade(s, seeds);
      HandleKeepsFinders(s, seeds);
      HandleKeepsEarned(s, seeds);
    } else {
      OtherKeepsSystem(s, ev, seeds);
    }
  }

  lemma {:induction false} SystemKeeps(s: System, evs: seq<Feedback.Event>, seeds: nat)
    requires SystemInv(s, seeds) && Happens(s, evs)
    ensures SystemInv(Reached(s, evs), seeds)
    decreases |evs|
  {
    if evs != [] {
      StepKeepsSystem(s, evs[0], seeds);
      SystemKeeps(Step(s, evs[0]), evs[1..], seeds);
    }
  }

  lemma {:induction false} LoadHigh(d: State, seeds: seq<cstring>)
    ensures |Campaign.Load(d, seeds).queue.high| <= |seeds|
  {
    if seeds != [] {
      LoadHigh(d, seeds[..|seeds| - 1]);
    }
  }

  predicate Begins(d: State, seeds: seq<cstring>) {
    && Init(d) && d.target + |d.lists.pool| < 0x8000_0000
    && forall t | t in seeds :: |t| <= Strategies.MAX_LENGTH
  }

  lemma StartInv(d: State, seeds: seq<cstring>)
    requires Begins(d, seeds)
    ensures SystemInv(Start(d, seeds), |seeds|)
  {
    Ownership.StartInv(d, seeds);
    Ownership.LoadOwned(d, seeds);
    Feedback.StartInv(d);
    LoadHigh(d, seeds);
  }

  lemma ReachedInv(d: State, seeds: seq<cstring>, evs: seq<Feedback.Event>)
    requires Begins(d, seeds) && Happens(Start(d, seeds), evs)
    ensures SystemInv(Reached(Start(d, seeds), evs), |seeds|)
  {
    StartInv(d, seeds);
    SystemKeeps(Start(d, seeds), evs, |seeds|);
  }

  // ---------- The laws ----------

  // A new input goes to the end of the high list, one whose text is queued is freed.
  predicate Queues(c: Campaign.Campaign, c': Campaign.Campaign, i: InputRef) {
    if Campaign.IsDuplicate(c, Campaign.TextOf(c, i)) then c'.queue == c.queue && i in c'.freed
    else c'.queue == c.queue.(high := c.queue.high + [i]) && i !in c'.freed
  }

  lemma HighQueues(c: Campaign.Campaign, i: InputRef, reply: Option<Status>)
    requires i !in c.freed && reply.Some? && reply.value.outcome == Valid
    ensures Queues(c, Campaign.Handled(c, i, reply, HighPriority), i)
  {
  }

  lemma NewEdgeVerdict(s: System, r: Rid, e: Edge)
    requires s.f.d == s.c.d && Feedback.BufferOk(s.f, r) && Feedback.HandlesValid(s.f, r)
    requires e in Feedback.At(s.f.current, r) && e !in s.f.bitmap
    ensures Possible(s, Feedback.Protocol(Handle)) && Verdict(s) == HighPriority
  {
  }

  lemma NewEdgeQueues(s: System, r: Rid, e: Edge, seeds: nat)
    requires SystemInv(s, seeds) && Feedback.HandlesValid(s.f, r)
    requires e in Feedback.At(s.f.current, r) && e !in s.f.bitmap
    ensures Possible(s, Feedback.Protocol(Handle)) && Campaign.Tested(s.c).Some?
    ensures Queues(s.c, Step(s, Feedback.Protocol(Handle)).c, Campaign.Tested(s.c).value)
  {
    Feedback.BufferAlways(s.f, r);
    NewEdgeVerdict(s, r, e);
    TestedIsMade(s, seeds);
    HandleStep(s);
    HighQueues(s.c, Campaign.Tested(s.c).value, s.c.d.pc.reply);
  }

  // A valid run with an edge the bitmap lacks puts its input at the end of the high list,
  // unless its text is queued already: then it is freed.
  lemma NewEdgeIsQueued(d: State, seeds: seq<cstring>, evs: seq<Feedback.Event>, r: Rid, e: Edge)
    requires Begins(d, seeds) && Happens(Start(d, seeds), evs)
    requires var s := Reached(Start(d, seeds), evs);
             Feedback.HandlesValid(s.f, r) && e in Feedback.At(s.f.current, r) && e !in s.f.bitmap
    ensures var s := Reached(Start(d, seeds), evs);
            && Possible(s, Feedback.Protocol(Handle)) && Campaign.Tested(s.c).Some?
            && Queues(s.c, Step(s, Feedback.Protocol(Handle)).c, Campaign.Tested(s.c).value)
  {
    ReachedInv(d, seeds, evs);
    NewEdgeQueues(Reached(Start(d, seeds), evs), r, e, |seeds|);
  }

  lemma {:induction false} SystemSnoc(s: System, evs: seq<Feedback.Event>)
    requires Happens(s, evs) && evs != []
    ensures var front, last := evs[..|evs| - 1], evs[|evs| - 1];
            Happens(s, front) && Possible(Reached(s, front), last) && Reached(s, evs) == Step(Reached(s, front), last)
    decreases |evs|
  {
    var front, last := evs[..|evs| - 1], evs[|evs| - 1];
    if front == [] {
      assert evs[1..] == [];
    } else {
      SystemSnoc(Step(s, evs[0]), evs[1..]);
      assert front[1..] == evs[1..][..|evs| - 2];
    }
  }

  // Event k handles a valid result whose buffer has edge e, which the bitmap then lacks.
  predicate FoundAt(s: System, evs: seq<Feedback.Event>, k: nat, e: Edge) {
    && k < |evs| && evs[k] == Feedback.Protocol(Handle) && Happens(s, evs[..k])
    && var g := Reached(s, evs[..k]);
       && g.c.d.pc.Handling? && Campaign.Tested(g.c).Some?
       && Feedback.HandlesValid(g.f, g.c.d.pc.runner)
       && e in Feedback.At(g.f.buffer, g.c.d.pc.runner) && e !in g.f.bitmap
  }

  predicate FinderAt(s: System, evs: seq<Feedback.Event>, k: nat, e: Edge, i: InputRef) {
    FoundAt(s, evs, k, e) && Campaign.Tested(Reached(s, evs[..k]).c).value == i
  }

  lemma FoundEarlier(s: System, evs: seq<Feedback.Event>, k: nat, e: Edge, i: InputRef)
    requires evs != [] && FinderAt(s, evs[..|evs| - 1], k, e, i)
    ensures FinderAt(s, evs, k, e, i)
  {
    assert evs[..|evs| - 1][..k] == evs[..k];
  }

  lemma NewFinder(s: System, ev: Feedback.Event, seeds: nat, e: Edge)
    requires SystemInv(s, seeds) && Possible(s, ev)
    ensures if e in s.f.bitmap then
              e in Step(s, ev).f.bitmap && e in s.finder && e in Step(s, ev).finder && Step(s, ev).finder[e] == s.finder[e]
            else if e in Step(s, ev).f.bitmap then
              && ev == Feedback.Protocol(Handle) && s.c.d.pc.Handling? && Campaign.Tested(s.c).Some?
              && Feedback.HandlesValid(s.f, s.c.d.pc.runner) && e in Feedback.At(s.f.buffer, s.c.d.pc.runner)
              && e in Step(s, ev).finder && Step(s, ev).finder[e] == Campaign.Tested(s.c).value
            else true
  {
    if ev == Feedback.Protocol(Handle) {
      BitmapGrowth(s.f);
      TestedIsMade(s, seeds);
    } else {
      BitmapSame(s.f, ev);
    }
  }

  lemma {:induction false} FinderIs(s: System, evs: seq<Feedback.Event>, seeds: nat, e: Edge)
    requires SystemInv(s, seeds) && s.f.bitmap == {} && Happens(s, evs) && e in Reached(s, evs).f.bitmap
    ensures e in Reached(s, evs).finder
    ensures exists k :: FinderAt(s, evs, k, e, Reached(s, evs).finder[e])
    decreases |evs|
  {
    SystemSnoc(s, evs);
    var front, last := evs[..|evs| - 1], evs[|evs| - 1];
    var g := Reached(s, front);
    SystemKeeps(s, front, seeds);
    NewFinder(g, last, seeds, e);
    if e in g.f.bitmap {
      FinderIs(s, front, seeds, e);
      var k: nat :| FinderAt(s, front, k, e, g.finder[e]);
      FoundEarlier(s, evs, k, e, g.finder[e]);
    } else {
      assert FinderAt(s, evs, |evs| - 1, e, Campaign.Tested(g.c).value);
    }
  }

  predicate HasQueuedText(c: Campaign.Campaign, text: cstring) {
    (exists i :: i in c.queue.high && Campaign.TextOf(c, i) == text) || (exists i :: i in c.queue.low && Campaign.TextOf(c, i) == text)
  }

  // Nothing found is lost: in every run each edge of the bitmap was brought by some handled
  // result, and an input with the text of the one tested there is in the queue.
  lemma EveryEdgeIsKept(d: State, seeds: seq<cstring>, evs: seq<Feedback.Event>, e: Edge)
    requires Begins(d, seeds) && Happens(Start(d, seeds), evs) && e in Reached(Start(d, seeds), evs).f.bitmap
    ensures var s := Reached(Start(d, seeds), evs);
            exists k, i :: FinderAt(Start(d, seeds), evs, k, e, i) && HasQueuedText(s.c, Campaign.TextOf(s.c, i))
  {
    StartInv(d, seeds);
    ReachedInv(d, seeds, evs);
    var s := Reached(Start(d, seeds), evs);
    FinderIs(Start(d, seeds), evs, |seeds|, e);
    var i := s.finder[e];
    var k: nat :| FinderAt(Start(d, seeds), evs, k, e, i);
    assert TextQueued(s.c, i);
    assert HasQueuedText(s.c, Campaign.TextOf(s.c, i));
  }

  // ---------- Where every input goes ----------

  predicate Stays(c: Campaign.Campaign, c': Campaign.Campaign) {
    c'.queue == c.queue && c'.freed == c.freed
  }

  predicate Freed(c: Campaign.Campaign, c': Campaign.Campaign, i: InputRef) {
    c'.queue == c.queue && c'.freed == c.freed + {i}
  }

  // What becomes of the input whose result is handled, in terms of the buffers added so far.
  predicate Disposed(history: seq<set<Edge>>, v: set<Edge>, reply: Option<Status>,
                     c: Campaign.Campaign, c': Campaign.Campaign, i: InputRef)
  {
    if reply == None then Stays(c, c')
    else if reply.value.outcome != Valid then Freed(c, c', i)
    else if v in history || Campaign.IsDuplicate(c, Campaign.TextOf(c, i)) then Freed(c, c', i)
    else if forall e | e in v :: FeedbackLaws.InOne(history, e) then
      c'.queue == c.queue.(low := c.queue.low + [i]) && c'.freed == c.freed
    else c'.queue == c.queue.(high := c.queue.high + [i]) && c'.freed == c.freed
  }

  predicate VerdictBy(s: System, history: seq<set<Edge>>, v: set<Edge>) {
    && (Verdict(s) == HighPriority <==> exists e :: e in v && !FeedbackLaws.InOne(history, e))
    && (Verdict(s) == NoPriority <==> v in history)
  }

  predicate DisposesHere(s: System, history: seq<set<Edge>>) {
    && Possible(s, Feedback.Protocol(Handle)) && s.c.d.pc.Handling? && Campaign.Tested(s.c).Some?
    && Disposed(history, Feedback.At(s.f.buffer, s.c.d.pc.runner), s.c.d.pc.reply,
                s.c, Step(s, Feedback.Protocol(Handle)).c, Campaign.Tested(s.c).value)
  }

  lemma HandleDisposes(s: System, history: seq<set<Edge>>)
    requires Handles(s)
    requires Feedback.HandlesValid(s.f, s.c.d.pc.runner) ==>
               VerdictBy(s, history, Feedback.At(s.f.buffer, s.c.d.pc.runner))
    ensures DisposesHere(s, history)
  {
    HandleStep(s);
  }

  lemma ReachedVerdict(d: State, seeds: seq<cstring>, evs: seq<Feedback.Event>, r: Rid)
    requires Init(d) && Happens(Start(d, seeds), evs)
    requires var s := Reached(Start(d, seeds), evs); s.f.d == s.c.d && Feedback.HandlesValid(s.f, r)
    ensures Feedback.Happens(Feedback.Start(d), evs)
    ensures var s := Reached(Start(d, seeds), evs);
            VerdictBy(s, FeedbackLaws.Added(Feedback.Start(d), evs), Feedback.At(s.f.buffer, r))
  {
    SystemRuns(Start(d, seeds), evs);
    FeedbackLaws.PrioritiesExactly(d, evs, r);
  }

  lemma HandlePossible(s: System)
    requires s.f.d == s.c.d && s.c.d.pc.Handling?
    ensures Possible(s, Feedback.Protocol(Handle))
  {
  }

  lemma InvHandles(s: System, seeds: nat)
    requires SystemInv(s, seeds) && s.c.d.pc.Handling?
    ensures Handles(s)
  {
    HandlePossible(s);
    TestedIsMade(s, seeds);
  }

  lemma ReachedHandles(d: State, seeds: seq<cstring>, evs: seq<Feedback.Event>)
    requires Begins(d, seeds) && Happens(Start(d, seeds), evs) && Reached(Start(d, seeds), evs).c.d.pc.Handling?
    ensures Handles(Reached(Start(d, seeds), evs))
  {
    ReachedInv(d, seeds, evs);
    InvHandles(Reached(Start(d, seeds), evs), |seeds|);
  }

  // In every run of the whole system: a missing status leaves everything as it is; a crash, a
  // timeout, a buffer added before and a text queued already free the input; of the others,
  // those with an edge no added buffer has go to the end of the high list, the rest to the
  // end of the low one.
  lemma ResultsAreDisposed(d: State, seeds: seq<cstring>, evs: seq<Feedback.Event>)
    requires Begins(d, seeds) && Happens(Start(d, seeds), evs) && Reached(Start(d, seeds), evs).c.d.pc.Handling?
    ensures Feedback.Happens(Feedback.Start(d), evs)
    ensures DisposesHere(Reached(Start(d, seeds), evs), FeedbackLaws.Added(Feedback.Start(d), evs))
  {
    ReachedHandles(d, seeds, evs);
    SystemRuns(Start(d, seeds), evs);
    var s := Reached(Start(d, seeds), evs);
    if Feedback.HandlesValid(s.f, s.c.d.pc.runner) {
      ReachedVerdict(d, seeds, evs, s.c.d.pc.runner);
    }
    HandleDisposes(s, FeedbackLaws.Added(Feedback.Start(d), evs));
  }

  lemma {:induction false} HighStays(s: System, evs: seq<Feedback.Event>, seeds: nat, i: InputRef)
    requires SystemInv(s, seeds) && Happens(s, evs) && i in s.c.queue.high
    ensures i in Reached(s, evs).c.queue.high
    decreases |evs|
  {
    if evs != [] {
      if evs[0].Protocol? {
        StepKeepsQueue(s.c, InCampaign(s, evs[0].a));
      }
      StepKeepsSystem(s, evs[0], seeds);
      HighStays(Step(s, evs[0]), evs[1..], seeds, i);
    }
  }

  // However long a run, no more inputs than seeds and edges ever enter the high list: none
  // leaves it, and it is never longer than that.
  lemma HighListIsBounded(d: State, seeds: seq<cstring>, evs: seq<Feedback.Event>, more: seq<Feedback.Event>)
    requires Begins(d, seeds) && Happens(Start(d, seeds), evs)
    requires Happens(Reached(Start(d, seeds), evs), more)
    ensures var s := Reached(Start(d, seeds), evs); var t := Reached(s, more);
            && (forall i | i in s.c.queue.high :: i in t.c.queue.high)
            && |s.c.queue.high| <= |seeds| + |s.f.bitmap| <= |seeds| + MAP_BITS
  {
    ReachedInv(d, seeds, evs);
    var s := Reached(Start(d, seeds), evs);
    forall i | i in s.c.queue.high ensures i in Reached(s, more).c.queue.high {
      HighStays(s, more, |seeds|, i);
    }
    BelowSize(MAP_BITS);
    SubsetSize(s.f.bitmap, Below(MAP_BITS));
  }
}
