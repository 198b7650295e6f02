// A campaign with at least one seed ends. The queue never runs dry, so the only steps the
// termination theorem of the protocol excludes are deaths, failed sends and shutdowns.
module CampaignEnds {
  import opened Bytes
  import opened Dispatch
  import opened DispatchSafety
  import opened Coverage
  import opened Campaign
  import opened Ownership
  import Placement
  import Termination

  predicate Undisturbed(a: Action) {
    !a.Die? && (a.Send? ==> a.ok) && (a.Wake? ==> !a.stop)
  }

  // Nothing is ever taken out of the queue.
  lemma QueueStays(c: Campaign, e: Event)
    requires Possible(c, e) && !c.queue.Empty()
    ensures !Step(c, e).queue.Empty()
  {
  }

  lemma {:induction false} QueueNeverEmpty(c: Campaign, es: seq<Event>)
    requires Happens(c, es) && !c.queue.Empty()
    requires forall e | e in es :: Undisturbed(e.a)
    ensures forall a | a in Actions(es) :: Calm(a)
    ensures !Reached(c, es).queue.Empty()
    decreases |es|
  {
    if es != [] {
      QueueStays(c, es[0]);
      QueueNeverEmpty(Step(c, es[0]), es[1..]);
    }
  }

  predicate CanGoOn(c: Campaign, e: Event) {
    Possible(c, e) && Undisturbed(e.a)
  }

  lemma GoesOn(c: Campaign)
    requires Inv(c.d) && !c.d.pc.Exited? && !c.queue.Empty()
    ensures exists e :: CanGoOn(c, e)
  {
    var a := NeverStuck(c.d);
    var b := if a.Send? then Send(c.created, true) else a;
    assert Enabled(c.d, b);
    assert CanGoOn(c, Event(b, NoPriority));
  }

  // The protocol's side of it.
  lemma ActionsEnd(d: State, seeds: seq<cstring>, es: seq<Event>)
    requires Reachable(d, seeds, es) && QuietStart(d) && seeds != [] && d.lists.pool != []
    requires forall e | e in es :: Undisturbed(e.a)
    ensures var c := Reached(Load(d, seeds), es);
            && |es| <= 120 * d.target + 9 && !c.queue.Empty()
            && (c.d.pc.Exited? ==> c.d.received == d.target && c.d.lists.active == [] && c.d.lists.done == [])
  {
    LoadOwned(d, seeds);
    QueueNeverEmpty(Load(d, seeds), es);
    CampaignRuns(Load(d, seeds), es);
    Termination.MainLoopTerminates(d, Actions(es));
  }

  // With at least one seed and one runner, an undisturbed campaign has at most 120 steps a
  // job; until it is over it can go on; and it is over only when every job is received and
  // no input is in flight.
  lemma CampaignTerminates(d: State, seeds: seq<cstring>, es: seq<Event>)
    requires Reachable(d, seeds, es) && QuietStart(d) && seeds != [] && d.lists.pool != []
    requires forall e | e in es :: Undisturbed(e.a)
    ensures var c := Reached(Load(d, seeds), es);
            && |es| <= 120 * d.target + 9
            && (c.d.pc.Exited? ==> c.d.received == d.target && Flight(c.d) == {})
            && (!c.d.pc.Exited? ==> exists e :: CanGoOn(c, e))
  {
    ActionsEnd(d, seeds, es);
    ReachableInv(d, seeds, es);
    var c := Reached(Load(d, seeds), es);
    if !c.d.pc.Exited? {
      GoesOn(c);
    }
  }

  // And then every input ever made has been freed or is queued.
  lemma NothingLeftOver(d: State, seeds: seq<cstring>, es: seq<Event>, i: InputRef)
    requires Reachable(d, seeds, es) && QuietStart(d) && seeds != [] && d.lists.pool != []
    requires forall e | e in es :: Undisturbed(e.a)
    requires var c := Reached(Load(d, seeds), es); c.d.pc.Exited? && i < c.created
    ensures var c := Reached(Load(d, seeds), es); i in c.freed <==> !InQueue(c, i)
  {
    CampaignTerminates(d, seeds, es);
    Placement.EveryInputPlaced(d, seeds, es, i);
  }
}
