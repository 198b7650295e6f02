// The fuzzer's inputs in motion: the dispatch protocol together with the input queue, the
// texts and mutation states of the inputs, and what has been freed. Inputs are numbered
// in the order make_input creates them.
module Campaign {
  import opened Prelude
  import opened Words
  import opened Bytes
  import opened Dispatch
  import opened QueueSchedule
  import opened Coverage
  import Strategies
  import Inputs

  datatype Campaign = Campaign(
    d: Dispatch.State,
    queue: Schedule<InputRef>,
    text: map<InputRef, cstring>,
    state: map<InputRef, word>,
    created: nat,              // inputs made so far: the next one gets this number
    freed: set<InputRef>,
    served: seq<InputRef>,     // what dequeue_input has returned, in order
    failedSends: nat,
    jobs: nat)                 // how many runners there were at the start

  function TextOf(c: Campaign, i: InputRef): cstring {
    if i in c.text then c.text[i] else []
  }

  function StateOf(c: Campaign, i: InputRef): word {
    if i in c.state then c.state[i] else 0
  }

  predicate IsDuplicate(c: Campaign, text: cstring) {
    (exists i | i in c.queue.high :: TextOf(c, i) == text) || (exists i | i in c.queue.low :: TextOf(c, i) == text)
  }

  // make_input
  function Make(c: Campaign, text: cstring): Campaign {
    c.(text := c.text[c.created := text], state := c.state[c.created := 0], created := c.created + 1)
  }

  function Free(c: Campaign, i: InputRef): Campaign {
    c.(freed := c.freed + {i})
  }

  // enqueue_high_prio_input and enqueue_low_prio_input
  function Enqueue(c: Campaign, i: InputRef, high: bool): Campaign {
    if IsDuplicate(c, TextOf(c, i)) then Free(c, i)
    else if high then c.(queue := After(c.queue, EnqueueHigh(i)))
    else c.(queue := After(c.queue, EnqueueLow(i)))
  }

  // Reading the seed file.
  function Load(d: Dispatch.State, seeds: seq<cstring>): Campaign {
    if seeds == [] then Campaign(d, Schedule([], [], 0), map[], map[], 0, {}, [], 0, |d.lists.pool|)
    else
      var c := Load(d, seeds[..|seeds| - 1]);
      Enqueue(Make(c, seeds[|seeds| - 1]), c.created, true)
  }

  // One step of the system; verdict is what coverage_map_add says when a valid result is
  // handled, and means nothing in other steps.
  datatype Event = Event(a: Action, verdict: Priority)

  predicate Possible(c: Campaign, e: Event) {
    && Enabled(c.d, e.a)
    && (e.a.Send? ==> !c.queue.Empty() && e.a.input == c.created)
    && (e.a.QueueEmpty? ==> c.queue.Empty())
  }

  // fuzzer.c:134-154
  function Dispatched(c: Campaign, ok: bool): Campaign
    requires !c.queue.Empty()
  {
    var i := c.queue.Front();
    var c1 := c.(queue := c.queue.Dequeued(), served := c.served + [i],
                 state := c.state[i := Inputs.Next(StateOf(c, i))]);
    var c2 := Make(c1, Strategies.SentText(TextOf(c, i), StateOf(c, i)));
    if ok then c2 else Free(c2, c.created).(failedSends := c.failedSends + 1)
  }

  // The input whose result is being handled: the active input of its runner.
  function Tested(c: Campaign): Option<InputRef>
    requires c.d.pc.Handling?
  {
    var r := c.d.pc.runner;
    if r in c.d.runners then c.d.runners[r].activeInput else None
  }

  // fuzzer.c:107-129
  function Handled(c: Campaign, i: InputRef, reply: Option<Status>, verdict: Priority): Campaign {
    match reply
    case Some(Status(_, Valid)) =>
      if verdict == NoPriority then Free(c, i) else Enqueue(c, i, verdict == HighPriority)
    case Some(_) => Free(c, i)
    case None => c
  }

  function Step(c: Campaign, e: Event): Campaign
    requires Possible(c, e)
  {
    var c' :=
      if e.a.Send? then Dispatched(c, e.a.ok)
      else if e.a.Handle? && Tested(c).Some? then Handled(c, Tested(c).value, c.d.pc.reply, e.verdict)
      else c;
    c'.(d := Apply(c.d, e.a))
  }

  predicate Happens(c: Campaign, es: seq<Event>)
    decreases |es|
  {
    es == [] || (Possible(c, es[0]) && Happens(Step(c, es[0]), es[1..]))
  }

  function Reached(c: Campaign, es: seq<Event>): Campaign
    requires Happens(c, es)
    decreases |es|
  {
    if es == [] then c else Reached(Step(c, es[0]), es[1..])
  }

  function Actions(es: seq<Event>): seq<Action> {
    if es == [] then [] else [es[0].a] + Actions(es[1..])
  }

  // A campaign is a run of the protocol.
  lemma {:induction false} CampaignRuns(c: Campaign, es: seq<Event>)
    requires Happens(c, es)
    ensures Runs(c.d, Actions(es)) && Last(c.d, Actions(es)) == Reached(c, es).d
    ensures |Actions(es)| == |es|
    decreases |es|
  {
    if es != [] {
      CampaignRuns(Step(c, es[0]), es[1..]);
      assert Actions(es)[1..] == Actions(es[1..]);
    }
  }
}
