// The schedule of input_queue.c on values: two lists, a cycle index, and a dequeue that
// rotates one of them. Fairness holds whatever is enqueued between dequeues.
module QueueSchedule {

  datatype Schedule<T> = Schedule(high: seq<T>, low: seq<T>, cycle: nat) {

    predicate Empty() {
      high == [] && low == []
    }

    // Nine turns of ten go to the high list, unless the list whose turn it is has nothing.
    predicate TakesHigh() {
      if cycle < 9 then high != [] else low == []
    }

    function Front(): T
      requires !Empty()
    {
      if TakesHigh() then high[0] else low[0]
    }

    function Dequeued(): Schedule<T>
      requires !Empty()
    {
      if TakesHigh() then Schedule(Rotate(high), low, (cycle + 1) % 10)
      else Schedule(high, Rotate(low), (cycle + 1) % 10)
    }
  }

  function Rotate<T>(s: seq<T>): (r: seq<T>)
    requires s != []
    ensures |r| == |s|
  {
    s[1..] + [s[0]]
  }

  lemma RotatePermutes<T>(s: seq<T>)
    requires s != []
    ensures multiset(Rotate(s)) == multiset(s)
  {
    assert s == [s[0]] + s[1..];
  }

  // What a caller can do to the queue; a refused duplicate does nothing and is no step.
  datatype Op<T> = EnqueueHigh(x: T) | EnqueueLow(x: T) | Dequeue

  function After<T>(q: Schedule<T>, op: Op<T>): (r: Schedule<T>)
    ensures q.cycle < 10 ==> r.cycle < 10
  {
    match op
    case EnqueueHigh(x) => q.(high := q.high + [x])
    case EnqueueLow(x) => q.(low := q.low + [x])
    case Dequeue => if q.Empty() then q else q.Dequeued()
  }

  function Dequeues<T>(ops: seq<Op<T>>): nat {
    if ops == [] then 0 else (if ops[0].Dequeue? then 1 else 0) + Dequeues(ops[1..])
  }

  // The inputs handed out along the way.
  function Served<T>(q: Schedule<T>, ops: seq<Op<T>>): seq<T>
    decreases |ops|
  {
    if ops == [] then []
    else if ops[0].Dequeue? && !q.Empty() then [q.Front()] + Served(After(q, ops[0]), ops[1..])
    else Served(After(q, ops[0]), ops[1..])
  }

  // How many of the dequeues went to the low list.
  function LowTurns<T>(q: Schedule<T>, ops: seq<Op<T>>): nat
    decreases |ops|
  {
    if ops == [] then 0
    else (if ops[0].Dequeue? && !q.Empty() && !q.TakesHigh() then 1 else 0) + LowTurns(After(q, ops[0]), ops[1..])
  }

  // ---------- Fairness ----------

  lemma {:induction false} LowServedInTime<T>(q: Schedule<T>, ops: seq<Op<T>>, p: nat)
    requires q.cycle < 10 && p < |q.low|
    requires Dequeues(ops) >= 10 - q.cycle + 10 * p
    ensures q.low[p] in Served(q, ops)
    decreases |ops|
  {
    var r := After(q, ops[0]);
    if !ops[0].Dequeue? || q.TakesHigh() {
      LowServedInTime(r, ops[1..], p);
    } else if p > 0 {
      LowServedInTime(r, ops[1..], p - 1);
    }
  }

  // An input at position p of the low list is handed out within 10(p+1) dequeues.
  lemma LowFairness<T>(q: Schedule<T>, ops: seq<Op<T>>, p: nat)
    requires q.cycle < 10 && p < |q.low|
    requires Dequeues(ops) >= 10 * (p + 1)
    ensures q.low[p] in Served(q, ops)
  {
    LowServedInTime(q, ops, p);
  }

  lemma {:induction false} HighServedInTime<T>(q: Schedule<T>, ops: seq<Op<T>>, p: nat)
    requires q.cycle < 10 && p < |q.high|
    requires Dequeues(ops) >= p + 1 + (p + q.cycle) / 9
    ensures q.high[p] in Served(q, ops)
    decreases |ops|
  {
    var r := After(q, ops[0]);
    if !ops[0].Dequeue? || !q.TakesHigh() {
      HighServedInTime(r, ops[1..], p);
    } else if p > 0 {
      HighServedInTime(r, ops[1..], p - 1);
    }
  }

  // One at position p of the high list within (p+1) + ceil((p+1)/9).
  lemma HighFairness<T>(q: Schedule<T>, ops: seq<Op<T>>, p: nat)
    requires q.cycle < 10 && p < |q.high|
    requires Dequeues(ops) >= p + 1 + (p + 1 + 8) / 9
    ensures q.high[p] in Served(q, ops)
  {
    HighServedInTime(q, ops, p);
  }

  lemma TurnsAdd(cycle: nat, rest: nat)
    requires cycle < 10
    ensures (cycle + 1 + rest) / 10 == (if cycle == 9 then 1 else 0) + ((cycle + 1) % 10 + rest) / 10
  {
  }

  lemma {:induction false} LowTurnsCount<T>(q: Schedule<T>, ops: seq<Op<T>>)
    requires q.cycle < 10 && q.high != [] && q.low != []
    ensures LowTurns(q, ops) == (q.cycle + Dequeues(ops)) / 10
    ensures |Served(q, ops)| == Dequeues(ops)
    decreases |ops|
  {
    if ops != [] {
      LowTurnsCount(After(q, ops[0]), ops[1..]);
      TurnsAdd(q.cycle, Dequeues(ops[1..]));
    }
  }

  // With both lists nonempty, any 10k consecutive dequeues take 9k high and k low.
  lemma NineToOne<T>(q: Schedule<T>, ops: seq<Op<T>>, k: nat)
    requires q.cycle < 10 && q.high != [] && q.low != []
    requires Dequeues(ops) == 10 * k
    ensures LowTurns(q, ops) == k
    ensures |Served(q, ops)| - LowTurns(q, ops) == 9 * k
  {
    LowTurnsCount(q, ops);
  }
}
