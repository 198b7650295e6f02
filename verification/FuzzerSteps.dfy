// The bodies of the two inner loops of run_fuzzer on the real structures: what becomes of
// an input whose result has come in, and what goes out to the next ready runner. What the
// kernel and the runners answer comes in as arguments.
module FuzzerSteps {
  import opened Prelude
  import opened Bytes
  import opened Inputs
  import opened QueueSchedule
  import opened Coverage
  import InputQueue
  import CoverageMap
  import Mutator
  import Strategies
  import StrategyLaws
  import Dispatch

  // A copy the first time an input is used, a mutant afterwards; either way one more use.
  method CopyOrMutate(input: Input) returns (made: Input)
    requires input.state == 0 || Mutator.Mutable(input)
    modifies input
    ensures fresh(made) && made.state == 0
    ensures |made.text| <= Strategies.MAX_LENGTH || (old(input.state) == 0 && made.text == input.text)
    ensures input.state == Next(old(input.state))
    ensures made.text == Strategies.SentText(input.text, old(input.state))
  {
    if input.state == 0 {
      UpToNulStopsAtFirst(input.text, []);
      assert input.text + [NUL] + [] == input.text + [NUL];
      made := new Input(input.text + [NUL]);
      var before := input.StateStep();
    } else {
      StrategyLaws.MutationCloses(input.text, input.state);
      made := Mutator.Mutate(input);
    }
  }

  // It leaves a queue that holds the input as it is.
  method CopyOrMutateQueued(queue: InputQueue.InputQueue, input: Input) returns (made: Input)
    requires queue.Valid() && input !in queue.high.Repr && input !in queue.low.Repr
    requires input.state == 0 || Mutator.Mutable(input)
    modifies input
    ensures queue.Valid() && queue.View() == old(queue.View())
    ensures fresh(made) && made.state == 0
    ensures |made.text| <= Strategies.MAX_LENGTH || (old(input.state) == 0 && made.text == input.text)
    ensures input.state == Next(old(input.state))
    ensures made.text == Strategies.SentText(input.text, old(input.state))
  {
    made := CopyOrMutate(input);
  }

  // The one input that the next dequeue returns, if any.
  ghost function NextInput(queue: InputQueue.InputQueue): set<Input>
    reads queue, queue.high, queue.low
  {
    if queue.View().Empty() then {} else {queue.View().Front()}
  }

  // fuzzer.c:134-146: the next input to send, made from source; null when the queue is
  // empty. Of all queued inputs only source changes.
  method NextToSend(queue: InputQueue.InputQueue) returns (made: Input?, ghost source: Input?)
    requires queue.Valid()
    requires forall x | x in NextInput(queue) ::
               && (x.state == 0 || Mutator.Mutable(x))
               && x !in queue.high.Repr && x !in queue.low.Repr
    modifies queue, queue.high.Repr, queue.low.Repr, NextInput(queue)
    ensures queue.Valid() && queue.View() == After(old(queue.View()), Op.Dequeue)
    ensures source == if old(queue.View().Empty()) then null else old(queue.View()).Front()
    ensures (made == null) == (source == null)
    ensures made != null ==> fresh(made) && made.state == 0
    ensures made != null ==> |made.text| <= Strategies.MAX_LENGTH || (old(source.state) == 0 && made.text == source.text)
    ensures made != null ==> made.text == Strategies.SentText(source.text, old(source.state))
    ensures made != null ==> source.state == Next(old(source.state))
  {
    var input := queue.Dequeue();
    source := input;
    made := null;
    if input != null {
      assert input in old(NextInput(queue));
      made := CopyOrMutateQueued(queue, input);
    }
  }

  // fuzzer.c:107-130: what becomes of the input whose result is handled. The caller owns
  // it no longer; freed says whether it was passed to free_input.
  method HandleResult(queue: InputQueue.InputQueue, coverage: CoverageMap.CoverageMap,
                      tested: Input, reply: Option<Dispatch.Outcome>, buffer: array<byte>)
    returns (freed: bool)
    requires queue.Valid() && coverage.Valid()
    requires buffer.Length == MAP_BYTES && buffer != coverage.bitmap
    requires {coverage, coverage.bitmap, coverage.hashset, queue} !! (queue.high.Repr + queue.low.Repr)
    modifies queue, queue.high.Repr, queue.low.Repr, coverage, coverage.bitmap, coverage.hashset
    ensures queue.Valid() && coverage.Valid()
    ensures reply == Some(Dispatch.Valid) ==> coverage.history == old(coverage.history) + [old(buffer[..])]
    ensures reply != Some(Dispatch.Valid) ==>
              coverage.history == old(coverage.history) && queue.View() == old(queue.View()) && freed == reply.Some?
    ensures reply == Some(Dispatch.Valid) ==>
              var known := InputQueue.HasText(old(queue.View().high), tested.text) || InputQueue.HasText(old(queue.View().low), tested.text);
              && (freed <==> old(buffer[..]) in old(coverage.history) || known)
              && queue.View() == (if freed then old(queue.View())
                                  else if Edges(old(buffer[..])) <= AllEdges(old(coverage.history)) then
                                    old(queue.View()).(low := old(queue.View()).low + [tested])
                                  else old(queue.View()).(high := old(queue.View()).high + [tested]))
  {
    if reply == Some(Dispatch.Valid) {
      var verdict := coverage.Add(buffer);
      assert queue.Valid() && queue.View() == old(queue.View());
      match verdict
      case HighPriority => freed := queue.EnqueueHigh(tested);
      case LowPriority => freed := queue.EnqueueLow(tested);
      case NoPriority => freed := true;
    } else {
      freed := reply.Some?;
    }
  }
}
