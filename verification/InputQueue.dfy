// input_queue.c: two singly linked lists of inputs without duplicate texts between them.
module InputQueue {
  import opened Bytes
  import opened Inputs
  import opened QueueSchedule

  class Node {
    const input: Input
    var next: Node?

    constructor (input: Input)
      ensures this.input == input && next == null
    {
      this.input := input;
      next := null;
    }
  }

  class List {
    var head: Node?
    var tail: Node?
    var len: nat
    ghost var nodes: seq<Node>
    ghost var contents: seq<Input>
    ghost var Repr: set<object>

    ghost predicate Valid()
      reads this, Repr
      ensures Valid() ==> this in Repr
    {
      && this in Repr
      && (forall i | 0 <= i < |nodes| :: nodes[i] in Repr)
      && len == |nodes|
      && (forall i, j | 0 <= i < j < |nodes| :: nodes[i] != nodes[j])
      && (forall i | 0 <= i < |nodes| - 1 :: nodes[i].next == nodes[i + 1])
      && (nodes == [] ==> head == null && tail == null)
      && (nodes != [] ==> head == nodes[0] && tail == nodes[|nodes| - 1] && tail.next == null)
      && |contents| == |nodes|
      && (forall i | 0 <= i < |nodes| :: nodes[i].input == contents[i])
    }

    constructor ()
      ensures Valid() && contents == [] && fresh(Repr)
    {
      head, tail, len, nodes, contents := null, null, 0, [], [];
      Repr := {this};
    }

    method Enqueue(input: Input)
      requires Valid()
      modifies Repr
      ensures Valid() && contents == old(contents) + [input]
      ensures fresh(Repr - old(Repr))
    {
      var node := new Node(input);
      if len == 0 {
        head := node;
        tail := node;
      } else {
        tail.next := node;
        tail := node;
      }
      len := len + 1;
      nodes, contents := nodes + [node], contents + [input];
      Repr := Repr + {node};
    }

    // Is there an input with this text? One traversal from the head.
    method Contains(text: cstring) returns (found: bool)
      requires Valid()
      ensures found <==> exists i :: 0 <= i < |contents| && contents[i].text == text
    {
      var cur := head;
      ghost var i := 0;
      while cur != null
        invariant 0 <= i <= |nodes|
        invariant cur == if i < |nodes| then nodes[i] else null
        invariant forall j | 0 <= j < i :: contents[j].text != text
        decreases |nodes| - i
      {
        if text == cur.input.text {
          assert contents[i].text == text;
          return true;
        }
        cur := cur.next;
        i := i + 1;
      }
      found := false;
    }

    // Unlinks the head and links it back behind the tail.
    method TakeAndRotate() returns (input: Input)
      requires Valid() && len > 0
      modifies Repr
      ensures Valid() && input == old(contents)[0]
      ensures contents == Rotate(old(contents)) && Repr == old(Repr)
    {
      var res := head;
      head := head.next;
      assert |nodes| > 1 ==> head == nodes[1];
      len := len - 1;
      if head == null {
        tail := null;
      }
      res.next := null;
      if len == 0 {
        head := res;
        tail := res;
      } else {
        tail.next := res;
        tail := res;
      }
      len := len + 1;
      nodes, contents := Rotate(nodes), Rotate(contents);
      input := res.input;
    }
  }

  ghost predicate HasText(s: seq<Input>, text: cstring) {
    exists i :: 0 <= i < |s| && s[i].text == text
  }

  ghost predicate DistinctTexts(s: seq<Input>) {
    forall i, j | 0 <= i < j < |s| :: s[i].text != s[j].text
  }

  ghost predicate ApartTexts(s: seq<Input>, t: seq<Input>) {
    forall i | 0 <= i < |s| :: !HasText(t, s[i].text)
  }

  // No text is queued twice, in one list or across the two.
  ghost predicate NoDuplicates(q: Schedule<Input>) {
    DistinctTexts(q.high) && DistinctTexts(q.low) && ApartTexts(q.high, q.low)
  }

  lemma EnqueueKeepsDistinct(q: Schedule<Input>, x: Input)
    requires NoDuplicates(q) && !HasText(q.high, x.text) && !HasText(q.low, x.text)
    ensures NoDuplicates(After(q, EnqueueHigh(x))) && NoDuplicates(After(q, EnqueueLow(x)))
  {
    forall i | 0 <= i < |q.high| ensures !HasText(q.low + [x], q.high[i].text) {
      assert !HasText(q.low, q.high[i].text);
    }
  }

  lemma RotateKeepsDistinct(s: seq<Input>)
    requires s != [] && DistinctTexts(s)
    ensures DistinctTexts(Rotate(s))
  {
    forall i, j | 0 <= i < j < |s| ensures Rotate(s)[i].text != Rotate(s)[j].text {
      if j == |s| - 1 {
        assert s[0].text != s[i + 1].text;
      }
    }
  }

  lemma RotateKeepsTexts(s: seq<Input>, text: cstring)
    requires s != [] && !HasText(s, text)
    ensures !HasText(Rotate(s), text)
  {
    forall i | 0 <= i < |s| ensures Rotate(s)[i].text != text {
      assert Rotate(s)[i] == s[if i == |s| - 1 then 0 else i + 1];
    }
  }

  lemma DequeueKeepsDistinct(q: Schedule<Input>)
    requires NoDuplicates(q) && !q.Empty()
    ensures NoDuplicates(q.Dequeued())
  {
    if q.TakesHigh() {
      RotateKeepsDistinct(q.high);
      forall i | 0 <= i < |q.high| ensures !HasText(q.low, Rotate(q.high)[i].text) {
        assert Rotate(q.high)[i] == q.high[if i == |q.high| - 1 then 0 else i + 1];
      }
    } else {
      RotateKeepsDistinct(q.low);
      forall i | 0 <= i < |q.high| ensures !HasText(Rotate(q.low), q.high[i].text) {
        RotateKeepsTexts(q.low, q.high[i].text);
      }
    }
  }

  class InputQueue {
    const high: List
    const low: List
    var cycle: nat

    ghost predicate Valid()
      reads this, high, low, high.Repr, low.Repr
    {
      && this !in high.Repr && this !in low.Repr && high.Repr !! low.Repr
      && high.Valid() && low.Valid()
      && cycle < 10
      && NoDuplicates(View())
    }

    // The two lists and the cycle index, as the schedule sees them.
    ghost function View(): Schedule<Input>
      reads this, high, low
    {
      Schedule(high.contents, low.contents, cycle)
    }

    constructor ()
      ensures Valid() && View() == Schedule([], [], 0) && fresh(high.Repr) && fresh(low.Repr)
    {
      high := new List();
      low := new List();
      cycle := 0;
    }

    method IsDuplicate(text: cstring) returns (duplicate: bool)
      requires Valid()
      ensures duplicate <==> HasText(View().high, text) || HasText(View().low, text)
    {
      duplicate := high.Contains(text);
      if !duplicate {
        duplicate := low.Contains(text);
      }
    }

    // Returns whether the input was refused; the source frees it in that case.
    method EnqueueHigh(input: Input) returns (refused: bool)
      requires Valid()
      modifies this, high.Repr, low.Repr
      ensures Valid() && fresh(high.Repr - old(high.Repr)) && fresh(low.Repr - old(low.Repr))
      ensures refused <==> HasText(old(View().high), input.text) || HasText(old(View().low), input.text)
      ensures View() == if refused then old(View()) else old(View()).(high := old(View()).high + [input])
    {
      ghost var q := View();
      refused := IsDuplicate(input.text);
      if !refused {
        high.Enqueue(input);
        assert low.contents == q.low;
        EnqueueKeepsDistinct(q, input);
      }
    }

    method EnqueueLow(input: Input) returns (refused: bool)
      requires Valid()
      modifies this, high.Repr, low.Repr
      ensures Valid() && fresh(high.Repr - old(high.Repr)) && fresh(low.Repr - old(low.Repr))
      ensures refused <==> HasText(old(View().high), input.text) || HasText(old(View().low), input.text)
      ensures View() == if refused then old(View()) else old(View()).(low := old(View()).low + [input])
    {
      ghost var q := View();
      refused := IsDuplicate(input.text);
      if !refused {
        low.Enqueue(input);
        assert high.contents == q.high;
        EnqueueKeepsDistinct(q, input);
      }
    }

    // Null when both lists are empty.
    method Dequeue() returns (input: Input?)
      requires Valid()
      modifies this, high.Repr, low.Repr
      ensures Valid() && high.Repr == old(high.Repr) && low.Repr == old(low.Repr)
      ensures View() == After(old(View()), Op.Dequeue)
      ensures input == if old(View().Empty()) then null else old(View()).Front()
      // Nine turns go to the high list and the tenth to the low one, unless it is empty.
      ensures var q := old(View()); var h, l := q.high, q.low;
              if h == [] && l == [] then input == null && View() == q
              else if h != [] && (q.cycle < 9 || l == []) then
                input == h[0] && View() == Schedule(h[1..] + [h[0]], l, (q.cycle + 1) % 10)
              else input == l[0] && View() == Schedule(h, l[1..] + [l[0]], (q.cycle + 1) % 10)
    {
      if high.len == 0 && low.len == 0 {
        return null;
      }
      DequeueKeepsDistinct(View());
      if if cycle < 9 then high.len != 0 else low.len == 0 {
        input := DequeueHigh();
      } else {
        input := DequeueLow();
      }
    }

    method DequeueHigh() returns (input: Input)
      requires Valid() && !View().Empty() && View().TakesHigh() && NoDuplicates(View().Dequeued())
      modifies this, high.Repr
      ensures Valid() && high.Repr == old(high.Repr) && low.Repr == old(low.Repr)
      ensures View() == old(View()).Dequeued() && input == old(View()).Front()
    {
      cycle := (cycle + 1) % 10;
      input := high.TakeAndRotate();
      assert low.Valid();
    }

    method DequeueLow() returns (input: Input)
      requires Valid() && !View().Empty() && !View().TakesHigh() && NoDuplicates(View().Dequeued())
      modifies this, low.Repr
      ensures Valid() && high.Repr == old(high.Repr) && low.Repr == old(low.Repr)
      ensures View() == old(View()).Dequeued() && input == old(View()).Front()
    {
      cycle := (cycle + 1) % 10;
      input := low.TakeAndRotate();
      assert high.Valid();
    }
  }
}
