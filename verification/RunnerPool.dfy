// The four arrays of struct runners, shifted and filtered in place, against the list
// functions of RunnerLists.
module RunnerPool {
  import opened Prelude
  import opened RunnerLists

  // ---------- Facts about removing one runner ----------

  lemma {:induction false} WithoutAt(front: seq<Rid>, victim: Rid, back: seq<Rid>)
    requires victim !in front
    ensures Without(front + [victim] + back, victim) == front + back
  {
    if front != [] {
      assert (front + [victim] + back)[1..] == front[1..] + [victim] + back;
      WithoutAt(front[1..], victim, back);
      assert front + back == [front[0]] + (front[1..] + back);
    } else {
      assert front + [victim] + back == [victim] + back;
      assert front + back == back;
    }
  }

  lemma {:induction false} WithoutAbsent(s: seq<Rid>, victim: Rid)
    requires victim !in s
    ensures Without(s, victim) == s
  {
    if s != [] {
      WithoutAbsent(s[1..], victim);
    }
  }

  lemma {:induction false} WithoutShorter(s: seq<Rid>, victim: Rid)
    ensures |Without(s, victim)| <= |s|
  {
    if s != [] {
      WithoutShorter(s[1..], victim);
    }
  }

  lemma {:induction false} ExceptSame(s: seq<Rid>, k: nat, a: set<Rid>, b: set<Rid>)
    requires k <= |s| && forall i | 0 <= i < k :: s[i] in a <==> s[i] in b
    ensures ExceptFirst(s, k, a) == ExceptFirst(s, k, b)
  {
    if k > 0 {
      ExceptSame(s, k - 1, a, b);
    }
  }

  lemma {:induction false} ExceptNothing(s: seq<Rid>, k: nat)
    requires k <= |s|
    ensures ExceptFirst(s, k, {}) == s[..k]
  {
    if k > 0 {
      ExceptNothing(s, k - 1);
    }
  }

  // Dropping a set and then one more is dropping the larger set.
  lemma {:induction false} WithoutExcept(s: seq<Rid>, k: nat, drop: set<Rid>, victim: Rid)
    requires k <= |s| && Distinct(s)
    ensures Without(ExceptFirst(s, k, drop), victim) == ExceptFirst(s, k, drop + {victim})
  {
    if k > 0 {
      var last := s[k - 1];
      if last in drop {
        WithoutExcept(s, k - 1, drop, victim);
      } else if last != victim {
        WithoutExcept(s, k - 1, drop, victim);
        WithoutSnoc(ExceptFirst(s, k - 1, drop), victim, last);
      } else {
        FirstMembers(s, k - 1, drop);
        WithoutAt(ExceptFirst(s, k - 1, drop), victim, []);
        assert ExceptFirst(s, k, drop) == ExceptFirst(s, k - 1, drop) + [victim] + [];
        ExceptSame(s, k - 1, drop, drop + {victim});
      }
    }
  }

  lemma {:induction false} WithoutSnoc(s: seq<Rid>, victim: Rid, last: Rid)
    requires last != victim
    ensures Without(s + [last], victim) == Without(s, victim) + [last]
  {
    if s != [] {
      assert (s + [last])[1..] == s[1..] + [last];
      if s[0] != victim {
        WithoutSnoc(s[1..], victim, last);
      }
    } else {
      assert s + [last] == [last];
    }
  }

  lemma WithoutCut(s: seq<Rid>, victim: Rid, i: nat)
    requires i < |s| && s[i] == victim && victim !in s[..i]
    ensures Without(s, victim) == s[..i] + s[i + 1..]
  {
    assert s == s[..i] + [victim] + s[i + 1..];
    WithoutAt(s[..i], victim, s[i + 1..]);
  }

  // ---------- Filtering in place, one member at a time ----------

  // The list after k turns of a filter loop: each turn keeps or removes the next member.
  function Partly(s: seq<Rid>, k: nat, drop: set<Rid>): seq<Rid>
    requires k <= |s|
  {
    if k == 0 then s
    else if s[k - 1] in drop then Without(Partly(s, k - 1, drop), s[k - 1])
    else Partly(s, k - 1, drop)
  }

  lemma NotBefore(s: seq<Rid>, k: nat, drop: set<Rid>)
    requires 0 < k <= |s| && Distinct(s)
    ensures s[k - 1] !in ExceptFirst(s, k - 1, drop)
  {
    FirstMembers(s, k - 1, drop);
  }

  lemma {:induction false} PartlyIs(s: seq<Rid>, k: nat, drop: set<Rid>)
    requires k <= |s| && Distinct(s)
    ensures Partly(s, k, drop) == ExceptFirst(s, k, drop) + s[k..]
  {
    if k > 0 {
      var e, x := ExceptFirst(s, k - 1, drop), s[k - 1];
      PartlyIs(s, k - 1, drop);
      assert s[k - 1..] == [x] + s[k..];
      if x in drop {
        NotBefore(s, k, drop);
        assert e + s[k - 1..] == e + [x] + s[k..];
        WithoutAt(e, x, s[k..]);
      } else {
        assert e + s[k - 1..] == (e + [x]) + s[k..];
      }
    }
  }

  // Those of the first k members that have exited; and whether none of the others failed.
  function Gone(s: seq<Rid>, k: nat, exited: set<Rid>): set<Rid>
    requires k <= |s|
  {
    if k == 0 then {} else if s[k - 1] in exited then Gone(s, k - 1, exited) + {s[k - 1]} else Gone(s, k - 1, exited)
  }

  predicate NoneFailed(s: seq<Rid>, k: nat, exited: set<Rid>, failed: set<Rid>)
    requires k <= |s|
  {
    k == 0 || (NoneFailed(s, k - 1, exited, failed) && (s[k - 1] in failed ==> s[k - 1] in exited))
  }

  lemma GoneStep(s: seq<Rid>, k: nat, exited: set<Rid>, r: Rid)
    requires k < |s| && r == s[k]
    ensures Gone(s, k + 1, exited) == if r in exited then Gone(s, k, exited) + {r} else Gone(s, k, exited)
  {
  }

  lemma {:induction false} GoneIs(s: seq<Rid>, k: nat, exited: set<Rid>, failed: set<Rid>)
    requires k <= |s|
    ensures forall x :: x in Gone(s, k, exited) <==> x in s[..k] && x in exited
    ensures NoneFailed(s, k, exited, failed) <==> forall r | r in s[..k] && r in failed :: r in exited
  {
    if k > 0 {
      GoneIs(s, k - 1, exited, failed);
      assert s[..k] == s[..k - 1] + [s[k - 1]];
    }
  }

  // Where a filter loop stands after k turns, i of them having kept their member.
  predicate AtTurn(s: seq<Rid>, k: nat, drop: set<Rid>, cur: seq<Rid>, i: nat) {
    k <= |s| && cur == Partly(s, k, drop) && i == |ExceptFirst(s, k, drop)|
  }

  lemma TurnMember(s: seq<Rid>, k: nat, drop: set<Rid>, cur: seq<Rid>, i: nat)
    requires Distinct(s) && AtTurn(s, k, drop, cur, i)
    ensures i < |cur| ==> k < |s| && cur[i] == s[k]
    ensures i >= |cur| ==> k == |s| && cur == Except(s, drop)
  {
    PartlyIs(s, k, drop);
    assert s[|s|..] == [];
  }

  lemma NextTurn(s: seq<Rid>, k: nat, drop: set<Rid>, cur: seq<Rid>, i: nat, cur': seq<Rid>, i': nat)
    requires AtTurn(s, k, drop, cur, i) && k < |s|
    requires s[k] in drop ==> cur' == Without(cur, s[k]) && i' == i
    requires s[k] !in drop ==> cur' == cur && i' == i + 1
    ensures AtTurn(s, k + 1, drop, cur', i')
  {
  }

  // ---------- helpr_remove_runner ----------

  // The inner loop: everything after position i moves down by one.
  method ShiftDown(arr: array<Rid>, count: nat, i: nat)
    requires i < count <= arr.Length
    modifies arr
    ensures arr[..count - 1] == old(arr[..i]) + old(arr[i + 1..count])
  {
    ghost var s := arr[..count];
    for j := i + 1 to count
      invariant forall k | 0 <= k < i :: arr[k] == s[k]
      invariant forall k | i <= k < j - 1 :: arr[k] == s[k + 1]
      invariant forall k | j <= k < count :: arr[k] == s[k]
    {
      arr[j - 1] := arr[j];
    }
    assert arr[..count - 1] == s[..i] + s[i + 1..];
  }

  method RemoveRunner(arr: array<Rid>, count: nat, victim: Rid) returns (count': nat)
    requires count <= arr.Length
    modifies arr
    ensures count' <= count
    ensures arr[..count'] == Without(old(arr[..count]), victim)
    ensures victim !in old(arr[..count]) ==> count' == count && arr[..count] == old(arr[..count])
    ensures forall i | 0 <= i < count && old(arr[i]) == victim && victim !in old(arr[..i]) ::
              count' == count - 1 && arr[..count'] == old(arr[..i]) + old(arr[i + 1..count])
  {
    ghost var s := arr[..count];
    for i := 0 to count
      invariant arr[..count] == s
      invariant victim !in s[..i]
    {
      if arr[i] == victim {
        WithoutCut(s, victim, i);
        assert s[..i] == arr[..i] && s[i + 1..] == arr[i + 1..count];
        ShiftDown(arr, count, i);
        return count - 1;
      }
    }
    WithoutAbsent(s, victim);
    count' := count;
  }

  lemma OnlyNext(s: seq<Rid>, k: nat, keep: set<Rid>, d: seq<Rid>)
    requires k < |s|
    ensures d + OnlyFirst(s, k + 1, keep) ==
            if s[k] in keep then d + OnlyFirst(s, k, keep) + [s[k]] else d + OnlyFirst(s, k, keep)
  {
  }

  // One turn of it: a readable runner changes arrays.
  method MoveOne(arr: array<Rid>, count: nat, dst: array<Rid>, dstCount: nat, runner: Rid) returns (count': nat)
    requires arr != dst && count <= arr.Length && dstCount < dst.Length
    modifies arr, dst
    ensures count' <= count && arr[..count'] == Without(old(arr[..count]), runner)
    ensures dst[..dstCount + 1] == old(dst[..dstCount]) + [runner]
  {
    count' := RemoveRunner(arr, count, runner);
    dst[dstCount] := runner;
  }

  // What has been moved after k turns.
  predicate MovedAtTurn(s: seq<Rid>, k: nat, readable: set<Rid>, d: seq<Rid>, moved: seq<Rid>) {
    k <= |s| && moved == d + OnlyFirst(s, k, readable)
  }

  method MoveTurn(arr: array<Rid>, count: nat, i: nat, dst: array<Rid>, dstCount: nat, readable: set<Rid>,
                  ghost s: seq<Rid>, ghost d: seq<Rid>, ghost k: nat)
    returns (count': nat, i': nat, dstCount': nat)
    requires arr != dst && i < count <= arr.Length && dstCount < dst.Length
    requires Distinct(s) && AtTurn(s, k, readable, arr[..count], i) && MovedAtTurn(s, k, readable, d, dst[..dstCount])
    modifies arr, dst
    ensures count' <= count && dstCount' <= dstCount + 1
    ensures k < |s| && AtTurn(s, k + 1, readable, arr[..count'], i')
    ensures MovedAtTurn(s, k + 1, readable, d, dst[..dstCount'])
  {
    var runner := arr[i];
    ghost var cur := arr[..count];
    TurnMember(s, k, readable, cur, i);
    OnlyNext(s, k, readable, d);
    count', i', dstCount' := count, i, dstCount;
    if runner in readable {
      count' := MoveOne(arr, count, dst, dstCount, runner);
      dstCount' := dstCount + 1;
    } else {
      i' := i + 1;
    }
    NextTurn(s, k, readable, cur, i, arr[..count'], i');
  }

  // The loop of runners_check_if_jobs_done: readable members of one array leave it for the
  // end of the other.
  method MoveReadable(arr: array<Rid>, count: nat, dst: array<Rid>, dstCount: nat, readable: set<Rid>)
    returns (count': nat, dstCount': nat)
    requires arr != dst && count <= arr.Length && dstCount + count <= dst.Length
    requires Distinct(arr[..count])
    modifies arr, dst
    ensures count' <= count && dstCount' <= dstCount + count
    ensures arr[..count'] == Except(old(arr[..count]), readable)
    ensures dst[..dstCount'] == old(dst[..dstCount]) + Only(old(arr[..count]), readable)
  {
    ghost var s, d, k := arr[..count], dst[..dstCount], 0;
    count', dstCount' := count, dstCount;
    var i: nat := 0;
    while i < count'
      invariant count' <= count && AtTurn(s, k, readable, arr[..count'], i)
      invariant dstCount' <= dstCount + k && MovedAtTurn(s, k, readable, d, dst[..dstCount'])
      decreases |s| - k
    {
      TurnMember(s, k, readable, arr[..count'], i);
      count', i, dstCount' := MoveTurn(arr, count', i, dst, dstCount', readable, s, d, k);
      k := k + 1;
    }
    TurnMember(s, k, readable, arr[..count'], i);
  }

  predicate Ascending(s: seq<Rid>) {
    forall i, j | 0 <= i < j < |s| :: s[i] < s[j]
  }

  lemma AppendAscending(s: seq<Rid>, x: Rid)
    requires Ascending(s) && forall y | y in s :: y < x
    ensures Ascending(s + [x])
  {
    forall i | 0 <= i < |s| ensures s[i] < x {
      assert s[i] in s;
    }
  }

  // ---------- struct runners ----------

  class RunnerPool {
    const totalJobs: nat
    const pool: array<Rid>
    const ready: array<Rid>
    const active: array<Rid>
    const done: array<Rid>
    var poolCount: nat
    var readyCount: nat
    var activeCount: nat
    var doneCount: nat

    ghost predicate Fits()
      reads this
    {
      && pool.Length == ready.Length == active.Length == done.Length == totalJobs
      && pool != ready && pool != active && pool != done
      && ready != active && ready != done && active != done
      && poolCount <= totalJobs && readyCount <= totalJobs
      && activeCount <= totalJobs && doneCount <= totalJobs
    }

    ghost function View(): Lists
      requires Fits()
      reads this, pool, ready, active, done
    {
      Lists(pool[..poolCount], ready[..readyCount], active[..activeCount], done[..doneCount])
    }

    ghost predicate Valid()
      reads this, pool, ready, active, done
    {
      Fits() && View().Valid()
    }

    // runners_init: started says which runners came up; ids are handed out either way.
    constructor (jobCount: nat, firstId: Rid, started: seq<bool>)
      requires |started| == jobCount
      ensures Valid() && totalJobs == jobCount
      ensures fresh(pool) && fresh(ready) && fresh(active) && fresh(done)
      ensures View().active == [] && View().done == [] && View().ready == View().pool
      ensures forall id :: id in View().pool <==> firstId <= id < firstId + jobCount && started[id - firstId]
      ensures Ascending(View().pool)
    {
      totalJobs := jobCount;
      pool := new Rid[jobCount];
      ready := new Rid[jobCount];
      active := new Rid[jobCount];
      done := new Rid[jobCount];
      poolCount, readyCount, activeCount, doneCount := 0, 0, 0, 0;
      new;
      for i := 0 to jobCount
        invariant Fits() && fresh(pool) && fresh(ready) && fresh(active) && fresh(done)
        invariant poolCount == readyCount <= i && activeCount == doneCount == 0
        invariant pool[..poolCount] == ready[..poolCount]
        invariant Ascending(pool[..poolCount])
        invariant forall id :: id in pool[..poolCount] <==> firstId <= id < firstId + i && started[id - firstId]
      {
        if started[i] {
          ghost var before := pool[..poolCount];
          AppendAscending(before, firstId + i);
          pool[poolCount] := firstId + i;
          poolCount := poolCount + 1;
          ready[readyCount] := firstId + i;
          readyCount := readyCount + 1;
          assert pool[..poolCount] == before + [firstId + i];
          assert ready[..poolCount] == before + [firstId + i];
        }
      }
    }

    // sent says whether the send to the chosen runner succeeds.
    method SubmitInput(sent: bool) returns (ok: bool, chosen: Rid)
      requires Valid()
      modifies this, ready, active
      ensures Valid()
      ensures old(View()).ready == [] ==> !ok && View() == old(View())
      ensures old(View()).ready != [] ==> ok == sent && chosen == old(View()).ready[0]
      ensures old(View()).ready != [] ==>
                var l := old(View());
                && View() == Lists(l.pool, l.ready[1..], l.active + (if sent then [chosen] else []), l.done)
                && View() == l.Submitted(sent)
    {
      ok, chosen := false, 0;
      if readyCount == 0 {
        return;
      }
      ghost var l := View();
      SubmittedValid(l, sent);
      ListsFit(l);
      chosen := ready[0];
      readyCount := RemoveRunner(ready, readyCount, chosen);
      if sent {
        active[activeCount] := chosen;
        activeCount := activeCount + 1;
        assert active[..activeCount] == l.active + [chosen];
      }
      ok := sent;
      assert View() == l.Submitted(sent);
    }

    // readable is what select reports of the result pipes.
    method CheckIfJobsDone(readable: set<Rid>)
      requires Valid()
      modifies this`activeCount, this`doneCount, active, done
      ensures Valid() && View() == old(View()).Checked(readable)
      ensures var l := old(View());
              View() == Lists(l.pool, l.ready, Except(l.active, readable), l.done + Only(l.active, readable))
    {
      ghost var l := View();
      ListsFit(l);
      CheckedValid(l, readable);
      activeCount, doneCount := MoveReadable(active, activeCount, done, doneCount, readable);
      assert View() == l.Checked(readable);
    }

    method ProcessResult() returns (found: bool, runner: Rid)
      requires Valid()
      modifies this, done, ready
      ensures Valid()
      ensures old(View()).done == [] ==> !found && View() == old(View())
      ensures old(View()).done != [] ==>
                var l := old(View());
                && found && runner == l.done[0]
                && View() == Lists(l.pool, l.ready + [runner], l.active, l.done[1..])
                && View() == l.Processed()
    {
      found, runner := false, 0;
      if doneCount == 0 {
        return;
      }
      ghost var l := View();
      ProcessedValid(l);
      ListsFit(l);
      runner := done[0];
      doneCount := RemoveRunner(done, doneCount, runner);
      ready[readyCount] := runner;
      readyCount := readyCount + 1;
      assert ready[..readyCount] == l.ready + [runner];
      found := true;
      assert View() == l.Processed();
    }

    method RemoveEverywhere(r: Rid)
      requires Fits()
      modifies this, pool, ready, active, done
      ensures Fits()
      ensures pool[..poolCount] == Without(old(pool[..poolCount]), r)
      ensures ready[..readyCount] == Without(old(ready[..readyCount]), r)
      ensures active[..activeCount] == Without(old(active[..activeCount]), r)
      ensures done[..doneCount] == Without(old(done[..doneCount]), r)
    {
      readyCount := RemoveRunner(ready, readyCount, r);
      activeCount := RemoveRunner(active, activeCount, r);
      doneCount := RemoveRunner(done, doneCount, r);
      poolCount := RemoveRunner(pool, poolCount, r);
    }

    // exited and failed are the answers of waitpid: the runner is gone, or the call failed.
    method Reap(exited: set<Rid>, failed: set<Rid>) returns (ok: bool)
      requires Valid()
      modifies this, pool, ready, active, done
      ensures Valid() && View() == old(View()).Reaped(exited)
      ensures var l := old(View());
              View() == Lists(Except(l.pool, exited), Except(l.ready, exited), Except(l.active, exited), Except(l.done, exited))
      ensures ok <==> forall r | r in old(View()).pool && r in failed :: r in exited
    {
      ghost var l := View();
      ReapedValid(l, exited);
      ghost var gone := Gone(l.pool, |l.pool|, exited);
      ok := ReapLoop(l, exited, failed);
      GoneIs(l.pool, |l.pool|, exited, failed);
      assert l.pool[..|l.pool|] == l.pool;
      ExceptSame(l.ready, |l.ready|, gone, exited);
      ExceptSame(l.active, |l.active|, gone, exited);
      ExceptSame(l.done, |l.done|, gone, exited);
      assert View() == l.Reaped(exited);
    }

    // One turn: an exited runner leaves every list, any other is passed over.
    method ReapTurn(i: nat, exited: set<Rid>, failed: set<Rid>) returns (i': nat, found: bool)
      requires Fits() && i < poolCount
      modifies this, pool, ready, active, done
      ensures Fits()
      ensures var r := old(pool[i]);
              if r in exited then
                && i' == i && found
                && pool[..poolCount] == Without(old(pool[..poolCount]), r)
                && ready[..readyCount] == Without(old(ready[..readyCount]), r)
                && active[..activeCount] == Without(old(active[..activeCount]), r)
                && done[..doneCount] == Without(old(done[..doneCount]), r)
              else
                i' == i + 1 && found == (r !in failed) && View() == old(View())
    {
      var r := pool[i];
      i', found := i, true;
      if r in exited {
        RemoveEverywhere(r);
      } else if r in failed {
        found := false;
        i' := i + 1;
      } else {
        i' := i + 1;
      }
    }

    // Where the loop stands after k turns.
    ghost predicate Reaping(l: Lists, k: nat, i: nat, exited: set<Rid>)
      reads this, pool, ready, active, done
    {
      && Fits()
      && AtTurn(l.pool, k, exited, pool[..poolCount], i)
      && ready[..readyCount] == Except(l.ready, Gone(l.pool, k, exited))
      && active[..activeCount] == Except(l.active, Gone(l.pool, k, exited))
      && done[..doneCount] == Except(l.done, Gone(l.pool, k, exited))
    }

    method ReapNext(ghost l: Lists, ghost k: nat, i: nat, exited: set<Rid>, failed: set<Rid>) returns (i': nat, found: bool)
      requires Distinct(l.pool) && Distinct(l.ready) && Distinct(l.active) && Distinct(l.done)
      requires Reaping(l, k, i, exited) && i < poolCount
      modifies this, pool, ready, active, done
      ensures k < |l.pool| && Reaping(l, k + 1, i', exited)
      ensures found <==> (l.pool[k] in failed ==> l.pool[k] in exited)
    {
      ghost var r, cur, gone := pool[i], pool[..poolCount], Gone(l.pool, k, exited);
      TurnMember(l.pool, k, exited, cur, i);
      GoneStep(l.pool, k, exited, r);
      WithoutExcept(l.ready, |l.ready|, gone, r);
      WithoutExcept(l.active, |l.active|, gone, r);
      WithoutExcept(l.done, |l.done|, gone, r);
      i', found := ReapTurn(i, exited, failed);
      NextTurn(l.pool, k, exited, cur, i, pool[..poolCount], i');
    }

    method ReapLoop(ghost l: Lists, exited: set<Rid>, failed: set<Rid>) returns (ok: bool)
      requires Fits() && View() == l
      requires Distinct(l.pool) && Distinct(l.ready) && Distinct(l.active) && Distinct(l.done)
      modifies this, pool, ready, active, done
      ensures Fits() && pool[..poolCount] == Except(l.pool, exited)
      ensures var gone := Gone(l.pool, |l.pool|, exited);
              View().ready == Except(l.ready, gone) && View().active == Except(l.active, gone)
              && View().done == Except(l.done, gone)
      ensures ok <==> NoneFailed(l.pool, |l.pool|, exited, failed)
    {
      ghost var k := 0;
      ExceptNothing(l.ready, |l.ready|);
      ExceptNothing(l.active, |l.active|);
      ExceptNothing(l.done, |l.done|);
      ok := true;
      var i: nat := 0;
      while i < poolCount
        invariant Reaping(l, k, i, exited)
        invariant ok <==> NoneFailed(l.pool, k, exited, failed)
        decreases |l.pool| - k
      {
        var found;
        i, found := ReapNext(l, k, i, exited, failed);
        ok := ok && found;
        k := k + 1;
      }
      TurnMember(l.pool, k, exited, pool[..poolCount], i);
    }
  }
}
