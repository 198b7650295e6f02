// The four lists of struct runners as values, and what each operation of runner.c does to
// them. The pool class refines these functions; the dispatch protocol steps through them.
module RunnerLists {
  import opened Prelude

  // A runner, by the id that runner_init gives it.
  type Rid = nat

  // helpr_remove_runner: the first occurrence goes, the rest moves up.
  function Without(s: seq<Rid>, victim: Rid): seq<Rid> {
    if s == [] then [] else if s[0] == victim then s[1..] else [s[0]] + Without(s[1..], victim)
  }

  // The members of s in, respectively outside, a set, in order; and the same for the
  // first k members.
  function Only(s: seq<Rid>, keep: set<Rid>): seq<Rid> {
    OnlyFirst(s, |s|, keep)
  }

  function Except(s: seq<Rid>, drop: set<Rid>): seq<Rid> {
    ExceptFirst(s, |s|, drop)
  }

  function OnlyFirst(s: seq<Rid>, k: nat, keep: set<Rid>): seq<Rid>
    requires k <= |s|
  {
    if k == 0 then [] else if s[k - 1] in keep then OnlyFirst(s, k - 1, keep) + [s[k - 1]] else OnlyFirst(s, k - 1, keep)
  }

  function ExceptFirst(s: seq<Rid>, k: nat, drop: set<Rid>): seq<Rid>
    requires k <= |s|
  {
    if k == 0 then [] else if s[k - 1] in drop then ExceptFirst(s, k - 1, drop) else ExceptFirst(s, k - 1, drop) + [s[k - 1]]
  }

  predicate Apart(s: seq<Rid>, t: seq<Rid>) {
    forall x | x in s :: x !in t
  }

  predicate Inside(s: seq<Rid>, t: seq<Rid>) {
    forall x | x in s :: x in t
  }

  datatype Lists = Lists(pool: seq<Rid>, ready: seq<Rid>, active: seq<Rid>, done: seq<Rid>) {

    // Ready, active and done share nothing, repeat nothing, and stay within the pool.
    predicate Valid() {
      && Distinct(pool) && Distinct(ready) && Distinct(active) && Distinct(done)
      && Apart(ready, active) && Apart(ready, done) && Apart(active, done)
      && Inside(ready, pool) && Inside(active, pool) && Inside(done, pool)
    }

    // ... and leave none of it out.
    predicate Covers() {
      forall x | x in pool :: x in ready || x in active || x in done
    }

    // runners_submit_input: the first ready runner leaves the ready list whether or not
    // the send goes through.
    function Submitted(ok: bool): Lists
      requires ready != []
    {
      Lists(pool, ready[1..], if ok then active + [ready[0]] else active, done)
    }

    // runners_check_if_jobs_done
    function Checked(readable: set<Rid>): Lists {
      Lists(pool, ready, Except(active, readable), done + Only(active, readable))
    }

    // runners_process_result
    function Processed(): Lists
      requires done != []
    {
      Lists(pool, ready + [done[0]], active, done[1..])
    }

    // runners_reap
    function Reaped(exited: set<Rid>): Lists {
      Lists(Except(pool, exited), Except(ready, exited), Except(active, exited), Except(done, exited))
    }
  }

  // ---------- Filters ----------

  lemma {:induction false} FirstMembers(s: seq<Rid>, k: nat, chosen: set<Rid>)
    requires k <= |s|
    ensures forall x :: x in OnlyFirst(s, k, chosen) <==> x in s[..k] && x in chosen
    ensures forall x :: x in ExceptFirst(s, k, chosen) <==> x in s[..k] && x !in chosen
  {
    if k > 0 {
      FirstMembers(s, k - 1, chosen);
      assert s[..k] == s[..k - 1] + [s[k - 1]];
    }
  }

  lemma OnlyMembers(s: seq<Rid>, keep: set<Rid>)
    ensures forall x :: x in Only(s, keep) <==> x in s && x in keep
  {
    FirstMembers(s, |s|, keep);
  }

  lemma ExceptMembers(s: seq<Rid>, drop: set<Rid>)
    ensures forall x :: x in Except(s, drop) <==> x in s && x !in drop
  {
    FirstMembers(s, |s|, drop);
  }

  lemma {:induction false} FirstDistinct(s: seq<Rid>, k: nat, chosen: set<Rid>)
    requires k <= |s| && Distinct(s)
    ensures Distinct(OnlyFirst(s, k, chosen)) && Distinct(ExceptFirst(s, k, chosen))
  {
    if k > 0 {
      FirstDistinct(s, k - 1, chosen);
      FirstMembers(s, k - 1, chosen);
    }
  }

  // The check step splits the active list: nothing lost, nothing made up.
  lemma {:induction false} FiltersSplit(s: seq<Rid>, k: nat, chosen: set<Rid>)
    requires k <= |s|
    ensures multiset(OnlyFirst(s, k, chosen)) + multiset(ExceptFirst(s, k, chosen)) == multiset(s[..k])
    ensures |OnlyFirst(s, k, chosen)| + |ExceptFirst(s, k, chosen)| == k
  {
    if k > 0 {
      FiltersSplit(s, k - 1, chosen);
      assert s[..k] == s[..k - 1] + [s[k - 1]];
      SplitOneMore(OnlyFirst(s, k - 1, chosen), ExceptFirst(s, k - 1, chosen), s[..k - 1], s[k - 1]);
    }
  }

  lemma SplitOneMore(a: seq<Rid>, b: seq<Rid>, s: seq<Rid>, x: Rid)
    requires multiset(a) + multiset(b) == multiset(s)
    ensures multiset(a + [x]) + multiset(b) == multiset(s + [x])
    ensures multiset(a) + multiset(b + [x]) == multiset(s + [x])
  {
    assert multiset(a + [x]) == multiset(a) + multiset{x};
    assert multiset(b + [x]) == multiset(b) + multiset{x};
    assert multiset(s + [x]) == multiset(s) + multiset{x};
  }

  // Whatever order two members had, they keep.
  predicate Before(s: seq<Rid>, x: Rid, y: Rid) {
    exists i, j :: 0 <= i < j < |s| && s[i] == x && s[j] == y
  }

  lemma {:induction false} FiltersKeepOrder(s: seq<Rid>, k: nat, chosen: set<Rid>, x: Rid, y: Rid)
    requires k <= |s|
    ensures Before(OnlyFirst(s, k, chosen), x, y) ==> Before(s, x, y)
    ensures Before(ExceptFirst(s, k, chosen), x, y) ==> Before(s, x, y)
  {
    if k > 0 {
      FiltersKeepOrder(s, k - 1, chosen, x, y);
      FirstMembers(s, k - 1, chosen);
      if Before(OnlyFirst(s, k, chosen), x, y) {
        SnocKeepsOrder(s, k, OnlyFirst(s, k - 1, chosen), OnlyFirst(s, k, chosen), x, y);
      }
      if Before(ExceptFirst(s, k, chosen), x, y) {
        SnocKeepsOrder(s, k, ExceptFirst(s, k - 1, chosen), ExceptFirst(s, k, chosen), x, y);
      }
    }
  }

  lemma SnocKeepsOrder(s: seq<Rid>, k: nat, t: seq<Rid>, u: seq<Rid>, x: Rid, y: Rid)
    requires 0 < k <= |s| && (u == t || u == t + [s[k - 1]])
    requires forall z | z in t :: z in s[..k - 1]
    requires Before(u, x, y)
    ensures Before(t, x, y) || Before(s, x, y)
  {
    var i, j :| 0 <= i < j < |u| && u[i] == x && u[j] == y;
    if j < |t| {
      assert t[i] == x && t[j] == y;
    } else {
      assert u == t + [s[k - 1]] && j == |t|;
      assert t[i] in t;
      var h :| 0 <= h < k - 1 && s[h] == x;
      assert s[k - 1] == y;
    }
  }

  // ---------- The partition ----------

  lemma AppendDistinct(s: seq<Rid>, t: seq<Rid>)
    requires Distinct(s) && Distinct(t) && Apart(s, t)
    ensures Distinct(s + t)
  {
    forall i, j | 0 <= i < j < |s + t| ensures (s + t)[i] != (s + t)[j] {
      if i < |s| <= j {
        assert s[i] in s;
      }
    }
  }

  lemma HeadAndTail(s: seq<Rid>)
    requires s != [] && Distinct(s)
    ensures Distinct(s[1..]) && s[0] !in s[1..]
    ensures forall x :: x in s <==> x == s[0] || x in s[1..]
  {
    assert s == [s[0]] + s[1..];
    forall i, j | 0 <= i < j < |s[1..]| ensures s[1..][i] != s[1..][j] {
      assert s[i + 1] != s[j + 1];
    }
  }

  lemma SubmittedValid(l: Lists, ok: bool)
    requires l.Valid() && l.ready != []
    ensures l.Submitted(ok).Valid()
    ensures l.Covers() && ok ==> l.Submitted(ok).Covers()
    ensures l.ready[0] !in l.Submitted(ok).ready && (!ok ==> l.ready[0] !in l.Submitted(ok).active)
  {
    var r, x := l.Submitted(ok), l.ready[0];
    HeadAndTail(l.ready);
    assert Apart(l.active, [x]) && Apart(l.done, [x]);
    AppendDistinct(l.active, [x]);
  }

  lemma CheckedValid(l: Lists, readable: set<Rid>)
    requires l.Valid()
    ensures l.Checked(readable).Valid()
    ensures l.Covers() ==> l.Checked(readable).Covers()
  {
    OnlyMembers(l.active, readable);
    ExceptMembers(l.active, readable);
    FirstDistinct(l.active, |l.active|, readable);
    AppendDistinct(l.done, Only(l.active, readable));
  }

  lemma ProcessedValid(l: Lists)
    requires l.Valid() && l.done != []
    ensures l.Processed().Valid()
    ensures l.Covers() ==> l.Processed().Covers()
  {
    HeadAndTail(l.done);
    AppendDistinct(l.ready, [l.done[0]]);
  }

  lemma ReapedValid(l: Lists, exited: set<Rid>)
    requires l.Valid()
    ensures l.Reaped(exited).Valid()
    ensures l.Covers() ==> l.Reaped(exited).Covers()
  {
    ExceptMembers(l.pool, exited);
    ExceptMembers(l.ready, exited);
    ExceptMembers(l.active, exited);
    ExceptMembers(l.done, exited);
    FirstDistinct(l.pool, |l.pool|, exited);
    FirstDistinct(l.ready, |l.ready|, exited);
    FirstDistinct(l.active, |l.active|, exited);
    FirstDistinct(l.done, |l.done|, exited);
  }

  // ---------- Capacity ----------

  function Elements(s: seq<Rid>): set<Rid> {
    set x | x in s
  }

  lemma {:induction false} DistinctSize(s: seq<Rid>)
    requires Distinct(s)
    ensures |Elements(s)| == |s|
  {
    if s != [] {
      DistinctSize(s[1..]);
      assert Elements(s) == {s[0]} + Elements(s[1..]);
    }
  }

  // The three lists together never outgrow the pool, so no append overruns its array.
  lemma ListsFit(l: Lists)
    requires l.Valid()
    ensures |l.ready| + |l.active| + |l.done| <= |l.pool|
    ensures l.Covers() ==> |l.ready| + |l.active| + |l.done| == |l.pool|
  {
    var r, a, d, p := Elements(l.ready), Elements(l.active), Elements(l.done), Elements(l.pool);
    DistinctSize(l.ready);
    DistinctSize(l.active);
    DistinctSize(l.done);
    DistinctSize(l.pool);
    assert r !! a && (r + a) !! d;
    assert |r + a + d| == |r| + |a| + |d|;
    SubsetSize(r + a + d, p);
    if l.Covers() {
      assert r + a + d == p;
    }
  }
}
