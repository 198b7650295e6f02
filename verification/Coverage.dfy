// What coverage feedback means: a buffer is the set of edges whose bits it has, and the
// priority of a buffer depends on the buffers added before it.
module Coverage {
  import opened Prelude
  import opened Bytes

  const MAP_BITS: nat := 4096
  const MAP_BYTES: nat := 512

  type buffer = s: seq<byte> | |s| == MAP_BYTES witness seq(MAP_BYTES, _ => 0)

  type Edge = nat

  datatype Priority = NoPriority | LowPriority | HighPriority

  function Edges(v: seq<byte>): set<Edge> {
    set e: nat | e < 8 * |v| && BitAt(v, e)
  }

  function AllEdges(history: seq<buffer>): set<Edge> {
    if history == [] then {} else AllEdges(history[..|history| - 1]) + Edges(history[|history| - 1])
  }

  // High for a new edge, low for a new combination of known edges.
  function PriorityOf(known: set<Edge>, seen: bool, edges: set<Edge>): Priority {
    if !(edges <= known) then HighPriority else if !seen then LowPriority else NoPriority
  }

  function PriorityAfter(history: seq<buffer>, v: buffer): Priority {
    PriorityOf(AllEdges(history), v in history, Edges(v))
  }

  // The union of all, and nothing else.
  lemma {:induction false} AllEdgesAre(history: seq<buffer>, e: Edge)
    ensures e in AllEdges(history) <==> exists i :: 0 <= i < |history| && e in Edges(history[i])
  {
    if history != [] {
      var front, last := history[..|history| - 1], history[|history| - 1];
      AllEdgesAre(front, e);
      if i :| 0 <= i < |front| && e in Edges(front[i]) {
        assert history[i] == front[i];
      }
      if i :| 0 <= i < |history| && e in Edges(history[i]) {
        assert i < |front| ==> front[i] == history[i];
      }
    }
  }

  lemma MemberEdges(history: seq<buffer>, v: buffer)
    requires v in history
    ensures Edges(v) <= AllEdges(history)
  {
    var i :| 0 <= i < |history| && history[i] == v;
    forall e | e in Edges(v) ensures e in AllEdges(history) {
      AllEdgesAre(history, e);
    }
  }

  // The three priorities as coverage_map.h has them.
  lemma PrioritiesAre(history: seq<buffer>, v: buffer)
    ensures PriorityAfter(history, v) == HighPriority <==> !(Edges(v) <= AllEdges(history))
    ensures PriorityAfter(history, v) == LowPriority <==> Edges(v) <= AllEdges(history) && v !in history
    ensures PriorityAfter(history, v) == NoPriority <==> v in history
  {
    if v in history {
      MemberEdges(history, v);
    }
  }

  lemma OrEdges(a: seq<byte>, b: seq<byte>, c: seq<byte>)
    requires |a| == |b| == |c| && forall i | 0 <= i < |a| :: c[i] == a[i] | b[i]
    ensures Edges(c) == Edges(a) + Edges(b)
  {
    forall e: nat | e < 8 * |a| ensures BitAt(c, e) == (BitAt(a, e) || BitAt(b, e)) {
      OrBits(a[e / 8], b[e / 8], e % 8);
    }
  }

  lemma SameEdges(a: seq<byte>, b: seq<byte>)
    requires |a| == |b| && Edges(a) == Edges(b)
    ensures a == b
  {
    forall i | 0 <= i < |a| ensures a[i] == b[i] {
      forall k: nat | k < 8 ensures Bit(a[i], k) == Bit(b[i], k) {
        var e := 8 * i + k;
        assert BitAt(a, e) == (e in Edges(a)) && BitAt(b, e) == (e in Edges(b));
      }
      SameBits(a[i], b[i]);
    }
  }

  // The bytewise test of coverage_map_add: or-ing b in changes a exactly when b has an
  // edge that a lacks.
  lemma NewEdge(a: seq<byte>, b: seq<byte>, c: seq<byte>)
    requires |a| == |b| == |c| && forall i | 0 <= i < |a| :: c[i] == a[i] | b[i]
    ensures c == a <==> Edges(b) <= Edges(a)
  {
    OrEdges(a, b, c);
    if Edges(b) <= Edges(a) {
      assert Edges(c) == Edges(a);
      SameEdges(c, a);
    }
  }

  // The hash set compares buffers; comparing their edges comes to the same.
  lemma PriorityByEdges(history: seq<buffer>, v: buffer)
    ensures PriorityAfter(history, v) ==
            PriorityOf(AllEdges(history), Edges(v) in (set h | h in history :: Edges(h)), Edges(v))
  {
    forall h | h in history && Edges(h) == Edges(v) ensures h == v {
      SameEdges(h, v);
    }
  }

  // The additions that bring a new edge, by their place in the history.
  predicate BringsEdge(history: seq<buffer>, i: nat) {
    i < |history| && !(Edges(history[i]) <= AllEdges(history[..i]))
  }

  function Bringers(history: seq<buffer>): set<nat> {
    set i: nat | i < |history| && BringsEdge(history, i)
  }

  predicate IsBelow(e: nat, n: nat) { e < n }

  function Below(n: nat): set<nat> {
    set e: nat | e < n && IsBelow(e, n)
  }

  lemma {:induction false} BelowSize(n: nat)
    ensures |Below(n)| == n
  {
    if n > 0 {
      BelowSize(n - 1);
      assert Below(n) == Below(n - 1) + {n - 1};
    }
  }

  lemma {:induction false} EdgesInMap(history: seq<buffer>)
    ensures AllEdges(history) <= Below(MAP_BITS)
  {
    if history != [] {
      EdgesInMap(history[..|history| - 1]);
    }
  }

  lemma BringersSnoc(history: seq<buffer>)
    requires history != []
    ensures var front := history[..|history| - 1];
            Bringers(history) == Bringers(front) + if BringsEdge(history, |history| - 1) then {|history| - 1} else {}
  {
    var front := history[..|history| - 1];
    forall i: nat | i < |front| ensures BringsEdge(history, i) == BringsEdge(front, i) {
      assert front[..i] == history[..i];
    }
  }

  lemma {:induction false} HighFindsEdges(history: seq<buffer>)
    ensures |Bringers(history)| <= |AllEdges(history)|
  {
    if history != [] {
      var front := history[..|history| - 1];
      HighFindsEdges(front);
      BringersSnoc(history);
      SubsetSize(AllEdges(front), AllEdges(history));
    }
  }

  // However long the run, at most one addition per edge is ever of high priority.
  lemma HighIsBounded(history: seq<buffer>)
    ensures forall i: nat | i < |history| ::
              i in Bringers(history) <==> PriorityAfter(history[..i], history[i]) == HighPriority
    ensures |Bringers(history)| <= MAP_BITS
  {
    forall i: nat | i < |history|
      ensures i in Bringers(history) <==> PriorityAfter(history[..i], history[i]) == HighPriority
    {
      PrioritiesAre(history[..i], history[i]);
    }
    HighFindsEdges(history);
    EdgesInMap(history);
    BelowSize(MAP_BITS);
    SubsetSize(AllEdges(history), Below(MAP_BITS));
  }
}
