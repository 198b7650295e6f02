// coverage_map.c: the global bitmap and the chained hash set of whole buffers, kept in
// step with the history of everything added.
module CoverageMap {
  import opened Prelude
  import opened Words
  import opened Bytes
  import opened Coverage

  const TABLE_SIZE: nat := 65537
  const FNV_OFFSET: word := 14695981039346656037
  const FNV_PRIME: word := 1099511628211

  function Fnv(data: seq<byte>): word {
    if data == [] then FNV_OFFSET
    else FnvStep(Fnv(data[..|data| - 1]), data[|data| - 1])
  }

  function FnvStep(hash: word, b: byte): word {
    WrapMul(XorWord(hash, b as int), FNV_PRIME)
  }

  lemma XorOne(a: word)
    requires a % 2 == 1
    ensures XorWord(a, 1) == a - 1
  {
    XorBit(a / 2, 1, 0, 1);
    XorZero(a / 2);
  }

  // FNV-1a: the byte is mixed in before the multiplication, byte after byte.
  lemma FnvSteps(offset: word, prime: word, s: seq<byte>, b: byte)
    requires offset == 0xcbf29ce484222325 && prime == 0x100000001b3
    ensures Fnv([]) == offset
    ensures Fnv(s + [b]) == WrapMul(XorWord(Fnv(s), b as int), prime)
    ensures b == 1 && Fnv(s) % 2 == 1 ==> Fnv(s + [b]) == ((Fnv(s) - 1) * prime) % WORD_RANGE
  {
    assert (s + [b])[..|s|] == s;
    if b == 1 && Fnv(s) % 2 == 1 {
      XorOne(Fnv(s));
    }
  }

  // The node of a hash chain is written once, when it becomes the head.
  datatype Chain = End | Node(data: buffer, next: Chain) {
    function Buffers(): seq<buffer> {
      match this
      case End => []
      case Node(data, next) => [data] + next.Buffers()
    }
  }

  function Bucket(v: buffer): (i: nat)
    ensures i < TABLE_SIZE
  {
    Fnv(v) % TABLE_SIZE
  }

  // Chain i holds, once each, the buffers of the history that hash to i.
  predicate HoldsBucket(chain: Chain, i: nat, history: seq<buffer>) {
    && Distinct(chain.Buffers())
    && (forall v | v in chain.Buffers() :: Bucket(v) == i && v in history)
    && (forall v | v in history && Bucket(v) == i :: v in chain.Buffers())
  }

  lemma AddToOwnBucket(chain: Chain, i: nat, history: seq<buffer>, v: buffer)
    requires HoldsBucket(chain, i, history) && Bucket(v) == i
    ensures v in history ==> HoldsBucket(chain, i, history + [v])
    ensures v !in history ==> HoldsBucket(Node(v, chain), i, history + [v])
    ensures v in chain.Buffers() <==> v in history
  {
  }

  class CoverageMap {
    const bitmap: array<byte>
    const hashset: array<Chain>
    ghost var history: seq<buffer>

    ghost predicate Valid()
      reads this, bitmap, hashset
    {
      && bitmap.Length == MAP_BYTES && hashset.Length == TABLE_SIZE
      && Edges(bitmap[..]) == AllEdges(history)
      && forall i: nat | i < TABLE_SIZE :: HoldsBucket(hashset[i], i, history)
    }

    constructor ()
      ensures Valid() && history == [] && fresh(bitmap) && fresh(hashset)
    {
      bitmap := new byte[MAP_BYTES](_ => 0);
      hashset := new Chain[TABLE_SIZE](_ => End);
      history := [];
      new;
      assert Edges(bitmap[..]) == {};
    }

    // bitmap |= v; was there a bit that the bitmap lacked?
    method OrIn(v: array<byte>) returns (foundNew: bool)
      requires bitmap.Length == v.Length && bitmap != v
      modifies bitmap
      ensures Edges(bitmap[..]) == old(Edges(bitmap[..])) + Edges(v[..])
      ensures foundNew <==> !(Edges(v[..]) <= old(Edges(bitmap[..])))
    {
      ghost var before := bitmap[..];
      foundNew := false;
      for i := 0 to bitmap.Length
        invariant forall j | 0 <= j < i :: bitmap[j] == before[j] | v[j]
        invariant forall j | i <= j < bitmap.Length :: bitmap[j] == before[j]
        invariant foundNew <==> exists j :: 0 <= j < i && bitmap[j] != before[j]
      {
        if bitmap[i] | v[i] != bitmap[i] {
          foundNew := true;
        }
        bitmap[i] := bitmap[i] | v[i];
      }
      OrEdges(before, v[..], bitmap[..]);
      NewEdge(before, v[..], bitmap[..]);
    }

    method HashIndex(v: array<byte>) returns (i: nat)
      requires v.Length == MAP_BYTES
      ensures i == Bucket(v[..])
    {
      var hash := FNV_OFFSET;
      for k := 0 to v.Length
        invariant hash == Fnv(v[..k])
      {
        assert v[..k + 1] == v[..k] + [v[k]];
        hash := FnvStep(hash, v[k]);
      }
      assert v[..v.Length] == v[..];
      i := hash % TABLE_SIZE;
    }

    method InChain(chain: Chain, v: buffer) returns (found: bool)
      ensures found <==> v in chain.Buffers()
    {
      var cur := chain;
      while cur.Node?
        invariant v in chain.Buffers() <==> v in cur.Buffers()
        decreases cur
      {
        if cur.data == v {
          return true;
        }
        cur := cur.next;
      }
      found := false;
    }

    method Add(v: array?<byte>) returns (priority: Priority)
      requires Valid()
      requires v != null ==> v.Length == MAP_BYTES && v != bitmap
      modifies this, bitmap, hashset
      ensures Valid()
      ensures v == null ==> priority == NoPriority && history == old(history)
      ensures v != null ==> history == old(history) + [v[..]]
      ensures v != null ==> (priority == HighPriority <==> !(Edges(v[..]) <= AllEdges(old(history))))
      ensures v != null ==> (priority == LowPriority <==> Edges(v[..]) <= AllEdges(old(history)) && v[..] !in old(history))
      ensures v != null ==> (priority == NoPriority <==> v[..] in old(history))
      ensures v != null ==> priority == PriorityAfter(old(history), v[..])
    {
      if v == null {
        return NoPriority;
      }
      ghost var added, past := v[..], history;
      var foundNewEdge := OrIn(v);
      var i := HashIndex(v);
      var alreadyThere := InChain(hashset[i], v[..]);
      AddToOwnBucket(hashset[i], i, past, added);
      if !alreadyThere {
        hashset[i] := Node(v[..], hashset[i]);
      }
      history := past + [added];
      assert history[..|past|] == past;
      forall j: nat | j < TABLE_SIZE && j != i ensures HoldsBucket(hashset[j], j, history) {
        assert HoldsBucket(hashset[j], j, past);
      }
      PrioritiesAre(past, added);
      priority := if foundNewEdge then HighPriority else if !alreadyThere then LowPriority else NoPriority;
    }
  }
}
