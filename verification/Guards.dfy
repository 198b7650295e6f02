// programs/coverage.c: numbering the guards of a target and recording the edges it takes
// in the buffer it shares with the fuzzer.
module Guards {
  import opened Bytes
  import opened Coverage

  class Recorder {
    // The static counter N: the guards numbered so far.
    var numbered: nat

    constructor ()
      ensures numbered == 0
    {
      numbered := 0;
    }

    // __sanitizer_cov_trace_pc_guard_init on one module's guards; mapped says whether the
    // coverage buffer could be mapped.
    method NumberGuards(guards: array<nat>, mapped: bool) returns (done: bool)
      modifies this, guards
      ensures done <==> guards.Length != 0 && old(guards[..])[0] == 0 && guards.Length + 1 <= MAP_BITS && mapped
      ensures !done ==> guards[..] == old(guards[..]) && numbered == old(numbered)
      ensures done ==> numbered == old(numbered) + guards.Length
      ensures done ==> forall i | 0 <= i < guards.Length :: guards[i] == old(numbered) + 1 + i
    {
      if guards.Length == 0 || guards[0] != 0 {
        return false;
      }
      if guards.Length + 1 > MAP_BITS {
        return false;
      }
      if !mapped {
        return false;
      }
      for x := 0 to guards.Length
        invariant numbered == old(numbered) + x
        invariant forall i | 0 <= i < x :: guards[i] == old(numbered) + 1 + i
      {
        numbered := numbered + 1;
        guards[x] := numbered;
      }
      done := true;
    }
  }

  // __sanitizer_cov_trace_pc_guard: or in the bit of one edge; guard 0 records nothing.
  method TraceGuard(bitmap: array<byte>, guard: nat)
    requires guard < 8 * bitmap.Length
    modifies bitmap
    ensures Edges(bitmap[..]) == old(Edges(bitmap[..])) + if guard == 0 then {} else {guard}
  {
    if guard == 0 {
      return;
    }
    ghost var before := bitmap[..];
    bitmap[guard / 8] := bitmap[guard / 8] | Mask(guard % 8);
    forall e: nat | e < 8 * |before| ensures BitAt(bitmap[..], e) == (BitAt(before, e) || e == guard) {
      OrMask(before[guard / 8], guard % 8, e % 8);
    }
  }

  // The guards of successive modules, as NumberGuards leaves them when it numbers each.
  function Numbering(sizes: seq<nat>): seq<nat> {
    if sizes == [] then [] else
      var front := Numbering(sizes[..|sizes| - 1]);
      front + seq(sizes[|sizes| - 1], (i: nat) => |front| + 1 + i)
  }

  // The modules that NumberGuards numbers: it rejects a larger one.
  predicate Accepted(sizes: seq<nat>) {
    forall i | 0 <= i < |sizes| :: sizes[i] < MAP_BITS
  }

  // No two edges of a target share a number, and none has the number 0. They all have a
  // bit in the map exactly when the modules have fewer than 4096 guards between them: the
  // source checks that of each module alone.
  lemma {:induction false} NumberingIsUnique(sizes: seq<nat>)
    requires Accepted(sizes)
    ensures forall i | 0 <= i < |Numbering(sizes)| :: Numbering(sizes)[i] == i + 1
    ensures (forall i | 0 <= i < |Numbering(sizes)| :: Numbering(sizes)[i] < MAP_BITS)
            <==> |Numbering(sizes)| < MAP_BITS
  {
    if sizes != [] {
      NumberingIsUnique(sizes[..|sizes| - 1]);
    }
    if |Numbering(sizes)| >= MAP_BITS {
      assert Numbering(sizes)[MAP_BITS - 1] >= MAP_BITS;
    }
  }

  // A module of 4095 guards followed by one of a single guard: both are accepted, and the
  // last guard has a number without a bit in the map.
  lemma NumberLeavesMap()
    ensures Accepted([MAP_BITS - 1, 1])
    ensures |Numbering([MAP_BITS - 1, 1])| == MAP_BITS && Numbering([MAP_BITS - 1, 1])[MAP_BITS - 1] == MAP_BITS
  {
    var sizes := [MAP_BITS - 1, 1];
    assert sizes[..1] == [MAP_BITS - 1] && sizes[..1][..0] == [];
    assert |Numbering(sizes[..1])| == MAP_BITS - 1;
    NumberingIsUnique(sizes);
  }
}
