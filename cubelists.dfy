/**
 * The per-output product lists (CUBE_LIST) and their counters (N_CUBES).
 * The program keeps one tail queue of cubes per output; N_CUBES is a
 * separate array of counters that every insertion increments and every
 * removal decrements, and that candidate generation also increments once per
 * queued candidate, so a counter is an upper bound on its list's length
 * rather than the length itself.
 */
module PlaLists {
  import opened Cube

  class CubeLists {
    var lists: seq<seq<Cube>>
    const nCubes: array<int>

    ghost predicate Valid()
      reads this
    {
      |lists| == nCubes.Length
    }

    /** initParsedPLA (src/libpla.c:15-21): numOut empty lists and zeroed counters. */
    constructor (numOut: nat)
      ensures Valid()
      ensures |lists| == numOut && fresh(nCubes)
      ensures forall o :: 0 <= o < numOut ==> lists[o] == [] && nCubes[o] == 0
    {
      lists := seq(numOut, _ => []);
      nCubes := new int[numOut](_ => 0);
    }

    /** N_CUBES[o] += k, with the lists and the other counters untouched. */
    method Count(o: nat, k: int)
      requires Valid() && o < nCubes.Length
      modifies nCubes
      ensures nCubes[o] == old(nCubes[o]) + k
      ensures forall j :: 0 <= j < nCubes.Length && j != o ==> nCubes[j] == old(nCubes[j])
    {
      nCubes[o] := nCubes[o] + k;
    }

    /** Replaces list o, as the in-place removals of one TAILQ do; the counters are untouched. */
    method Replace(o: nat, L: seq<Cube>)
      requires Valid() && o < |lists|
      modifies this
      ensures Valid()
      ensures lists == old(lists)[o := L]
    {
      lists := lists[o := L];
    }

    /** TAILQ_INSERT_TAIL of c on list o, followed by N_CUBES[o]++. */
    method Append(o: nat, c: Cube)
      requires Valid() && o < |lists|
      modifies this, nCubes
      ensures Valid()
      ensures lists == old(lists)[o := old(lists[o]) + [c]]
      ensures nCubes[o] == old(nCubes[o]) + 1
      ensures forall j :: 0 <= j < nCubes.Length && j != o ==> nCubes[j] == old(nCubes[j])
    {
      lists := lists[o := lists[o] + [c]];
      nCubes[o] := nCubes[o] + 1;
    }
  }
}
