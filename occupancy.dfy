/**
 * The occupancy tracker: one sequence id per cache slot, with -1 marking a
 * slot whose entry was removed. Slots are never compacted.
 */
module Occupancy {
  /** The id written into a removed slot. */
  const Sentinel: int := -1

  function Min(a: int, b: int): int {
    if a < b then a else b
  }

  /**
   * Removal as the cache performs it: visit slots b, b + 1, ... below
   * min(e, |occ|) and overwrite each entry of `s` with the sentinel. A
   * negative start is only meaningful when no slot is visited.
   */
  function Removed(occ: seq<int>, s: int, b: int, e: int): (r: seq<int>)
    requires 0 <= b || Min(e, |occ|) <= b
    ensures |r| == |occ|
    decreases |occ| - b
  {
    if b >= Min(e, |occ|) then occ
    else Removed(occ[b := if occ[b] == s then Sentinel else occ[b]], s, b + 1, e)
  }

  /** Slot by slot: an entry is overwritten iff it is in the clamped range and belongs to `s`. */
  lemma {:induction false} RemovedAt(occ: seq<int>, s: int, b: int, e: int, i: int)
    requires 0 <= b || Min(e, |occ|) <= b
    requires 0 <= i < |occ|
    ensures Removed(occ, s, b, e)[i] == if b <= i < Min(e, |occ|) && occ[i] == s then Sentinel else occ[i]
    decreases |occ| - b
  {
    if b < Min(e, |occ|) {
      RemovedAt(occ[b := if occ[b] == s then Sentinel else occ[b]], s, b + 1, e, i);
    }
  }

  /** Every entry of `s` inside the clamped range is marked removed. */
  lemma RemoveMarks(occ: seq<int>, s: int, b: int, e: int, i: int)
    requires 0 <= b && b <= i < Min(e, |occ|) && occ[i] == s
    ensures Removed(occ, s, b, e)[i] == Sentinel
  {
    RemovedAt(occ, s, b, e, i);
  }

  /** Entries outside the range, or owned by another sequence, are untouched. */
  lemma RemoveKeeps(occ: seq<int>, s: int, b: int, e: int, i: int)
    requires 0 <= b || Min(e, |occ|) <= b
    requires 0 <= i < |occ|
    requires !(b <= i < Min(e, |occ|)) || occ[i] != s
    ensures Removed(occ, s, b, e)[i] == occ[i]
  {
    RemovedAt(occ, s, b, e, i);
  }

  /** After a removal no slot in the clamped range belongs to `s` any more. */
  lemma RemoveClears(occ: seq<int>, s: int, b: int, e: int, i: int)
    requires s != Sentinel
    requires 0 <= b && b <= i < Min(e, |occ|)
    ensures Removed(occ, s, b, e)[i] != s
  {
    RemovedAt(occ, s, b, e, i);
  }

  /** A second identical removal changes nothing. */
  lemma RemoveIdempotent(occ: seq<int>, s: int, b: int, e: int)
    requires 0 <= b || Min(e, |occ|) <= b
    ensures Removed(Removed(occ, s, b, e), s, b, e) == Removed(occ, s, b, e)
  {
    var once := Removed(occ, s, b, e);
    forall i | 0 <= i < |occ|
      ensures Removed(once, s, b, e)[i] == once[i]
    {
      RemovedAt(occ, s, b, e, i);
      RemovedAt(once, s, b, e, i);
    }
  }
}
