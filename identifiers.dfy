/**
 * The identifier allocation loop that every entity constructor in
 * src/dbmodels.py runs: draw a candidate, look it up among the ids already in
 * that entity's table, and draw again until one is free.
 *
 * The random source is a sequence of draws supplied by the caller.
 */
module Identifiers {

  /** Some draw is not in the table, so the allocation loop stops. */
  predicate HasFresh<T>(taken: set<T>, draws: seq<T>) {
    exists i :: 0 <= i < |draws| && draws[i] !in taken
  }

  /**
   * The index of the draw the loop settles on: the first one not in the table,
   * or |draws| when every draw collides.
   */
  function FirstFreshIndex<T>(taken: set<T>, draws: seq<T>): (k: nat)
    ensures k <= |draws|
    ensures k < |draws| ==> draws[k] !in taken
    ensures forall j :: 0 <= j < k ==> draws[j] in taken
  {
    if draws == [] || draws[0] !in taken then 0
    else 1 + FirstFreshIndex(taken, draws[1..])
  }

  /** The loop settles on a draw exactly when some draw is free. */
  lemma FirstFreshIndexInRange<T>(taken: set<T>, draws: seq<T>)
    ensures FirstFreshIndex(taken, draws) < |draws| <==> HasFresh(taken, draws)
  {
  }

  /**
   * The allocation loop: draws candidates in order until one is not in the
   * table. Returns the id and the index of the draw it came from.
   */
  method AllocateId<T>(taken: set<T>, draws: seq<T>) returns (id: T, k: nat)
    requires HasFresh(taken, draws)
    ensures k < |draws| && id == draws[k]
    ensures id !in taken
    ensures forall j :: 0 <= j < k ==> draws[j] in taken
    ensures k == FirstFreshIndex(taken, draws)
  {
    var i := 0;
    id := draws[0];
    var isIdExist := true;
    while isIdExist
      invariant 0 <= i <= |draws|
      invariant forall j :: 0 <= j < i - 1 ==> draws[j] in taken
      invariant i > 0 ==> id == draws[i - 1] && isIdExist == (id in taken)
      invariant i == 0 ==> isIdExist
      decreases |draws| - i
    {
      id := draws[i];
      isIdExist := id in taken;
      i := i + 1;
    }
    k := i - 1;
  }

  /**
   * Python's randint(lo, hi) on a raw random value: every integer from lo to
   * hi, both ends included.
   */
  function RandInt(lo: int, hi: int, raw: nat): (r: int)
    requires lo <= hi
    ensures lo <= r <= hi
  {
    lo + raw % (hi - lo + 1)
  }

  /** Every value from lo to hi, both ends included, is a possible draw. */
  lemma RandIntCoversRange(lo: int, hi: int, v: int)
    requires lo <= v <= hi
    ensures RandInt(lo, hi, v - lo) == v
  {
  }
}
