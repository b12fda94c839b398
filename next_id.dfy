/**
 * The "next id" reducer, written identically as `getNextId` in cheatsheet.ts
 * and `getNextID` in misc.ts:
 *
 *   items.reduce((max, x) => x.id > max ? max : x.id, 0) + 1
 *
 * Despite the accumulator's name, the step keeps the SMALLER of the
 * accumulator and the id, so the result is min(0, smallest id) + 1.
 */
module NextId {

  /** One application of the reducer callback. */
  function Step(max: int, id: int): (r: int)
    ensures r <= max && r <= id
    ensures r == max || r == id
  {
    if id > max then max else id
  }

  /** `items.reduce(Step, acc)`, visiting the items from left to right. */
  function Reduce<T>(items: seq<T>, id: T -> int, acc: int): (r: int)
    ensures r <= acc
    ensures forall i :: 0 <= i < |items| ==> r <= id(items[i])
    ensures r == acc || exists i :: 0 <= i < |items| && r == id(items[i])
    decreases |items|
  {
    if items == [] then acc
    else
      var r := Reduce(items[1..], id, Step(acc, id(items[0])));
      assert forall i :: 1 <= i < |items| ==> items[i] == items[1..][i - 1];
      r
  }

  /** `getNextId` / `getNextID`: the fold seeded with 0, plus one. */
  function GetNextId<T>(items: seq<T>, id: T -> int): (r: int)
    ensures r <= 1
    ensures forall i :: 0 <= i < |items| ==> r <= id(items[i]) + 1
    ensures r == 1 || exists i :: 0 <= i < |items| && r == id(items[i]) + 1
  {
    Reduce(items, id, 0) + 1
  }

  /** Reference definition: the least of 0 and every id. */
  ghost function LeastId<T>(items: seq<T>, id: T -> int): int
    decreases |items|
  {
    if items == [] then 0
    else
      var m := LeastId(items[..|items| - 1], id);
      var last := id(items[|items| - 1]);
      if last < m then last else m
  }

  /** The reference minimum is below every id, and is 0 or one of the ids. */
  lemma {:induction false} LeastIdIsMinimum<T>(items: seq<T>, id: T -> int)
    ensures LeastId(items, id) <= 0
    ensures forall i :: 0 <= i < |items| ==> LeastId(items, id) <= id(items[i])
    ensures LeastId(items, id) == 0 || exists i :: 0 <= i < |items| && LeastId(items, id) == id(items[i])
    decreases |items|
  {
    if items != [] {
      var init := items[..|items| - 1];
      LeastIdIsMinimum(init, id);
      assert forall i :: 0 <= i < |init| ==> init[i] == items[i];
      if LeastId(init, id) != 0 && LeastId(items, id) == LeastId(init, id) {
        var i :| 0 <= i < |init| && LeastId(init, id) == id(init[i]);
        assert LeastId(items, id) == id(items[i]);
      }
    }
  }

  /** What the reducer really computes: one more than min(0, smallest id). */
  lemma {:induction false} NextIdIsLeastPlusOne<T>(items: seq<T>, id: T -> int)
    ensures GetNextId(items, id) == LeastId(items, id) + 1
  {
    LeastIdIsMinimum(items, id);
  }

  /** With an empty list the result is 1. */
  lemma NextIdOfEmpty<T>(id: T -> int)
    ensures GetNextId([], id) == 1
  {
  }

  /** With non-negative ids the result is always 1, whatever the largest id. */
  lemma NextIdOfNonNegativeIds<T>(items: seq<T>, id: T -> int)
    requires forall i :: 0 <= i < |items| ==> id(items[i]) >= 0
    ensures GetNextId(items, id) == 1
  {
  }

  /** The ids 5, 6, 7 of `testUsers` give 1, not 8. */
  lemma NextIdOfTestUsers()
    ensures GetNextId([5, 6, 7], (x: int) => x) == 1
  {
  }
}
