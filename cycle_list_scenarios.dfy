/** Clients of the cycle list that replay the documented usage over the
    numbers [1, 2, 3]; a number is truthy when it is not 0. */
module CycleListScenarios {
  import opened Wrappers
  import opened UseCycleList

  function NumberTruthy(x: int): (b: bool) { x != 0 }

  /** Before any `prev` or `next`, `state` is the first element. */
  method InitialState() returns (r: Option<int>)
    ensures r == Some(1)
  {
    var c := new CycleList([1, 2, 3], NumberTruthy);
    r := c.State();
  }

  /** `next()` moves `state` to the second element. */
  method NextOnce() returns (r: Option<int>)
    ensures r == Some(2)
  {
    var c := new CycleList([1, 2, 3], NumberTruthy);
    c.Next();
    r := c.State();
  }

  /** `next()` then `prev()` comes back to the first element. */
  method NextThenPrev() returns (r: Option<int>)
    ensures r == Some(1)
  {
    var c := new CycleList([1, 2, 3], NumberTruthy);
    c.Next();
    c.Prev();
    r := c.State();
  }

  /** `prev()` at the beginning wraps to the last element. */
  method PrevWraps() returns (r: Option<int>)
    ensures r == Some(3)
  {
    var c := new CycleList([1, 2, 3], NumberTruthy);
    c.Prev();
    r := c.State();
  }

  /** Three calls of `next()` wrap back to the first element. */
  method NextWraps() returns (r: Option<int>)
    ensures r == Some(1)
  {
    var c := new CycleList([1, 2, 3], NumberTruthy);
    c.Next();
    c.Next();
    c.Next();
    r := c.State();
  }

  /** After two `next()` calls the sequence grows to [1, 2, 3, 4]; the next
      `next()` compares against the new length and reaches the element 4. */
  method NextAfterGrowth() returns (r: Option<int>, i: int)
    ensures r == Some(4) && i == 3
  {
    var c := new CycleList([1, 2, 3], NumberTruthy);
    c.Next();
    c.Next();
    c.SetSeq(c.s + [4]);
    c.Next();
    r := c.State();
    i := c.index;
  }

  /** The test file's shared array already was [1, 2, 3, 4] here (the
      growth scenario pushed 4 into it). After two `next()` calls the
      sequence is replaced by [1, 2]; the read finds no element at index 2,
      resets the index and yields 1. */
  method ResetAfterShrink() returns (r: Option<int>, i: int)
    ensures r == Some(1) && i == 0
  {
    var c := new CycleList([1, 2, 3, 4], NumberTruthy);
    c.Next();
    c.Next();
    c.SetSeq([1, 2]);
    r := c.State();
    i := c.index;
  }

  /** A falsy element resets the index although it is in range. */
  method ResetOnFalsy() returns (r: Option<int>, i: int)
    ensures r == Some(1) && i == 0
  {
    var c := new CycleList([1, 0, 3], NumberTruthy);
    c.Next();
    r := c.State();
    i := c.index;
  }

  /** `prev()` on an empty sequence stores -1; the read then yields nothing
      and resets the index to 0. */
  method PrevOnEmpty() returns (before: int, r: Option<int>, after: int)
    ensures before == -1 && r == None && after == 0
  {
    var c := new CycleList<int>([], NumberTruthy);
    c.Prev();
    before := c.index;
    r := c.State();
    after := c.index;
  }
}
