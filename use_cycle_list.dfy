/** A cyclic cursor over a sequence that its owner may replace or change
    between calls: the index cell, the `prev`/`next` closures, and the `state`
    read that resets an index with no truthy element behind it to 0. */
module UseCycleList {
  import opened Wrappers

  // ---------------------------------------------------------------------------
  // Index arithmetic of `next` and `prev`, against the length at call time
  // ---------------------------------------------------------------------------

  /** The index `next` stores: 0 on the last position, one further otherwise. */
  function NextIndex(index: int, len: nat): (r: int)
    ensures r == index + 1 || r == 0
    ensures r == 0 <==> index == len - 1 || index == -1
    ensures 0 <= index < len ==> 0 <= r < len && r == (index + 1) % len
  {
    if index == len - 1 then 0 else index + 1
  }

  /** The index `prev` stores: the last position on 0, one back otherwise.
      On an empty sequence the last position is -1. */
  function PrevIndex(index: int, len: nat): (r: int)
    ensures r == index - 1 || r == len - 1
    ensures r == len - 1 <==> index == 0 || index == len
    ensures 0 <= index < len ==> 0 <= r < len && r == (index - 1) % len
  {
    if index == 0 then len - 1 else index - 1
  }

  /** The index after `k` calls of `next` on a sequence of length `len`. */
  function NextIter(k: nat, index: int, len: nat): (r: int)
  {
    if k == 0 then index else NextIndex(NextIter(k - 1, index, len), len)
  }

  /** The index after `k` calls of `prev` on a sequence of length `len`. */
  function PrevIter(k: nat, index: int, len: nat): (r: int)
  {
    if k == 0 then index else PrevIndex(PrevIter(k - 1, index, len), len)
  }

  // ---------------------------------------------------------------------------
  // Laws of the index arithmetic
  // ---------------------------------------------------------------------------

  /** `prev` undoes `next` everywhere except from -1 on a non-empty sequence
      (where `next` moves to 0 and `prev` then wraps to the end). */
  lemma PrevUndoesNext(index: int, len: nat)
    ensures PrevIndex(NextIndex(index, len), len) == index <==> !(index == -1 && len >= 1)
  {
  }

  /** `next` undoes `prev` everywhere except from `len` on a non-empty
      sequence (where `prev` moves to the last position and `next` wraps). */
  lemma NextUndoesPrev(index: int, len: nat)
    ensures NextIndex(PrevIndex(index, len), len) == index <==> !(index == len && len >= 1)
  {
  }

  /** From a valid index, `k` calls of `next` advance the cursor by `k`
      positions around the cycle. */
  lemma {:induction false} NextIterCycles(k: nat, index: int, len: nat)
    requires 0 <= index < len
    ensures NextIter(k, index, len) == (index + k) % len
  {
    if k > 0 {
      NextIterCycles(k - 1, index, len);
      var j := NextIter(k - 1, index, len);
      assert j == (index + (k - 1)) % len && 0 <= j < len;
      assert NextIter(k, index, len) == (j + 1) % len;
      ModSucc(index + k - 1, len);
    }
  }

  /** From a valid index, `k` calls of `prev` move the cursor back by `k`
      positions around the cycle. */
  lemma {:induction false} PrevIterCycles(k: nat, index: int, len: nat)
    requires 0 <= index < len
    ensures PrevIter(k, index, len) == (index - k) % len
  {
    if k > 0 {
      PrevIterCycles(k - 1, index, len);
      var j := PrevIter(k - 1, index, len);
      assert j == (index - (k - 1)) % len && 0 <= j < len;
      assert PrevIter(k, index, len) == (j - 1) % len;
      ModPred(index - (k - 1), len);
    }
  }

  /** A full round of `len` calls of `next`, or of `prev`, returns a valid
      index to where it started. */
  lemma FullCycle(index: int, len: nat)
    requires 0 <= index < len
    ensures NextIter(len, index, len) == index
    ensures PrevIter(len, index, len) == index
  {
    NextIterCycles(len, index, len);
    PrevIterCycles(len, index, len);
    ModUnique(index + len, len, 1, index);
    ModUnique(index - len, len, -1, index);
  }

  /** On an empty sequence `prev` from 0 leaves the sequence's range for
      good: `k` calls give -k. */
  lemma {:induction false} PrevOnEmptyDescends(k: nat)
    ensures PrevIter(k, 0, 0) == -(k as int)
  {
    if k > 0 {
      PrevOnEmptyDescends(k - 1);
    }
  }

  /** Once the sequence has shrunk below the index, `next` never wraps: `k`
      calls push the index `k` positions further out of range. */
  lemma {:induction false} NextBeyondEndDrifts(k: nat, index: int, len: nat)
    requires index >= len
    ensures NextIter(k, index, len) == index + k
  {
    if k > 0 {
      NextBeyondEndDrifts(k - 1, index, len);
    }
  }

  // ---------------------------------------------------------------------------
  // The `state` read
  // ---------------------------------------------------------------------------

  /** What a read of `state` yields, and the index it leaves behind. */
  datatype Reading<T> = Reading(value: Option<T>, index: int)

  /** A read of `state` on the sequence `s` with the index `index`; `truthy`
      stands for the language's truthiness test on an element.  A position
      outside the sequence holds no element, which is never truthy. */
  function Read<T>(s: seq<T>, index: int, truthy: T -> bool): (r: Reading<T>)
    // the index is kept when it names a truthy element, and reset to 0 otherwise
    ensures r.index == (if 0 <= index < |s| && truthy(s[index]) then index else 0)
    // the read heals: on a non-empty sequence it yields the element at the
    // (valid) index it leaves behind, on an empty one nothing at index 0
    ensures |s| > 0 ==> 0 <= r.index < |s| && r.value == Some(s[r.index])
    ensures |s| == 0 ==> r == Reading(None, 0)
    // a value read at a position other than 0 is always a truthy one
    ensures r.value.Some? && r.index != 0 ==> truthy(r.value.value)
  {
    if 0 <= index < |s| && truthy(s[index]) then Reading(Some(s[index]), index)
    else Reading(if |s| == 0 then None else Some(s[0]), 0)
  }

  /** A second read with nothing changed in between yields the same value and
      index as the first, so evaluating `state` on every access agrees with
      caching it while every change to the sequence is one the framework
      tracks. */
  lemma ReadIdempotent<T>(s: seq<T>, index: int, truthy: T -> bool)
    ensures Read(s, Read(s, index, truthy).index, truthy) == Read(s, index, truthy)
  {
  }

  /** A fresh cursor (index 0) reads the first element, truthy or not. */
  lemma FreshReadsFirst<T>(s: seq<T>, truthy: T -> bool)
    ensures Read(s, 0, truthy) == Reading(if |s| == 0 then None else Some(s[0]), 0)
  {
  }

  /** `k` calls of `next` from a fresh cursor, then a read, yield the element
      at position `k` modulo the length when that one is truthy. */
  lemma ReadAfterNexts<T>(s: seq<T>, k: nat, truthy: T -> bool)
    requires |s| > 0 && truthy(s[k % |s|])
    ensures Read(s, NextIter(k, 0, |s|), truthy) == Reading(Some(s[k % |s|]), k % |s|)
  {
    NextIterCycles(k, 0, |s|);
  }

  // ---------------------------------------------------------------------------
  // The cycle list object
  // ---------------------------------------------------------------------------

  /** The object `useCycleList` returns: `s` is the current sequence (a
      plain array, a ref or a getter, resolved), `index` the owned cell, and
      `truthy` the language's truthiness test on an element, fixed once. */
  class CycleList<T> {
    var s: seq<T>
    var index: int
    const truthy: T -> bool

    /** `useCycleList(arr)`: the index cell starts at 0. */
    constructor (arr: seq<T>, truthy: T -> bool)
      ensures s == arr && index == 0 && this.truthy == truthy
    {
      s := arr;
      index := 0;
      this.truthy := truthy;
    }

    /** `next()`: wraps against the length the sequence has now. */
    method Next()
      modifies this`index
      ensures s == old(s)
      ensures index == NextIndex(old(index), |s|)
      ensures old(0 <= index < |s|) ==> 0 <= index < |s| && index == (old(index) + 1) % |s|
    {
      index := if index == |s| - 1 then 0 else index + 1;
    }

    /** `prev()`: wraps against the length the sequence has now. */
    method Prev()
      modifies this`index
      ensures s == old(s)
      ensures index == PrevIndex(old(index), |s|)
      ensures old(0 <= index < |s|) ==> 0 <= index < |s| && index == (old(index) - 1) % |s|
    {
      index := if index == 0 then |s| - 1 else index - 1;
    }

    /** A read of `state`: the element at the index when it is truthy;
        otherwise the index is reset to 0 and the first element (or nothing,
        on an empty sequence) is returned. */
    method State() returns (r: Option<T>)
      modifies this`index
      ensures s == old(s)
      ensures Reading(r, index) == Read(s, old(index), truthy)
      ensures |s| > 0 ==> 0 <= index < |s|
      ensures |s| == 0 ==> r == None && index == 0
    {
      var item := if 0 <= index < |s| then Some(s[index]) else None;
      if item.Some? && truthy(item.value) {
        return item;
      }
      index := 0;
      r := if |s| == 0 then None else Some(s[0]);
    }

    /** The owner of the sequence replaces it or changes it in place
        (`ref.value = [...]`, `ref.value.push(x)`); the index is untouched. */
    method SetSeq(t: seq<T>)
      modifies this`s
      ensures s == t && index == old(index)
    {
      s := t;
    }
  }

  // ---------------------------------------------------------------------------
  // Modular arithmetic helpers
  // ---------------------------------------------------------------------------

  lemma MulBounds(d: int, n: int)
    requires n > 0
    ensures d > 0 ==> d * n >= n
    ensures d < 0 ==> d * n <= -n
  {
  }

  /** Euclidean remainders are unique. */
  lemma ModUnique(y: int, n: int, q: int, r: int)
    requires n > 0 && y == q * n + r && 0 <= r < n
    ensures y % n == r
  {
    var d := q - y / n;
    assert d * n == y % n - r;
    MulBounds(d, n);
  }

  lemma ModSucc(x: int, n: int)
    requires n > 0
    ensures (x % n + 1) % n == (x + 1) % n
  {
    var q, r := x / n, x % n;
    assert x == q * n + r && 0 <= r < n;
    if r + 1 < n {
      ModUnique(x + 1, n, q, r + 1);
      ModUnique(r + 1, n, 0, r + 1);
    } else {
      assert x + 1 == (q + 1) * n;
      ModUnique(x + 1, n, q + 1, 0);
      ModUnique(r + 1, n, 1, 0);
    }
  }

  lemma ModPred(x: int, n: int)
    requires n > 0
    ensures (x % n - 1) % n == (x - 1) % n
  {
    var q, r := x / n, x % n;
    assert x == q * n + r && 0 <= r < n;
    if r > 0 {
      ModUnique(x - 1, n, q, r - 1);
      ModUnique(r - 1, n, 0, r - 1);
    } else {
      assert x - 1 == (q - 1) * n + (n - 1);
      ModUnique(x - 1, n, q - 1, n - 1);
      ModUnique(r - 1, n, -1, n - 1);
    }
  }
}
