# useCycleList in Dafny

A model of `useCycleList`, a Vue composable that keeps a cyclic cursor over a
sequence. It owns one integer cell, `index`, which starts at 0. The sequence
belongs to the caller, who may replace it or change it between calls. The
composable returns three things:

- `next()` moves the index forward and wraps to 0 on the last position;
- `prev()` moves it back and wraps to `length - 1` on position 0;
- `state` reads the element at the index. If that element is missing or
  falsy, the read resets the index to 0 and yields element 0, which is
  missing too when the sequence is empty.

`next` and `prev` compare against the length at call time and never clamp.
So the index can leave the range: -1 after `prev` on an empty sequence, or
past the end after the sequence shrank. A `state` that is evaluated brings it
back (see "## Left out" for reads Vue answers from its cache).

Files:

- `wrappers.dfy`: `Option`, with `None` standing for `undefined`.
- `use_cycle_list.dfy` (module `UseCycleList`):
  - the pure index steps `NextIndex` and `PrevIndex`, their iterates, and
    the laws about them;
  - the read `Read`, which returns the value and the index it leaves behind;
  - the class `CycleList<T>`, with the fields `s` (the resolved sequence) and
    `index`. Its methods `Next`, `Prev` and `State` each state their new
    state through those functions. `SetSeq` stands for the caller replacing
    or mutating the sequence.
- `cycle_list_scenarios.dfy`: clients that replay the usage in
  `tests/useCycleList.spec.ts` on `[1, 2, 3]`. Each one's result is fixed by
  its postcondition.

JavaScript truthiness is abstracted as a predicate `truthy: T -> bool`. It is
a parameter of `Read`, and a constant of each `CycleList` fixed by its
constructor, so every read of one cursor uses the same test. In the scenarios
a number is truthy when it is not 0.

The test title at `tests/useCycleList.spec.ts:65` ("resets index to 0 if
updated ref doesn't include the activeIndex") and the comment at line 72
describe the reset as happening only when the element is missing. The code
tests `if (item)` (`src/composables/useCycleList.ts:35`), so a falsy element
in range also causes a reset. The model follows the code (`Read`,
`CycleListScenarios.ResetOnFalsy`).

## Model

| member | source | states |
|---|---|---|
| `UseCycleList.NextIndex` | src/composables/useCycleList.ts:25-30 | `next` either steps forward by one or wraps to 0. It gives 0 exactly from the last position or from -1. From a valid index the result is valid and equals index + 1 modulo the length. |
| `UseCycleList.PrevIndex` | src/composables/useCycleList.ts:19-24 | `prev` either steps back by one or goes to length - 1. It gives length - 1 exactly from 0 or from the length. From a valid index the result is valid and equals index - 1 modulo the length. |
| `UseCycleList.PrevUndoesNext` | src/composables/useCycleList.ts:19-30 | `prev` after `next` restores the index, for every index and length, except index -1 on a non-empty sequence (both directions). |
| `UseCycleList.NextUndoesPrev` | src/composables/useCycleList.ts:19-30 | `next` after `prev` restores the index, for every index and length, except index == length on a non-empty sequence (both directions). |
| `UseCycleList.NextIterCycles` | src/composables/useCycleList.ts:25-30 | From a valid index, k calls of `next` give (index + k) mod length. |
| `UseCycleList.PrevIterCycles` | src/composables/useCycleList.ts:19-24 | From a valid index, k calls of `prev` give (index - k) mod length. This is the Euclidean remainder, so one `prev` from 0 gives length - 1. |
| `UseCycleList.FullCycle` | src/composables/useCycleList.ts:19-30 | `length` calls of `next`, or of `prev`, bring a valid index back to itself. |
| `UseCycleList.PrevOnEmptyDescends` | src/composables/useCycleList.ts:19-24 | On an empty sequence, k calls of `prev` from 0 give -k. The first one already leaves the range. |
| `UseCycleList.NextBeyondEndDrifts` | src/composables/useCycleList.ts:25-30 | After the sequence shrinks below the index, `next` never wraps. k calls move the index k further out of range. |
| `UseCycleList.Read` | src/composables/useCycleList.ts:31-44 | A read keeps the index exactly when it names an element in range that is truthy; otherwise it resets the index to 0. On a non-empty sequence the index left behind is valid and the value is the element there. On an empty sequence the read yields nothing and leaves index 0. |
| `UseCycleList.ReadIdempotent` | src/composables/useCycleList.ts:31-44 | A second read with nothing changed in between gives the same value and the same index. So re-evaluating `state` on every access agrees with Vue's caching as long as every change to the sequence is one Vue tracks. |
| `UseCycleList.FreshReadsFirst` | src/composables/useCycleList.ts:13-44 | A fresh cursor (index 0) reads the first element whether it is truthy or not, and keeps index 0. An empty sequence reads nothing. |
| `UseCycleList.ReadAfterNexts` | src/composables/useCycleList.ts:25-44 | From a fresh cursor, k calls of `next` and then a read yield the element at k mod length, when that element is truthy. |
| `UseCycleList.CycleList.constructor` | src/composables/useCycleList.ts:10-16 | The cursor starts at index 0 over the given sequence, with the given truthiness test fixed for its lifetime. |
| `UseCycleList.CycleList.Next` | src/composables/useCycleList.ts:25-30 | Stores `NextIndex` of the old index and the current length, and leaves the sequence alone. A valid index stays valid and advances by one modulo the length. |
| `UseCycleList.CycleList.Prev` | src/composables/useCycleList.ts:19-24 | Stores `PrevIndex` of the old index and the current length, and leaves the sequence alone. A valid index stays valid and moves back by one modulo the length. |
| `UseCycleList.CycleList.State` | src/composables/useCycleList.ts:31-44 | Returns the value `Read` gives under the cursor's truthiness test and stores the index it leaves behind. It never changes the sequence. Afterwards the index is valid in a non-empty sequence, and is 0 with nothing returned for an empty one. |
| `UseCycleList.CycleList.SetSeq` | tests/useCycleList.spec.ts:54-75 | The caller replaces or grows the sequence. The index is kept. |
| `CycleListScenarios.InitialState` | tests/useCycleList.spec.ts:9-13 | On [1, 2, 3] the first read yields 1. |
| `CycleListScenarios.NextOnce` | tests/useCycleList.spec.ts:14-19 | One `next` and the read yields 2. |
| `CycleListScenarios.NextThenPrev` | tests/useCycleList.spec.ts:21-27 | `next` then `prev` reads 1 again. |
| `CycleListScenarios.PrevWraps` | tests/useCycleList.spec.ts:29-34 | `prev` from the start reads 3. |
| `CycleListScenarios.NextWraps` | tests/useCycleList.spec.ts:36-43 | Three calls of `next` read 1 again. |
| `CycleListScenarios.NextAfterGrowth` | tests/useCycleList.spec.ts:54-63 | Index 2, then growth to [1, 2, 3, 4], then `next`: index 3 and the read yields 4. |
| `CycleListScenarios.ResetAfterShrink` | tests/useCycleList.spec.ts:65-75 | On the shared array, by then [1, 2, 3, 4]: index 2, then replacement by [1, 2]: the read yields 1 and resets the index to 0. |
| `CycleListScenarios.ResetOnFalsy` | src/composables/useCycleList.ts:33-43 | On [1, 0, 3], after one `next`, the falsy 0 in range resets the index to 0 and the read yields 1. |
| `CycleListScenarios.PrevOnEmpty` | src/composables/useCycleList.ts:19-24 | On an empty sequence `prev` stores -1. The following read yields nothing and resets the index to 0. |

## Left out

- Vue's reactivity (`shallowRef`, `ref`, `computed` with its caching and dependency tracking, `toValue`; `src/composables/useCycleList.ts:1-2, 13-16, 31`). This is an external framework. `state` is a method evaluated on each call; `ReadIdempotent` shows that this agrees with caching while nothing changes.
- Stale cached reads. `state` is a `computed` (line 31) that re-runs only when a dependency Vue tracks changes. An in-place change to the array inside a `shallowRef` (as at `tests/useCycleList.spec.ts:60`), to a raw array passed in, or to non-reactive data behind a getter is not tracked. A read after such a change returns the cached, possibly stale element and skips the reset; the model's `State` always re-evaluates and resets.
- The dispatch between a plain array, a ref and a getter (`Array.isArray`, `MaybeRefOrGetter`; lines 14-16). It only resolves the current sequence, and the model holds that sequence in the field `s`. A getter that returns different arrays on different calls is the caller changing `s` between operations (`SetSeq`).
- `getPlain`. The test file calls it (`tests/useCycleList.spec.ts:77-82`), but the object `useCycleList` returns has only `prev`, `next` and `state` (lines 18-45). It is not implemented, so it is not modelled.
- JavaScript's truthiness rules (0, '', false, null, undefined, NaN). They are abstracted as the `truthy` parameter.
- JavaScript numbers are doubles. The model's index is an unbounded integer, so precision loss beyond 2^53 is not modelled.
