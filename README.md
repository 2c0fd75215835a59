# Bounded Queue, Stack and PriorityQueue with admission control

This project models the core of the `stacktools` Rust library in Dafny. The library has three containers:

- `Queue` is first-in first-out.
- `Stack` is last-in first-out.
- `PriorityQueue` is a max-heap.

The three share one piece of logic, written once as macros. Each container holds its storage (`inner`) and an optional hard limit (`capacity: Option<usize>`).

- `push` admits a value only while the length is below the limit. Otherwise it silently drops the value.
- `next` removes the element the ordering policy picks and returns it.
- `capacity()` is the headroom left below the limit. `max_capacity()` is that headroom plus the length.
- `reserve(k)` raises a bounded limit to `len + k`, but only when the headroom is smaller than `k`.

The model has three modules, one per file:

- `Admission` (`admission.dfy`) holds the pure arithmetic of `src/macros.rs`. It has the limit datatype `Limit = Unbounded | Bounded(n)`, the invariant `Fits` (a bounded container holds at most `n` elements), the push gate `Admits`, `Headroom` (`capacity()`), `MaxCapacity` and `Reserved` (the limit after `reserve`). It also holds lemmas about `reserve`.
- `Containers` (`containers.dfy`) holds the class `Container<T>`. Its fields are `elems` (the storage, as a sequence whose element 0 is the front) and `limit`. Its methods `Push`, `Next` and `Reserve` update those fields in place. Its functions `Len`, `IsEmpty`, `Capacity` and `MaxCapacity` read them, and so does the method `Iter`, which changes nothing. The three structs of `src/lib.rs` are one class with an ordering-policy constant, `Policy = Fifo | Lifo | Priority(key)`:
  - `Fifo` is `Queue`: push at the back, pop at the front.
  - `Lifo` is `Stack`: push at the front, pop at the front.
  - `Priority` is `PriorityQueue`: the pop returns an element of maximal rank.

  The module also has value-level specifications of pushing one element (`Pushed`) and a whole batch (`PushedAll`), with inductive lemmas about what a batch leaves in each kind of container.
- `Scenarios` (`scenarios.dfy`) replays the library's unit tests (src/lib.rs:82-376) as client code. Every assertion there follows from the contracts of `Container` and the specification functions they name. The tests are `FifoInstantiate`, `LifoInstantiate`, `PriorityInstantiate` (split into the four pushes and three pop steps), `SuccessivePopsNonIncreasing`, `BoundedAdmission`, `BoundedCapacity`, `BoundedReserve` (run for all three kinds by `BoundedForAllKinds`) and `BoundedQueueCapacityHard`. Each returns the values the test observes, and its contract states them. The `(0..n).for_each(|x| queue.push(x))` loops are `ForEachPush`.

The invariant `Valid()` (`len <= n` when bounded) is kept by the constructors and by every method. That invariant is what keeps the unchecked subtraction `c - self.inner.len()` at src/macros.rs:16 from underflowing. In the model, `Headroom` requires `Fits` and returns a `nat`.

In unbounded mode, the code's `capacity()` returns `inner.capacity()`. That is the storage's total allocation count, not its count of free slots. The model follows the code: the allocation count is a parameter `slots` that `Capacity`, `MaxCapacity` and `Headroom` pass through without interpreting it. In bounded mode the parameter is ignored.

## Model

| member | source | states |
|---|---|---|
| Admission.Fits | src/macros.rs:16 | the container invariant: a bounded container holds at most its limit, which is what keeps the subtraction in `capacity()` from underflowing |
| Admission.Admits | src/macros.rs:87-91 | the guard of `push`: an unbounded container always admits, a bounded one only while its length is strictly below the limit |
| Admission.Headroom | src/macros.rs:14-19 | in bounded mode, headroom plus length equals the limit, and headroom is positive exactly when `push` admits; in unbounded mode it is the storage's allocation count |
| Admission.MaxCapacity | src/macros.rs:21-23 | `max_capacity()` is at least the length; it equals the hard limit when bounded, and the allocation count plus the length when unbounded |
| Admission.Reserved | src/macros.rs:25-32 | the invariant holds for the new limit; the mode is unchanged; a bounded limit never falls; afterwards the headroom is at least the request; when the headroom was short it becomes exactly the request; when it already sufficed, the limit is untouched |
| Admission.Admitted | src/macros.rs:86-92 | of `count` successive pushes, all are admitted when unbounded; when bounded, the admitted ones stop exactly at the limit |
| Admission.ReserveNeverLowers | src/macros.rs:25-32 | `reserve` never lowers `max_capacity()` on a bounded container and leaves it unchanged on an unbounded one |
| Admission.ReserveIdempotent | src/macros.rs:28-30 | after `reserve(k)`, any `reserve(j)` with `j <= k` is a no-op |
| Admission.ReserveKeepsUnboundedAdmission | src/macros.rs:26 | on an unbounded container, `reserve` leaves the limit absent, so `push` still admits unconditionally |
| Admission.AdmissionKeepsFit | src/macros.rs:88-90 | an admitted push keeps `len <= limit`; a refused push happens only on a bounded container that is exactly full |
| Containers.Insert | src/lib.rs:52-54 | the policy's insertion adds exactly one occurrence of the value to the storage |
| Containers.Pushed | src/macros.rs:86-92 | an admitted push adds exactly the value and keeps the invariant; a refused push leaves the storage unchanged |
| Containers.PushedAll | src/lib.rs:286-299 | pushing a batch keeps the invariant and raises the length by exactly the admitted count, so `bounded(5)` after six pushes holds five elements |
| Containers.PushedAllSnoc | src/lib.rs:354 | pushing a batch and then one more value is the same as pushing the longer batch |
| Containers.FifoPushedAll | src/lib.rs:83-110 | a Queue holds its old elements followed by the admitted prefix of the batch, in push order |
| Containers.LifoPushedAll | src/lib.rs:113-140 | a Stack holds the admitted prefix of the batch, most recent first, in front of its old elements |
| Containers.PushedAllContents | src/lib.rs:286-299 | for every kind, the storage holds the old elements plus exactly the admitted prefix of the batch |
| Containers.MaxExists | src/lib.rs:70 | every non-empty storage has an element of maximal rank, so the heap pop always has a value to return |
| Containers.Container.Bounded | src/macros.rs:7-12 | `bounded(size)` is empty, has limit `size`, and has `capacity() == size` |
| Containers.Container.Default | src/macros.rs:70-75 | `default()` is empty and unbounded |
| Containers.Container.Len | src/macros.rs:107-109 | the length is the number of stored elements and never exceeds a present limit |
| Containers.Container.IsEmpty | src/macros.rs:103-105 | `is_empty()` holds exactly when `len() == 0` |
| Containers.Container.Capacity | src/macros.rs:14-19 | on a bounded container, `capacity() + len()` equals the limit, and `capacity() > 0` exactly when `push` would admit |
| Containers.Container.MaxCapacity | src/macros.rs:21-23 | `max_capacity()` is `capacity() + len()`, which is the hard limit when bounded |
| Containers.Container.Iter | src/lib.rs:30-49 | `iter()` yields every stored element exactly once without removing any; Queue and Stack yield the storage front first, the order in which `Next` removes them; PriorityQueue's order is left open |
| Containers.Container.Push | src/macros.rs:86-92 | the limit is unchanged; the storage becomes `Pushed` of the old one; the length rises by one exactly when admitted and is otherwise unchanged |
| Containers.Container.Next | src/macros.rs:57-59 | on an empty container, returns `None` and changes nothing; otherwise returns a stored element, removes exactly that one occurrence, lowers `len()` by one and keeps the limit; Queue and Stack return the front of `iter()` and leave the rest; PriorityQueue returns an element ranking at least as high as every stored one |
| Containers.Container.Reserve | src/macros.rs:25-32 | the storage is unchanged; the limit becomes `Reserved` of the old one; a bounded container then has headroom at least the request, and a `max_capacity()` that did not fall |
| Scenarios.ForEachPush | src/lib.rs:354 | pushing each value of a range in turn leaves the storage `PushedAll` of the old one |
| Scenarios.FifoInstantiate | src/lib.rs:82-110 | after pushing 1, 2, 3 into a Queue, `iter()` yields 1, 2, 3 and `next()` returns 1, 2, 3, then `None` |
| Scenarios.LifoInstantiate | src/lib.rs:112-140 | after pushing 1, 2, 3 onto a Stack, `iter()` yields 3, 2, 1 and `next()` returns 3, 2, 1, then `None` |
| Scenarios.PriorityInstantiate | src/lib.rs:181-274 | after the four test pushes, `iter()` yields exactly the four messages; `next()` returns the two Critical messages in either order, then Normal, then Trivial, then `None` |
| Scenarios.PushFourMessages | src/lib.rs:184-203 | the test's four pushes into a new PriorityQueue leave exactly those four messages stored |
| Scenarios.PopFirstCritical | src/lib.rs:238-245 | the first pop from the four test messages returns one of the two Critical messages and leaves the other, together with Normal and Trivial |
| Scenarios.PopSecondCritical | src/lib.rs:247-254 | the second pop returns the remaining Critical message and leaves Normal and Trivial |
| Scenarios.PopNormalThenTrivial | src/lib.rs:256-273 | from Normal and Trivial, `next()` returns Normal, then Trivial, then `None`, leaving the queue empty |
| Scenarios.SuccessivePopsNonIncreasing | src/lib.rs:238-273 | two successive `next()` calls on any PriorityQueue: a second value comes only after a first, and ranks no higher than it |
| Scenarios.BoundedAdmission | src/lib.rs:285-299 | `bounded(5)` of any kind holds five elements after six pushes |
| Scenarios.BoundedCapacity | src/lib.rs:301-309 | a fresh `bounded(5)` of any kind has `len() == 0` and `capacity() == 5` |
| Scenarios.BoundedReserve | src/lib.rs:311-323 | on an empty `bounded(5)`, `reserve(5)` leaves `capacity() == 5`, and one push then gives `capacity() == 4` and `len() == 1` |
| Scenarios.BoundedQueueCapacityHard | src/lib.rs:325-376 | a `bounded(10)` Queue, after two `reserve` raises and twenty more pushes, holds 20 elements with `max_capacity() == 20` |

## Left out

- Allocation hints: the `with_capacity(size)` pre-allocation (src/macros.rs:9) and the `self.inner.reserve(additional)` call (src/macros.rs:27) have no effect on the limit and are not modelled.
- Container.Capacity: in unbounded mode it reports a caller-supplied allocation count `slots`. The growth policy of `VecDeque` and `BinaryHeap` decides that count, and this model does not include that policy.
- Admission.Reserved: uses unbounded naturals, so it does not model `usize` overflow of `len + additional` (src/macros.rs:29). The same holds for the lengths and limits everywhere else.
- The internals of `VecDeque` and `BinaryHeap` are not modelled. Storage is a sequence. The heap's sift-up and sift-down are replaced by an unordered sequence, with a pop that takes an element of maximal rank.
- Containers.Container.Next: for PriorityQueue, it leaves open which of several maximal elements it returns. The heap's tie-break depends on its memory layout, so the test's expectation that value 3 comes before value 4 (src/lib.rs:238-253) is stated only up to that choice.
- Containers.Container.Iter: for PriorityQueue, the contract fixes only which elements are yielded, not their order. The test at src/lib.rs:205-236 expects the heap's memory layout (3, 4, 2, 1), and the model has no heap layout. Scenarios.PriorityInstantiate therefore states the iteration as a multiset.
- The element order `Ord` is modelled as an integer rank `key`, which gives a total preorder, as the test's `PriorityMessage` ordering does. An arbitrary `Ord` on a type with no integer ranking is not modelled.
- `new()` (src/macros.rs:43-45) is `default()` and is modelled by `Default`. The other `Iterator` adaptors that Rust derives from `next` are not modelled.
- The macro machinery, the `Clone` and `Debug` derives and bounds, and the traits in src/prelude.rs hold no behaviour and are not modelled.
- Concurrency does not arise: each container has a single owner.
