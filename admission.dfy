/** The capacity arithmetic shared by Queue, Stack and PriorityQueue.
    Every container carries a hard limit that is either absent (unbounded
    mode) or a natural number; the stored length never exceeds a present
    limit. The functions here are the pure expressions the containers
    evaluate over their two fields: the limit and the current length. */
module Admission {

  /** The `capacity: Option<usize>` field: `Unbounded` is `None`. */
  datatype Limit = Unbounded | Bounded(n: nat)

  /** The container invariant: a bounded container holds at most `n` elements. */
  predicate Fits(limit: Limit, len: nat) {
    limit.Bounded? ==> len <= limit.n
  }

  /** The admission gate of `push`: unbounded always admits, bounded admits
      only while the length is strictly below the limit. */
  predicate Admits(limit: Limit, len: nat) {
    match limit
    case Unbounded => true
    case Bounded(n) => len < n
  }

  /** `capacity()`: the headroom left below the limit. In unbounded mode it is
      the storage's own allocation count `slots`, which the model passes
      through without interpreting. Under the invariant the bounded
      subtraction cannot underflow. */
  function Headroom(limit: Limit, len: nat, slots: nat): (h: nat)
    requires Fits(limit, len)
    ensures limit.Bounded? ==> h + len == limit.n
    ensures limit.Bounded? ==> (h > 0 <==> Admits(limit, len))
    ensures limit.Unbounded? ==> h == slots
  {
    match limit
    case Unbounded => slots
    case Bounded(n) => n - len
  }

  /** `max_capacity()`: headroom plus length, which in bounded mode is the
      hard limit itself. */
  function MaxCapacity(limit: Limit, len: nat, slots: nat): (m: nat)
    requires Fits(limit, len)
    ensures m >= len
    ensures limit.Bounded? ==> m == limit.n
    ensures limit.Unbounded? ==> m == slots + len
  {
    Headroom(limit, len, slots) + len
  }

  /** The limit after `reserve(additional)`: an unbounded limit stays absent;
      a bounded one is raised to `len + additional` exactly when the current
      headroom is smaller than the request. */
  function Reserved(limit: Limit, len: nat, additional: nat): (r: Limit)
    requires Fits(limit, len)
    ensures Fits(r, len)
    ensures r.Unbounded? <==> limit.Unbounded?
    ensures r.Bounded? ==> r.n >= limit.n
    ensures r.Bounded? ==> Headroom(r, len, 0) >= additional
    ensures r.Bounded? && Headroom(limit, len, 0) < additional ==> Headroom(r, len, 0) == additional
    ensures limit.Bounded? && Headroom(limit, len, 0) >= additional ==> r == limit
  {
    match limit
    case Unbounded => Unbounded
    case Bounded(n) => if n - len < additional then Bounded(len + additional) else limit
  }

  /** How many of the next `count` pushes a container of length `len` admits. */
  function Admitted(limit: Limit, len: nat, count: nat): (k: nat)
    requires Fits(limit, len)
    ensures k <= count
    ensures limit.Unbounded? ==> k == count
    ensures limit.Bounded? ==> len + k <= limit.n
    ensures limit.Bounded? && k < count ==> len + k == limit.n
  {
    match limit
    case Unbounded => count
    case Bounded(n) => if count <= n - len then count else n - len
  }

  /** `reserve` never lowers the hard limit nor `max_capacity()`. */
  lemma ReserveNeverLowers(limit: Limit, len: nat, additional: nat, slots: nat)
    requires Fits(limit, len)
    ensures limit.Bounded? ==>
      MaxCapacity(Reserved(limit, len, additional), len, slots) >= MaxCapacity(limit, len, slots)
    ensures limit.Unbounded? ==>
      MaxCapacity(Reserved(limit, len, additional), len, slots) == MaxCapacity(limit, len, slots)
  {
  }

  /** After `reserve(k)` a further `reserve(j)` with `j <= k` changes nothing. */
  lemma ReserveIdempotent(limit: Limit, len: nat, k: nat, j: nat)
    requires Fits(limit, len)
    requires j <= k
    ensures Reserved(Reserved(limit, len, k), len, j) == Reserved(limit, len, k)
  {
  }

  /** `reserve` does not change what `push` admits on an unbounded container. */
  lemma ReserveKeepsUnboundedAdmission(limit: Limit, len: nat, additional: nat)
    requires limit.Unbounded?
    ensures Admits(Reserved(limit, len, additional), len)
  {
  }

  /** An admitted push keeps the invariant; a push refused leaves the length at the limit. */
  lemma AdmissionKeepsFit(limit: Limit, len: nat)
    requires Fits(limit, len)
    ensures Admits(limit, len) ==> Fits(limit, len + 1)
    ensures !Admits(limit, len) ==> limit.Bounded? && len == limit.n
  {
  }
}
