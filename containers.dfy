/** The three containers Queue, Stack and PriorityQueue. They share one
    admission-controlled core and differ only in their ordering policy:
    where `push` inserts into the storage and which element `next` removes.
    Storage is a sequence whose element 0 is the front. */
module Containers {
  import opened Admission

  datatype Option<T> = None | Some(value: T)

  /** The ordering policy of an instantiation. `Fifo` is Queue (push_back,
      pop_front), `Lifo` is Stack (push_front, pop_front) and `Priority` is
      PriorityQueue (a max-heap); the total order of its elements is given by
      the integer rank `key`, larger ranks first. */
  datatype Policy<!T> = Fifo | Lifo | Priority(key: T -> int)

  /** Where the storage puts a new element: Stack at the front, Queue at the
      back; the heap has no positional choice and the model appends. */
  function Insert<T>(policy: Policy<T>, elems: seq<T>, x: T): (r: seq<T>)
    ensures |r| == |elems| + 1
    ensures multiset(r) == multiset(elems) + multiset{x}
  {
    if policy.Lifo? then [x] + elems else elems + [x]
  }

  /** The storage after `push(x)`: `x` is inserted when the limit admits it
      and silently dropped otherwise. */
  function Pushed<T>(policy: Policy<T>, limit: Limit, elems: seq<T>, x: T): (r: seq<T>)
    requires Fits(limit, |elems|)
    ensures Fits(limit, |r|)
    ensures Admits(limit, |elems|) ==> |r| == |elems| + 1 && multiset(r) == multiset(elems) + multiset{x}
    ensures !Admits(limit, |elems|) ==> r == elems
  {
    if Admits(limit, |elems|) then Insert(policy, elems, x) else elems
  }

  /** The storage after pushing every element of `xs`, first to last. */
  function PushedAll<T>(policy: Policy<T>, limit: Limit, elems: seq<T>, xs: seq<T>): (r: seq<T>)
    requires Fits(limit, |elems|)
    ensures Fits(limit, |r|)
    ensures |r| == |elems| + Admitted(limit, |elems|, |xs|)
    decreases |xs|
  {
    if xs == [] then elems
    else PushedAll(policy, limit, Pushed(policy, limit, elems, xs[0]), xs[1..])
  }

  /** Pushing a batch and then one more element is pushing the longer batch. */
  lemma {:induction false} PushedAllSnoc<T>(policy: Policy<T>, limit: Limit, elems: seq<T>, xs: seq<T>, x: T)
    requires Fits(limit, |elems|)
    ensures PushedAll(policy, limit, elems, xs + [x]) == Pushed(policy, limit, PushedAll(policy, limit, elems, xs), x)
    decreases |xs|
  {
    if xs == [] {
      assert xs + [x] == [x];
    } else {
      assert (xs + [x])[1..] == xs[1..] + [x];
      PushedAllSnoc(policy, limit, Pushed(policy, limit, elems, xs[0]), xs[1..], x);
    }
  }

  /** `s` back to front. */
  function Reverse<T>(s: seq<T>): (r: seq<T>)
    ensures |r| == |s|
  {
    if s == [] then [] else Reverse(s[1..]) + [s[0]]
  }

  /** `s[i]` has the largest rank in `s`. */
  predicate IsMaxAt<T>(key: T -> int, s: seq<T>, i: int) {
    0 <= i < |s| && forall j :: 0 <= j < |s| ==> key(s[j]) <= key(s[i])
  }

  /** `s` without its element at index `i`. */
  function RemoveAt<T>(s: seq<T>, i: nat): (r: seq<T>)
    requires i < |s|
    ensures |r| == |s| - 1
    ensures multiset(r) + multiset{s[i]} == multiset(s)
  {
    assert s == s[..i] + [s[i]] + s[i + 1..];
    s[..i] + s[i + 1..]
  }

  /** Every non-empty storage has an element of maximal rank, so a priority
      pop always has something to return. */
  lemma {:induction false} MaxExists<T>(key: T -> int, s: seq<T>)
    requires |s| > 0
    ensures exists i :: IsMaxAt(key, s, i)
  {
    if |s| == 1 {
      assert IsMaxAt(key, s, 0);
    } else {
      MaxExists(key, s[1..]);
      var i :| IsMaxAt(key, s[1..], i);
      if key(s[1..][i]) <= key(s[0]) {
        assert IsMaxAt(key, s, 0);
      } else {
        assert IsMaxAt(key, s, i + 1);
      }
    }
  }

  /** How the admitted count moves when one element of the batch is pushed. */
  lemma AdmittedStep(limit: Limit, len: nat, count: nat)
    requires Fits(limit, len) && count > 0
    ensures Admits(limit, len) ==>
      Fits(limit, len + 1) && Admitted(limit, len + 1, count - 1) == Admitted(limit, len, count) - 1
    ensures !Admits(limit, len) ==>
      Admitted(limit, len, count) == 0 && Admitted(limit, len, count - 1) == 0
  {
  }

  /** A Queue keeps exactly the admitted prefix of what was pushed, in push order. */
  lemma {:induction false} FifoPushedAll<T>(limit: Limit, elems: seq<T>, xs: seq<T>)
    requires Fits(limit, |elems|)
    ensures PushedAll(Fifo, limit, elems, xs) == elems + xs[..Admitted(limit, |elems|, |xs|)]
    decreases |xs|
  {
    if xs != [] {
      var next := Pushed(Fifo, limit, elems, xs[0]);
      FifoPushedAll(limit, next, xs[1..]);
      AdmittedStep(limit, |elems|, |xs|);
      var k := Admitted(limit, |elems|, |xs|);
      if Admits(limit, |elems|) {
        assert next == elems + [xs[0]];
        PrefixCons(xs, k);
      }
    }
  }

  /** A Stack keeps the admitted prefix of what was pushed, most recent first. */
  lemma {:induction false} LifoPushedAll<T>(limit: Limit, elems: seq<T>, xs: seq<T>)
    requires Fits(limit, |elems|)
    ensures PushedAll(Lifo, limit, elems, xs) == Reverse(xs[..Admitted(limit, |elems|, |xs|)]) + elems
    decreases |xs|
  {
    if xs != [] {
      var next := Pushed(Lifo, limit, elems, xs[0]);
      LifoPushedAll(limit, next, xs[1..]);
      AdmittedStep(limit, |elems|, |xs|);
      var k := Admitted(limit, |elems|, |xs|);
      if Admits(limit, |elems|) {
        assert next == [xs[0]] + elems;
        ReversePrefix(xs, k);
      } else {
        assert xs[..k] == [] && xs[1..][..0] == [];
      }
    }
  }

  /** A non-empty prefix is its first element followed by a prefix of the tail. */
  lemma PrefixCons<T>(xs: seq<T>, k: nat)
    requires 0 < k <= |xs|
    ensures xs[..k] == [xs[0]] + xs[1..][..k - 1]
  {
  }

  /** Reversing the first `k` elements puts the first one last. */
  lemma ReversePrefix<T>(xs: seq<T>, k: nat)
    requires 0 < k <= |xs|
    ensures Reverse(xs[..k]) == Reverse(xs[1..][..k - 1]) + [xs[0]]
  {
    assert xs[..k][1..] == xs[1..][..k - 1];
  }

  /** Whatever the policy, the storage holds the old elements plus exactly
      the admitted prefix of the pushed ones. */
  lemma {:induction false} PushedAllContents<T>(policy: Policy<T>, limit: Limit, elems: seq<T>, xs: seq<T>)
    requires Fits(limit, |elems|)
    ensures multiset(PushedAll(policy, limit, elems, xs))
         == multiset(elems) + multiset(xs[..Admitted(limit, |elems|, |xs|)])
    decreases |xs|
  {
    if xs != [] {
      var next := Pushed(policy, limit, elems, xs[0]);
      PushedAllContents(policy, limit, next, xs[1..]);
      AdmittedStep(limit, |elems|, |xs|);
      var k := Admitted(limit, |elems|, |xs|);
      if Admits(limit, |elems|) {
        PrefixCons(xs, k);
        assert multiset(next) == multiset(elems) + multiset{xs[0]};
      } else {
        assert xs[..k] == [] && xs[1..][..0] == [];
      }
    }
  }

  /** One container: the storage `elems` and the hard limit `limit`
      (`inner` and `capacity` in the structs Queue, Stack and PriorityQueue). */
  class Container<T> {
    var elems: seq<T>
    var limit: Limit
    const policy: Policy<T>

    /** A bounded container never holds more than its limit. */
    ghost predicate Valid()
      reads this
    {
      Fits(limit, |elems|)
    }

    /** `bounded(size)`: empty, with hard limit `size`. */
    constructor Bounded(policy: Policy<T>, size: nat)
      ensures Valid()
      ensures this.policy == policy && elems == [] && limit == Limit.Bounded(size)
      ensures Len() == 0 && Capacity(0) == size
    {
      this.policy := policy;
      elems := [];
      limit := Limit.Bounded(size);
    }

    /** `default()` (and `new()`): empty and unbounded. */
    constructor Default(policy: Policy<T>)
      ensures Valid()
      ensures this.policy == policy && elems == [] && limit == Unbounded
    {
      this.policy := policy;
      elems := [];
      limit := Unbounded;
    }

    /** `len()`: the number of stored elements, never above a present limit. */
    function Len(): (n: nat)
      reads this
      requires Valid()
      ensures n == |elems|
      ensures limit.Bounded? ==> n <= limit.n
    {
      |elems|
    }

    /** `is_empty()`. */
    function IsEmpty(): (b: bool)
      reads this
      requires Valid()
      ensures b <==> Len() == 0
      ensures b <==> elems == []
    {
      |elems| == 0
    }

    /** `capacity()`: headroom below the limit; `slots` is the storage's own
        allocation count, reported as is in unbounded mode. */
    function Capacity(slots: nat): (c: nat)
      reads this
      requires Valid()
      ensures limit.Bounded? ==> c + Len() == limit.n
      ensures limit.Bounded? ==> (c > 0 <==> Admits(limit, Len()))
      ensures limit.Unbounded? ==> c == slots
    {
      Headroom(limit, |elems|, slots)
    }

    /** `max_capacity()`: capacity plus length, the hard limit when bounded. */
    function MaxCapacity(slots: nat): (m: nat)
      reads this
      requires Valid()
      ensures m == Capacity(slots) + Len()
      ensures limit.Bounded? ==> m == limit.n
    {
      Admission.MaxCapacity(limit, |elems|, slots)
    }

    /** `iter()`: every stored element, without removing any. Queue and
        Stack yield the storage front first, so the first element is what
        `Next` removes; a PriorityQueue yields its heap in an order that is
        left open here. */
    method Iter() returns (s: seq<T>)
      ensures |s| == |elems|
      ensures multiset(s) == multiset(elems)
      ensures !policy.Priority? ==> s == elems
    {
      s := elems;
    }

    /** `push(x)`: inserts at the policy's position when the limit admits it,
        otherwise drops `x` and changes nothing. */
    method Push(x: T)
      requires Valid()
      modifies this
      ensures Valid() && limit == old(limit)
      ensures elems == Pushed(policy, old(limit), old(elems), x)
      ensures Len() == if Admits(old(limit), old(|elems|)) then old(Len()) + 1 else old(Len())
    {
      match limit
      case Bounded(c) =>
        if c > |elems| {
          elems := Insert(policy, elems, x);
        }
      case Unbounded =>
        elems := Insert(policy, elems, x);
    }

    /** `next()`: removes and returns the front element (Queue, Stack) or an
        element of maximal rank (PriorityQueue); `None` when empty. */
    method Next() returns (r: Option<T>)
      requires Valid()
      modifies this
      ensures Valid() && limit == old(limit)
      ensures old(elems) == [] ==> r.None? && elems == old(elems)
      ensures old(elems) != [] ==>
        r.Some? && r.value in old(elems) && Len() == old(Len()) - 1
      ensures old(elems) != [] ==> multiset(elems) + multiset{r.value} == old(multiset(elems))
      ensures old(elems) != [] && !policy.Priority? ==>
        r.value == old(elems)[0] && elems == old(elems)[1..]
      ensures old(elems) != [] && policy.Priority? ==>
        forall y :: y in old(elems) ==> policy.key(y) <= policy.key(r.value)
    {
      if elems == [] {
        r := None;
      } else if policy.Priority? {
        MaxExists(policy.key, elems);
        var i :| IsMaxAt(policy.key, elems, i);
        r := Some(elems[i]);
        elems := RemoveAt(elems, i);
      } else {
        r := Some(elems[0]);
        assert elems == [elems[0]] + elems[1..];
        elems := elems[1..];
      }
    }

    /** `reserve(additional)`: on a bounded container, raises the limit to
        `len + additional` when the headroom is smaller than `additional`;
        never touches the storage. */
    method Reserve(additional: nat)
      requires Valid()
      modifies this
      ensures Valid() && elems == old(elems)
      ensures limit == Reserved(old(limit), |elems|, additional)
      ensures limit.Bounded? ==> Capacity(0) >= additional && MaxCapacity(0) >= old(MaxCapacity(0))
    {
      if limit.Bounded? {
        // the allocation count is ignored in bounded mode
        if Capacity(0) < additional {
          limit := Limit.Bounded(|elems| + additional);
        }
      }
    }
  }
}
