/** The behaviour the library's own tests fix, replayed as client code
    against the specifications of Container: every assertion below follows
    from the contracts of Container's members and the specification
    functions they name. */
module Scenarios {
  import opened Admission
  import opened Containers

  /** `xs.for_each(|x| c.push(x))`: pushes every element of `xs` in order. */
  method ForEachPush<T>(c: Container<T>, xs: seq<T>)
    requires c.Valid()
    modifies c
    ensures c.Valid() && c.limit == old(c.limit)
    ensures c.elems == PushedAll(c.policy, c.limit, old(c.elems), xs)
  {
    for i := 0 to |xs|
      invariant c.Valid() && c.limit == old(c.limit)
      invariant c.elems == PushedAll(c.policy, c.limit, old(c.elems), xs[..i])
    {
      PushedAllSnoc(c.policy, c.limit, old(c.elems), xs[..i], xs[i]);
      assert xs[..i + 1] == xs[..i] + [xs[i]];
      c.Push(xs[i]);
    }
    assert xs[..|xs|] == xs;
  }

  /** A Queue returns its elements in push order, and `iter` shows that
      order without consuming anything. */
  method FifoInstantiate() returns (iterated: seq<int>, popped: seq<Option<int>>)
    ensures iterated == [1, 2, 3]
    ensures popped == [Some(1), Some(2), Some(3), None]
  {
    var fifo := new Container<int>.Default(Fifo);
    assert fifo.Len() == 0;
    fifo.Push(1);
    fifo.Push(2);
    fifo.Push(3);
    assert fifo.Len() == 3;
    iterated := fifo.Iter();

    var r1 := fifo.Next();
    assert fifo.Len() == 2;
    var r2 := fifo.Next();
    assert fifo.Len() == 1;
    var r3 := fifo.Next();
    assert fifo.Len() == 0;
    var r4 := fifo.Next();
    popped := [r1, r2, r3, r4];
  }

  /** A Stack returns its elements most recent first, and `iter` shows the
      same order. */
  method LifoInstantiate() returns (iterated: seq<int>, popped: seq<Option<int>>)
    ensures iterated == [3, 2, 1]
    ensures popped == [Some(3), Some(2), Some(1), None]
  {
    var lifo := new Container<int>.Default(Lifo);
    assert lifo.Len() == 0;
    lifo.Push(1);
    lifo.Push(2);
    lifo.Push(3);
    assert lifo.Len() == 3;
    iterated := lifo.Iter();

    var r1 := lifo.Next();
    assert lifo.Len() == 2;
    var r2 := lifo.Next();
    assert lifo.Len() == 1;
    var r3 := lifo.Next();
    assert lifo.Len() == 0;
    var r4 := lifo.Next();
    popped := [r1, r2, r3, r4];
  }

  /** A message ordered by its priority alone, as in the tests. */
  datatype Message = Message(priority: int, value: int)

  const Trivial := 1
  const Normal := 2
  const Critical := 3

  function Rank(m: Message): int {
    m.priority
  }

  const M1 := Message(Trivial, 1)
  const M2 := Message(Normal, 2)
  const M3 := Message(Critical, 3)
  const M4 := Message(Critical, 4)

  /** A PriorityQueue iterates over all four messages, then pops the two
      Critical messages first (in an order the model leaves open), then
      Normal, then Trivial. */
  method PriorityInstantiate() returns (iterated: seq<Message>, popped: seq<Option<Message>>)
    ensures multiset(iterated) == multiset{M1, M2, M3, M4}
    ensures |popped| == 5
    ensures popped[..2] == [Some(M3), Some(M4)] || popped[..2] == [Some(M4), Some(M3)]
    ensures popped[2..] == [Some(M2), Some(M1), None]
  {
    var prio := PushFourMessages();
    assert prio.Len() == 4;
    iterated := prio.Iter();
    var first, second := PopFirstCritical(prio);
    var again := PopSecondCritical(prio, second);
    var normal, trivial, last := PopNormalThenTrivial(prio);
    popped := [Some(first), Some(again), normal, trivial, last];
  }

  /** A new PriorityQueue after the test's four pushes. */
  method PushFourMessages() returns (prio: Container<Message>)
    ensures fresh(prio) && prio.Valid() && prio.policy == Priority(Rank)
    ensures prio.elems == [M1, M2, M3, M4]
  {
    prio := new Container<Message>.Default(Priority(Rank));
    assert prio.Len() == 0;
    prio.Push(M1);
    prio.Push(M2);
    prio.Push(M3);
    prio.Push(M4);
  }

  /** The first pop from the four test messages takes one Critical message
      and leaves the other. */
  method PopFirstCritical(prio: Container<Message>) returns (first: Message, second: Message)
    requires prio.Valid() && prio.policy == Priority(Rank) && prio.elems == [M1, M2, M3, M4]
    modifies prio
    ensures (first == M3 && second == M4) || (first == M4 && second == M3)
    ensures prio.Valid() && multiset(prio.elems) == multiset{M1, M2, second}
  {
    var r := prio.Next();
    assert r.value == M3 || r.value == M4 by {
      assert Rank(M4) <= Rank(r.value);
    }
    assert prio.Len() == 3;
    first := r.value;
    second := if r.value == M3 then M4 else M3;
  }

  /** The second pop takes the remaining Critical message. */
  method PopSecondCritical(prio: Container<Message>, second: Message) returns (popped: Message)
    requires prio.Valid() && prio.policy == Priority(Rank) && second.priority == Critical
    requires multiset(prio.elems) == multiset{M1, M2, second}
    modifies prio
    ensures popped == second
    ensures prio.Valid() && multiset(prio.elems) == multiset{M1, M2}
  {
    assert second in prio.elems;
    ghost var before := prio.elems;
    var r := prio.Next();
    assert r.value == second by {
      assert Rank(second) <= Rank(r.value);
      assert r.value in multiset(before);
    }
    assert prio.Len() == 2;
    popped := r.value;
  }

  /** Normal comes out before Trivial, and the emptied queue returns `None`. */
  method PopNormalThenTrivial(prio: Container<Message>) returns (normal: Option<Message>, trivial: Option<Message>, last: Option<Message>)
    requires prio.Valid() && prio.policy == Priority(Rank)
    requires multiset(prio.elems) == multiset{M1, M2}
    modifies prio
    ensures normal == Some(M2) && trivial == Some(M1) && last == None
    ensures prio.Valid() && prio.elems == []
  {
    assert M2 in prio.elems;
    ghost var before := prio.elems;
    normal := prio.Next();
    assert normal.value == M2 by {
      assert Rank(M2) <= Rank(normal.value);
      assert normal.value in multiset(before);
    }
    assert prio.Len() == 1 && multiset(prio.elems) == multiset{M1};

    before := prio.elems;
    trivial := prio.Next();
    assert trivial.value == M1 by {
      assert trivial.value in multiset(before);
    }
    assert prio.Len() == 0;
    last := prio.Next();
  }

  /** Two successive pops from any PriorityQueue: the second value popped
      ranks no higher than the first, and a second value exists only when a
      first one did. */
  method SuccessivePopsNonIncreasing<T>(c: Container<T>) returns (r1: Option<T>, r2: Option<T>)
    requires c.Valid() && c.policy.Priority?
    modifies c
    ensures c.Valid()
    ensures r2.Some? ==> r1.Some?
    ensures r1.Some? && r2.Some? ==> c.policy.key(r2.value) <= c.policy.key(r1.value)
  {
    ghost var start := c.elems;
    r1 := c.Next();
    ghost var mid := c.elems;
    r2 := c.Next();
    if r2.Some? {
      assert r2.value in multiset(mid);
      assert r2.value in multiset(start);
    }
  }

  /** `bounded(5)` followed by six pushes keeps five elements. */
  method BoundedAdmission(policy: Policy<int>) returns (len: nat)
    ensures len == 5
  {
    var x := new Container<int>.Bounded(policy, 5);
    assert x.Len() == 0;
    x.Push(1);
    x.Push(2);
    x.Push(3);
    x.Push(4);
    x.Push(5);
    x.Push(6);
    len := x.Len();
  }

  /** A fresh `bounded(5)` is empty with capacity 5. */
  method BoundedCapacity(policy: Policy<int>) returns (len: nat, capacity: nat)
    ensures len == 0 && capacity == 5
  {
    var x := new Container<int>.Bounded(policy, 5);
    len := x.Len();
    capacity := x.Capacity(0);
  }

  /** `reserve(5)` on an empty `bounded(5)` changes nothing; one push then
      uses one slot. */
  method BoundedReserve(policy: Policy<int>) returns (reserved: nat, afterPush: nat, len: nat)
    ensures reserved == 5 && afterPush == 4 && len == 1
  {
    var x := new Container<int>.Bounded(policy, 5);
    assert x.Len() == 0;
    x.Reserve(5);
    reserved := x.Capacity(0);
    x.Push(1);
    afterPush := x.Capacity(0);
    len := x.Len();
  }

  /** The three bounded tests, for each of Stack, Queue and PriorityQueue. */
  method BoundedForAllKinds() {
    var kinds := [Lifo, Fifo, Priority((i: int) => i)];
    for k := 0 to |kinds| {
      var len := BoundedAdmission(kinds[k]);
      var empty, capacity := BoundedCapacity(kinds[k]);
      var reserved, afterPush, pushed := BoundedReserve(kinds[k]);
    }
  }

  /** A bounded Queue whose limit is raised twice by `reserve` and then
      filled to the new limit. */
  method BoundedQueueCapacityHard() returns (len: nat, maxCapacity: nat)
    ensures len == 20 && maxCapacity == 20
  {
    var queue := new Container<int>.Bounded(Fifo, 10);
    queue.Push(1);
    queue.Push(2);
    assert queue.Len() == 2 && queue.Capacity(0) == 8;
    queue.Push(3);
    assert queue.Len() == 3 && queue.Capacity(0) == 7;

    var popped := queue.Next();
    assert queue.Len() == 2 && queue.Capacity(0) == 8;
    popped := queue.Next();
    popped := queue.Next();
    assert queue.Len() == 0 && queue.Capacity(0) == 10;

    queue.Reserve(15);
    assert queue.Len() == 0 && queue.Capacity(0) == 15;

    ForEachPush(queue, seq(10, x => x));
    assert queue.Len() == 10 && queue.Capacity(0) == 5 && queue.MaxCapacity(0) == 15;

    queue.Reserve(10);
    assert queue.Len() == 10 && queue.Capacity(0) == 10 && queue.MaxCapacity(0) == 20;

    queue.Reserve(5);
    assert queue.Len() == 10 && queue.Capacity(0) == 10 && queue.MaxCapacity(0) == 20;

    ForEachPush(queue, seq(20, x => x));
    len := queue.Len();
    maxCapacity := queue.MaxCapacity(0);
  }
}
