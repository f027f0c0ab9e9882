/** The server's growable circular queue: the record as a value, what each
    operation does to it, and the object whose array is updated in place. */
module ClientQueue {
  import Ring
  import opened Sequences

  datatype Client = Client(pid: int, tryConnect: int)

  /** An entry of the element array: a pointer to a client, or NULL. */
  datatype Slot = Null | Ptr(client: Client)

  datatype Que = Que(front: nat, rear: nat, capacity: nat, size: nat, slots: seq<Slot>)

  const EMPTY := Que(0, 0, 0, 0, [])

  ghost predicate WellFormed(q: Que) {
    && |q.slots| == q.capacity
    && q.size <= q.capacity
    && (q.capacity == 0 ==> q.front == 0 && q.rear == 0)
    && (q.capacity > 0 ==> q.front < q.capacity && q.rear == (q.front + q.size) % q.capacity)
    && (forall i :: 0 <= i < q.size ==> q.slots[At(q, i)].Ptr?)
  }

  /** Where the i-th oldest element is. */
  function At(q: Que, i: nat): (k: nat)
    requires q.capacity > 0
    ensures k < q.capacity
  {
    (q.front + i) % q.capacity
  }

  /** The clients waiting, oldest first. */
  ghost function Contents(q: Que): (s: seq<Client>)
    requires WellFormed(q)
    ensures |s| == q.size
  {
    seq(q.size, i requires 0 <= i < q.size => q.slots[At(q, i)].client)
  }

  // ----- The operations --------------------------------------------------------

  function Grown(capacity: nat): nat {
    if capacity == 0 then 1 else 2 * capacity
  }

  /** Resizing moves the elements to the start of a larger array whose other
      entries are whatever the allocation left there. */
  ghost predicate Resized(q: Que, q': Que) {
    && q'.front == 0 && q'.rear == q.size && q'.size == q.size
    && q'.capacity == Grown(q.capacity) == |q'.slots|
    && |q.slots| == q.capacity && q.size <= q.capacity
    && forall i :: 0 <= i < q.size ==> q'.slots[i] == q.slots[At(q, i)]
  }

  ghost predicate Stored(q: Que, item: Client, q': Que) {
    && q.rear < |q.slots|
    && q' == q.(slots := q.slots[q.rear := Ptr(item)],
                rear := if q.rear == q.capacity - 1 then 0 else q.rear + 1,
                size := q.size + 1)
  }

  ghost predicate Enqueued(q: Que, item: Client, q': Que) {
    if q.size == q.capacity then exists mid :: Resized(q, mid) && Stored(mid, item, q')
    else Stored(q, item, q')
  }

  function Dequeued(q: Que): (r: (Slot, Que))
    requires q.size > 0 ==> q.front < |q.slots|
  {
    if q.size == 0 then (Null, q)
    else (q.slots[q.front],
          q.(slots := q.slots[q.front := Null],
             front := if q.front == q.capacity - 1 then 0 else q.front + 1,
             size := q.size - 1))
  }

  // ----- What they mean --------------------------------------------------------

  lemma SlotIndex(q: Que, i: nat)
    requires q.capacity > 0 && q.front < q.capacity && i <= q.capacity
    ensures At(q, i) == if q.front + i < q.capacity then q.front + i else q.front + i - q.capacity
  {
    Ring.WrapOnce(q.front + i, q.capacity);
  }

  /** Growing keeps the queue, wherever in the array it wrapped around. */
  lemma ResizeKeepsContents(q: Que, q': Que)
    requires WellFormed(q) && Resized(q, q')
    ensures WellFormed(q') && Contents(q') == Contents(q) && q'.size < q'.capacity
  {
    Ring.WrapOnce(q.size, q'.capacity);
    forall i | 0 <= i < q.size ensures At(q', i) == i && q'.slots[i].Ptr? {
      Ring.WrapOnce(i, q'.capacity);
      assert q.slots[At(q, i)].Ptr?;
    }
  }

  lemma StoreAppends(q: Que, item: Client, q': Que)
    requires WellFormed(q) && q.size < q.capacity && Stored(q, item, q')
    ensures WellFormed(q') && Contents(q') == Contents(q) + [item]
  {
    SlotIndex(q, q.size);
    SlotIndex(q, q.size + 1);
    forall i | 0 <= i < q'.size
      ensures At(q', i) == At(q, i) && q'.slots[At(q', i)].Ptr?
      ensures q'.slots[At(q', i)].client == (Contents(q) + [item])[i]
    {
      SlotIndex(q, i);
      if i < q.size {
        assert q.slots[At(q, i)].Ptr? && Contents(q)[i] == q.slots[At(q, i)].client;
      }
    }
  }

  /** Memory permitting, every enqueue can be carried out. */
  lemma EnqueueIsPossible(q: Que, item: Client) returns (q': Que)
    requires WellFormed(q)
    ensures Enqueued(q, item, q')
  {
    var mid := q;
    if q.size == q.capacity {
      var slots := seq(Grown(q.capacity), i requires 0 <= i => if i < q.size then q.slots[At(q, i)] else Null);
      mid := Que(0, q.size, Grown(q.capacity), q.size, slots);
      assert Resized(q, mid);
    }
    q' := mid.(slots := mid.slots[mid.rear := Ptr(item)],
               rear := if mid.rear == mid.capacity - 1 then 0 else mid.rear + 1,
               size := mid.size + 1);
    assert Stored(mid, item, q');
  }

  /** An enqueue appends, growing the array first when it is full. */
  lemma EnqueueAppends(q: Que, item: Client, q': Que)
    requires WellFormed(q) && Enqueued(q, item, q')
    ensures WellFormed(q') && Contents(q') == Contents(q) + [item]
    ensures q'.capacity == if q.size == q.capacity then Grown(q.capacity) else q.capacity
  {
    if q.size == q.capacity {
      var mid :| Resized(q, mid) && Stored(mid, item, q');
      ResizeKeepsContents(q, mid);
      StoreAppends(mid, item, q');
    } else {
      StoreAppends(q, item, q');
    }
  }

  /** A dequeue gives the oldest client and removes it, leaving NULL in its slot
      and every other slot as it was; on an empty queue it gives NULL and changes
      nothing. */
  lemma DequeueRemovesOldest(q: Que)
    requires WellFormed(q)
    ensures var (item, q') := Dequeued(q);
            && WellFormed(q') && q'.capacity == q.capacity
            && (item == Null <==> Contents(q) == [])
            && (item == Null ==> q' == q)
            && (item != Null ==> Contents(q) == [item.client] + Contents(q'))
            && (item != Null ==> q'.slots == q.slots[q.front := Null])
  {
    if q.size > 0 {
      var q' := Dequeued(q).1;
      SlotIndex(q, 0);
      SlotIndex(q, q.size);
      SlotIndex(q', q'.size);
      assert q.slots[At(q, 0)].Ptr?;
      forall i | 0 <= i < q'.size
        ensures q'.slots[At(q', i)].Ptr? && q'.slots[At(q', i)].client == Contents(q)[i + 1]
      {
        SlotIndex(q, i + 1);
        SlotIndex(q', i);
        assert q.slots[At(q, i + 1)].Ptr?;
      }
    }
  }

  // ----- Any sequence of operations --------------------------------------------

  datatype Op = Enq(item: Client) | Deq(result: Slot)

  datatype Use = Use(states: seq<Que>, ops: seq<Op>)

  ghost predicate IsUse(u: Use) {
    && |u.states| == |u.ops| + 1
    && u.states[0] == EMPTY
    && forall k :: 0 <= k < |u.ops| ==> Does(u.states[k], u.ops[k], u.states[k + 1])
  }

  ghost predicate Does(q: Que, op: Op, q': Que) {
    match op
    case Enq(item) => Enqueued(q, item, q')
    case Deq(result) => (q.size > 0 ==> q.front < |q.slots|) && Dequeued(q) == (result, q')
  }

  /** What the first `k` operations put in, and what they got out. */
  ghost function PutIn(ops: seq<Op>): seq<Client> {
    if ops == [] then []
    else PutIn(Front(ops)) + (if Last(ops).Enq? then [Last(ops).item] else [])
  }

  ghost function GotOut(ops: seq<Op>): seq<Client> {
    if ops == [] then []
    else GotOut(Front(ops)) + (if Last(ops).Deq? && Last(ops).result.Ptr? then [Last(ops).result.client] else [])
  }

  /** Pointers copied by the resizes of the first operations. */
  ghost function Copied(u: Use, k: nat): nat
    requires k <= |u.ops| < |u.states|
  {
    if k == 0 then 0
    else Copied(u, k - 1)
         + (if u.ops[k - 1].Enq? && u.states[k - 1].size == u.states[k - 1].capacity then u.states[k - 1].size else 0)
  }

  ghost predicate PowerOfTwo(n: nat) {
    n == 1 || (n > 1 && n % 2 == 0 && PowerOfTwo(n / 2))
  }

  /** One operation, seen as one on an unbounded FIFO. */
  lemma DoesFifo(q: Que, op: Op, q': Que, put: seq<Client>, got: seq<Client>)
    requires WellFormed(q) && Does(q, op, q') && put == got + Contents(q)
    ensures WellFormed(q')
    ensures put + (if op.Enq? then [op.item] else [])
            == got + (if op.Deq? && op.result.Ptr? then [op.result.client] else []) + Contents(q')
  {
    if op.Enq? {
      EnqueueAppends(q, op.item, q');
      Regroup(got, Contents(q), [op.item]);
      assert got + [] == got;
    } else {
      DequeueRemovesOldest(q);
      if op.result.Ptr? {
        Regroup(got, [op.result.client], Contents(q'));
      }
    }
  }

  /** Any use of the queue, from capacity 0 on, is a use of an unbounded FIFO:
      what went in is what came out followed by what is still queued. */
  lemma {:induction false} RefinesFifo(u: Use, k: nat)
    requires IsUse(u) && k <= |u.ops|
    ensures WellFormed(u.states[k])
    ensures PutIn(u.ops[..k]) == GotOut(u.ops[..k]) + Contents(u.states[k])
  {
    if k > 0 {
      RefinesFifo(u, k - 1);
      var ops, q, q' := u.ops[..k], u.states[k - 1], u.states[k];
      assert Front(ops) == u.ops[..k - 1] && Last(ops) == u.ops[k - 1];
      DoesFifo(q, u.ops[k - 1], q', PutIn(u.ops[..k - 1]), GotOut(u.ops[..k - 1]));
    }
  }

  /** A dequeue comes back empty-handed exactly when nothing is queued. */
  lemma NullMeansEmpty(u: Use, k: nat)
    requires IsUse(u) && k < |u.ops| && u.ops[k].Deq?
    ensures u.ops[k].result == Null <==> PutIn(u.ops[..k]) == GotOut(u.ops[..k])
  {
    RefinesFifo(u, k);
    assert Does(u.states[k], u.ops[k], u.states[k + 1]);
    DequeueRemovesOldest(u.states[k]);
    var in_, out_, c := PutIn(u.ops[..k]), GotOut(u.ops[..k]), Contents(u.states[k]);
    assert c == [] ==> in_ == out_;
    assert |in_| == |out_| + |c|;
  }

  /** What `n` enqueues have cost when the array has this capacity. */
  ghost predicate Cheap(capacity: nat, n: nat, copied: nat) {
    && (capacity == 0 ==> n == 0 && copied == 0)
    && (capacity > 0 ==> PowerOfTwo(capacity) && copied == capacity - 1 && capacity < 2 * n)
    && (n > 0 ==> copied < 2 * n)
  }

  lemma CheapStep(q: Que, op: Op, q': Que, n: nat, copied: nat)
    requires WellFormed(q) && Does(q, op, q') && Cheap(q.capacity, n, copied) && q.size <= n
    ensures Cheap(q'.capacity, if op.Enq? then n + 1 else n,
                  if op.Enq? && q.size == q.capacity then copied + q.size else copied)
  {
    if op.Enq? {
      EnqueueAppends(q, op.item, q');
      assert q.capacity > 0 ==> (2 * q.capacity) / 2 == q.capacity;
    } else {
      DequeueRemovesOldest(q);
    }
  }

  /** Amortised cost: once there is an array, its capacity is a power of two,
      all resizes together have copied exactly one pointer less than it holds,
      and that is less than twice the number of enqueues. */
  lemma {:induction false} ResizesAreCheap(u: Use, k: nat)
    requires IsUse(u) && k <= |u.ops|
    ensures Cheap(u.states[k].capacity, |PutIn(u.ops[..k])|, Copied(u, k))
  {
    if k > 0 {
      ResizesAreCheap(u, k - 1);
      RefinesFifo(u, k - 1);
      var ops, q, q' := u.ops[..k], u.states[k - 1], u.states[k];
      assert Front(ops) == u.ops[..k - 1] && Last(ops) == u.ops[k - 1];
      assert Does(q, u.ops[k - 1], q');
      CheapStep(q, u.ops[k - 1], q', |PutIn(u.ops[..k - 1])|, Copied(u, k - 1));
    }
  }

  // ----- The object ------------------------------------------------------------

  class Queue {
    var front: nat
    var rear: nat
    var capacity: nat
    var size: nat
    var elements: array<Slot>

    ghost function View(): Que
      reads this, elements
    {
      Que(front, rear, capacity, size, elements[..])
    }

    ghost predicate Valid()
      reads this, elements
    {
      WellFormed(View())
    }

    constructor ()
      ensures Valid() && View() == EMPTY && fresh(elements)
    {
      front, rear, capacity, size := 0, 0, 0, 0;
      elements := new Slot[0];
    }

    method Dequeue() returns (item: Slot)
      requires Valid()
      modifies this`front, this`size, elements
      ensures Valid()
      ensures (item, View()) == Dequeued(old(View()))
      ensures item == Null ==> old(Contents(View())) == [] && View() == old(View())
      ensures item != Null ==> old(Contents(View())) == [item.client] + Contents(View())
    {
      DequeueRemovesOldest(View());
      ghost var before := View();
      if size == 0 {
        return Null;
      }
      item := elements[front];
      elements[front] := Null;
      front := if front == capacity - 1 then 0 else front + 1;
      size := size - 1;
      assert View() == Dequeued(before).1;
    }

    method ResizeQueue()
      requires Valid()
      modifies this
      ensures Valid() && fresh(elements)
      ensures Resized(old(View()), View()) && Contents(View()) == old(Contents(View()))
    {
      ghost var before := View();
      var newCapacity := if capacity == 0 then 1 else 2 * capacity;
      var newElements := new Slot[newCapacity];
      var i := 0;
      while i < size
        invariant 0 <= i <= size
        invariant View() == before
        invariant forall k :: 0 <= k < i ==> newElements[k] == before.slots[At(before, k)]
      {
        newElements[i] := elements[(front + i) % capacity];
        i := i + 1;
      }
      elements := newElements;
      capacity := newCapacity;
      front := 0;
      rear := size;
      ResizeKeepsContents(before, View());
    }

    method Enqueue(item: Client)
      requires Valid()
      modifies this, elements
      ensures Valid() && (elements == old(elements) || fresh(elements))
      ensures Enqueued(old(View()), item, View())
      ensures Contents(View()) == old(Contents(View())) + [item]
    {
      ghost var before := View();
      if size == capacity {
        ResizeQueue();
      }
      ghost var mid := View();
      Ring.WrapOnce(front + size, capacity);
      elements[rear] := Ptr(item);
      rear := if rear == capacity - 1 then 0 else rear + 1;
      size := size + 1;
      assert Stored(mid, item, View());
      EnqueueAppends(before, item, View());
    }
  }
}
