/** The bounded ring of the copier: the record behind the mutex, as a value.
    `Put` and `Take` are the two array updates made inside the locked sections
    of the copier's buffer; `Live` is the queue that the array stands for. */
module Ring {

  datatype Ring<T> = Ring(slots: seq<T>, inIdx: nat, outIdx: nat, count: nat, done: bool)
  {
    /** The fields agree with each other: the write index is `count` slots after
        the read index, going round the array. */
    ghost predicate Valid() {
      && 0 < |slots|
      && outIdx < |slots|
      && count <= |slots|
      && inIdx == (outIdx + count) % |slots|
    }

    predicate IsFull() {
      count >= |slots|
    }

    predicate IsEmpty() {
      count <= 0
    }

    /** The queued elements, oldest first. */
    ghost function Live(): (q: seq<T>)
      requires Valid()
      ensures |q| == count
    {
      seq(count, i requires 0 <= i < count => slots[(outIdx + i) % |slots|])
    }

    function Put(x: T): Ring<T>
      requires inIdx < |slots|
    {
      this.(slots := slots[inIdx := x], inIdx := (inIdx + 1) % |slots|, count := count + 1)
    }

    function Head(): T
      requires outIdx < |slots|
    {
      slots[outIdx]
    }

    function Take(): Ring<T>
      requires 0 < |slots| && 0 < count
    {
      this.(outIdx := (outIdx + 1) % |slots|, count := count - 1)
    }
  }

  /** Going round: for an index below twice the length, `%` subtracts at most once. */
  lemma WrapOnce(k: nat, n: nat)
    requires 0 < n && k < 2 * n
    ensures k % n == if k < n then k else k - n
  {
    if k >= n {
      assert k == n + (k - n);
    }
  }

  /** A put appends to the queue, wherever the write index stands. */
  lemma PutAppends<T>(r: Ring<T>, x: T)
    requires r.Valid() && !r.IsFull()
    ensures r.Put(x).Valid()
    ensures r.Put(x).Live() == r.Live() + [x]
    ensures r.Put(x).done == r.done && |r.Put(x).slots| == |r.slots|
  {
    var n := |r.slots|;
    var p := r.Put(x);
    WrapOnce(r.outIdx + r.count, n);
    WrapOnce(r.outIdx + r.count + 1, n);
    WrapOnce(r.inIdx + 1, n);
    forall i | 0 <= i < p.count
      ensures p.Live()[i] == (r.Live() + [x])[i]
    {
      WrapOnce(r.outIdx + i, n);
    }
  }

  /** A take removes the oldest element and nothing else. */
  lemma TakeRemovesOldest<T>(r: Ring<T>)
    requires r.Valid() && !r.IsEmpty()
    ensures r.Take().Valid()
    ensures r.Live() == [r.Head()] + r.Take().Live()
    ensures r.Take().done == r.done && r.Take().slots == r.slots
  {
    var n := |r.slots|;
    var t := r.Take();
    WrapOnce(r.outIdx + 1, n);
    WrapOnce(r.outIdx + r.count, n);
    WrapOnce(t.outIdx + t.count, n);
    WrapOnce(r.outIdx, n);
    forall i | 0 <= i < r.count
      ensures r.Live()[i] == ([r.Head()] + t.Live())[i]
    {
      WrapOnce(r.outIdx + i, n);
      if i > 0 {
        WrapOnce(t.outIdx + (i - 1), n);
      }
    }
  }
}
