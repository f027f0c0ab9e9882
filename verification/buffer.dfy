/** The copier's buffer as an object: an array updated in place, one method for
    each stretch of code that runs with the mutex held. */
module BoundedBuffer {
  import opened Ring

  /** What one pass through the mutex-held part of a pop decides. */
  datatype PopOutcome<T> = Waits | Drained | Got(item: T)

  class Buffer<T(0)> {
    var items: array<T>
    var inIdx: nat
    var outIdx: nat
    var count: nat
    var done: bool
    // Everything that was ever put in and taken out, in order.
    ghost var pushed: seq<T>
    ghost var popped: seq<T>

    /** The record as a value, for comparison with module `Ring`. */
    ghost function View(): Ring<T>
      reads this, items
    {
      Ring(items[..], inIdx, outIdx, count, done)
    }

    ghost predicate Valid()
      reads this, items
    {
      && View().Valid()
      && pushed == popped + View().Live()
    }

    constructor (size: nat)
      requires size > 0
      ensures Valid() && fresh(items)
      ensures items.Length == size && !done
      ensures View().Live() == [] && pushed == [] && popped == []
    {
      items := new T[size];
      inIdx, outIdx, count, done := 0, 0, 0, false;
      pushed, popped := [], [];
      new;
      WrapOnce(0, size);
    }

    /** One pass of a push through the mutex: either the ring is full and the
        caller must wait, with nothing changed, or the item goes in last. */
    method Push(item: T) returns (waits: bool)
      requires Valid()
      modifies this`inIdx, this`count, this`pushed, items
      ensures Valid()
      ensures waits <==> old(count) == items.Length
      ensures waits ==> View() == old(View()) && pushed == old(pushed)
      ensures !waits ==> View() == old(View()).Put(item)
      ensures !waits ==> View().Live() == old(View().Live()) + [item] && pushed == old(pushed) + [item]
    {
      if count >= items.Length {
        return true;
      }
      PutAppends(View(), item);
      ghost var before := View();
      items[inIdx] := item;
      inIdx := (inIdx + 1) % items.Length;
      count := count + 1;
      pushed := pushed + [item];
      assert View() == before.Put(item);
      waits := false;
    }

    /** One pass of a pop through the mutex. A drained answer is given only once
        the producer is done and every pushed item has been popped. */
    method Pop() returns (outcome: PopOutcome<T>)
      requires Valid()
      modifies this`outIdx, this`count, this`popped
      ensures Valid()
      ensures outcome.Waits? <==> old(count) == 0 && !done
      ensures outcome.Drained? <==> old(count) == 0 && done
      ensures !outcome.Got? ==> View() == old(View()) && popped == old(popped)
      ensures outcome.Drained? ==> popped == pushed
      ensures outcome.Got? ==> View() == old(View()).Take()
      ensures outcome.Got? ==>
                && old(View().Live()) == [outcome.item] + View().Live()
                && popped == old(popped) + [outcome.item]
    {
      if count <= 0 && !done {
        return Waits;
      }
      if count <= 0 && done {
        return Drained;
      }
      TakeRemovesOldest(View());
      ghost var before := View();
      outcome := Got(items[outIdx]);
      popped := popped + [items[outIdx]];
      outIdx := (outIdx + 1) % items.Length;
      count := count - 1;
      assert View() == before.Take();
    }

    method SetDone()
      requires Valid()
      modifies this`done
      ensures Valid()
      ensures View() == old(View()).(done := true)
    {
      done := true;
    }
  }
}
