/**
 * The shared bounded buffer (`LinkedBlockingQueue` of a fixed capacity),
 * seen by one thread at a time: an operation that would block returns
 * instead, saying so.
 */
module BoundedQueues {

  import opened Wrappers

  class BoundedQueue<T> {
    const capacity: nat
    var contents: seq<T>

    ghost predicate Valid()
      reads this
    {
      0 < capacity && |contents| <= capacity
    }

    /** `new LinkedBlockingQueue(capacity)`; a capacity of zero is refused. */
    constructor (capacity: nat)
      requires 0 < capacity
      ensures Valid() && this.capacity == capacity && contents == []
    {
      this.capacity := capacity;
      contents := [];
    }

    /** `remainingCapacity()`. */
    function RemainingCapacity(): (n: nat)
      reads this
      requires Valid()
      ensures n + |contents| == capacity
      ensures n == 0 <==> |contents| == capacity
    {
      capacity - |contents|
    }

    /**
     * `offer(x)`, and `put(x)` where it does not block: `x` is added at the
     * tail when there is room, and nothing changes otherwise.
     */
    method Offer(x: T) returns (added: bool)
      requires Valid()
      modifies this
      ensures Valid()
      ensures added <==> |old(contents)| < capacity
      ensures contents == if added then old(contents) + [x] else old(contents)
    {
      added := |contents| < capacity;
      if added {
        contents := contents + [x];
      }
    }

    /** `take()`, where it does not block: the head, removed; `None` where the queue is empty. */
    method Take() returns (x: Option<T>)
      requires Valid()
      modifies this
      ensures Valid()
      ensures old(contents) == [] ==> x.None? && contents == []
      ensures old(contents) != [] ==> x == Some(old(contents)[0]) && contents == old(contents)[1..]
    {
      if contents == [] {
        x := None;
      } else {
        x := Some(contents[0]);
        contents := contents[1..];
      }
    }

    /** `clear()`. */
    method Clear()
      requires Valid()
      modifies this
      ensures Valid() && contents == []
    {
      contents := [];
    }
  }
}
