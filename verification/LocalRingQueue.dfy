/** The bounded ring that holds the queued tasks (ruvia-core/include/ruvia/core/local_ring_queue.h):
    a fixed array, a head and a size. */
module LocalRingQueue {
  /** The physical index `offset` places after `head`. */
  function SlotIndex(capacity: nat, head: nat, offset: nat): nat
    requires head < capacity && offset <= capacity
  {
    var remaining := capacity - head;
    if offset >= remaining then offset - remaining else head + offset
  }

  class RingQueue<T(0)> {
    const storage: array<T>
    var head: nat
    var size: nat

    ghost predicate Valid()
      reads this
    {
      head < storage.Length && size <= storage.Length
    }

    /** The queued values, oldest first. */
    ghost function Contents(): (r: seq<T>)
      requires Valid()
      reads this, storage
      ensures |r| == size
      ensures forall k :: 0 <= k < size ==> SlotIndex(storage.Length, head, k) < storage.Length
      ensures forall k :: 0 <= k < size ==> r[k] == storage[SlotIndex(storage.Length, head, k)]
    {
      ContentsFrom(0)
    }

    ghost function ContentsFrom(k: nat): (r: seq<T>)
      requires Valid() && k <= size
      reads this, storage
      ensures |r| == size - k
      ensures forall j :: k <= j < size ==> SlotIndex(storage.Length, head, j) < storage.Length
      ensures forall j :: k <= j < size ==> r[j - k] == storage[SlotIndex(storage.Length, head, j)]
      decreases size - k
    {
      if k == size then [] else [storage[SlotIndex(storage.Length, head, k)]] + ContentsFrom(k + 1)
    }

    constructor (capacity: nat)
      requires capacity > 0
      ensures Valid() && fresh(storage) && storage.Length == capacity && Contents() == []
    {
      storage := new T[capacity];
      head, size := 0, 0;
    }

    /** try_push: fails exactly when the ring is full. */
    method TryPush(value: T) returns (pushed: bool)
      requires Valid()
      modifies this`size, storage
      ensures Valid() && pushed == (old(size) < storage.Length)
      ensures Contents() == if pushed then old(Contents()) + [value] else old(Contents())
    {
      pushed := size < storage.Length;
      if pushed {
        ghost var before := Contents();
        storage[SlotIndex(storage.Length, head, size)] := value;
        size := size + 1;
        assert Contents() == before + [value];
      }
    }

    /** try_pop: fails exactly when the ring is empty. */
    method TryPop(fallback: T) returns (popped: bool, value: T)
      requires Valid()
      modifies this`head, this`size
      ensures Valid() && popped == (old(Contents()) != [])
      ensures if popped then old(Contents()) == [value] + Contents() else Contents() == old(Contents())
    {
      popped, value := size > 0, fallback;
      if popped {
        ghost var before := Contents();
        value := storage[head];
        head := SlotIndex(storage.Length, head, 1);
        size := size - 1;
        assert before == [value] + Contents();
      }
    }
  }
}
