/** A fixed set of slots handed out from a LIFO free list (02_LOB_Engine/include/ObjectPool.hpp). */
module ObjectPools {
  import opened MatchingTypes

  class ObjectPool<T(==)> {
    const storage: seq<T>
    var freeList: seq<T>

    /** The slots handed out and not returned. */
    ghost var used: set<T>

    /** The free list has no duplicates and is exactly the complement of the used slots. */
    ghost predicate Valid()
      reads this
    {
      && Distinct(freeList)
      && (forall i {:trigger freeList[i]} | 0 <= i < |freeList| :: freeList[i] in storage && freeList[i] !in used)
      && (forall x {:trigger x in used} | x in used :: x in storage)
      && (forall i {:trigger storage[i]} | 0 <= i < |storage| :: storage[i] in used || storage[i] in freeList)
      && |freeList| + |used| == |storage|
    }

    constructor (slots: seq<T>)
      requires Distinct(slots)
      ensures Valid() && storage == slots && used == {} && freeList == slots
    {
      storage := slots;
      freeList := [];
      used := {};
      new;
      for i := 0 to |slots|
        invariant freeList == slots[..i] && used == {} && storage == slots
      {
        freeList := freeList + [slots[i]];
      }
    }

    /** The last slot of the free list, or nothing when the pool is exhausted. */
    method Allocate() returns (r: Option<T>)
      requires Valid()
      modifies this
      ensures Valid()
      ensures r.None? <==> old(freeList) == []
      ensures r.None? ==> freeList == old(freeList) && used == old(used)
      ensures r.Some? ==> old(freeList) == freeList + [r.value]
      ensures r.Some? ==> r.value !in old(used) && used == old(used) + {r.value}
    {
      if freeList == [] {
        return None;
      }
      var ptr := freeList[|freeList|-1];
      freeList := freeList[..|freeList|-1];
      used := used + {ptr};
      return Some(ptr);
    }

    method Deallocate(ptr: T)
      requires Valid() && ptr in used
      modifies this
      ensures Valid() && freeList == old(freeList) + [ptr] && used == old(used) - {ptr}
    {
      freeList := freeList + [ptr];
      used := used - {ptr};
    }

    method Available() returns (n: nat)
      requires Valid()
      ensures n == |storage| - |used|
    {
      n := |freeList|;
    }
  }
}
