/**
 * The growable array of src/dicm-item.h that holds the stack of item
 * readers: size, capacity and a heap block that realloc doubles when it
 * fills up.  The element type is left generic.
 */
module ItemArray {
  import opened Wrappers

  /** struct array: `data` is null exactly when nothing was ever allocated. */
  class Array<T(0)> {
    var size: nat
    var capacity: nat
    var data: array?<T>

    ghost predicate Valid()
      reads this
    {
      size <= capacity &&
      (data == null <==> capacity == 0) &&
      (data != null ==> data.Length == capacity)
    }

    /** The elements in use, data[0 .. size-1]. */
    ghost function Contents(): seq<T>
      requires Valid()
      reads this, data
    {
      if data == null then [] else data[..size]
    }

    /** array_create: size and capacity both n; no block for n == 0. */
    constructor Create(n: nat)
      ensures Valid() && size == n && capacity == n
      ensures data == null <==> n == 0
      ensures data != null ==> fresh(data)
      ensures |Contents()| == n
    {
      size := n;
      capacity := n;
      if n != 0 {
        data := new T[n];
      } else {
        data := null;
      }
    }

    /** array_at: the element at `index`, or nothing past the end. */
    method At(index: nat) returns (r: Option<T>)
      requires Valid()
      ensures index < size ==> r == Some(Contents()[index])
      ensures index >= size ==> r == None
    {
      if index < size {
        return Some(data[index]);
      }
      return None;
    }

    /** array_push_back: the item goes last and the others stay; once the
     *  new size reaches the capacity the block is reallocated to twice the
     *  new size, keeping its old contents. */
    method PushBack(item: T)
      requires Valid()
      modifies this, data
      ensures Valid()
      ensures Contents() == old(Contents()) + [item]
      ensures size == old(size) + 1 && size < capacity
      ensures old(size) + 1 >= old(capacity) ==> capacity == 2 * size && fresh(data)
      ensures old(size) + 1 < old(capacity) ==> capacity == old(capacity) && data == old(data)
    {
      size := size + 1;
      if size >= capacity {
        var grown := new T[2 * size];
        if data != null {
          forall i | 0 <= i < capacity {
            grown[i] := data[i];
          }
        }
        capacity := 2 * size;
        data := grown;
        data[size - 1] := item;
      } else {
        data[size - 1] := item;
      }
    }

    /** array_back: the last element in use. */
    method Back() returns (r: T)
      requires Valid() && size > 0
      ensures r == Contents()[size - 1]
    {
      r := data[size - 1];
    }

    /** array_pop_back: one element fewer; the block is untouched. */
    method PopBack()
      requires Valid() && size > 0
      modifies this
      ensures Valid()
      ensures size == old(size) - 1 && capacity == old(capacity) && data == old(data)
      ensures Contents() == old(Contents())[..size]
    {
      size := size - 1;
    }
  }

  /** Pushing an item and popping it again is a round trip: the pushed item
   *  is the back, and the elements before it are unchanged. */
  method PushThenPop<T(0)>(a: Array<T>, item: T)
    requires a.Valid()
    modifies a, a.data
    ensures a.Valid() && a.Contents() == old(a.Contents()) && a.size == old(a.size)
  {
    a.PushBack(item);
    var b := a.Back();
    assert b == item;
    a.PopBack();
  }
}
