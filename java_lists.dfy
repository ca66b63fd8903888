/**
 * A `java.util.ArrayList` as the builders use it: an object whose contents `add`
 * extends in place, so that two holders of the same list see each other's additions.
 */
module JavaLists {
  import opened Wrappers

  class JavaList<T> {
    var elems: seq<T>

    /** `new ArrayList<>()`. */
    constructor ()
      ensures elems == []
    {
      elems := [];
    }

    /** `new ArrayList<>(source)`: a fresh list with the same elements. */
    constructor Copy(source: seq<T>)
      ensures elems == source
    {
      elems := source;
    }

    /** `add(x)`: appends at the end. */
    method Add(x: T)
      modifies this
      ensures elems == old(elems) + [x]
    {
      elems := elems + [x];
    }

    /** `remove(index)`: drops the element at `index`; later elements shift down by one. */
    method RemoveAt(index: nat)
      requires index < |elems|
      modifies this
      ensures elems == old(elems[..index] + elems[index + 1..])
    {
      elems := elems[..index] + elems[index + 1..];
    }
  }

  /**
   * `copyOrNull(list)`: null for null, otherwise a new list with the same elements. A copy
   * is a value here, so what the holder does to `list` afterwards cannot reach it.
   */
  function CopyOrNull<T>(list: JavaList?<T>): (r: Option<seq<T>>)
    reads list
    ensures r.None? <==> list == null
    ensures list != null ==> r == Some(list.elems)
  {
    if list == null then None else Some(list.elems)
  }
}
