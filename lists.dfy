/** A mutable, caller-owned Java `List` (an `ArrayList`), shared by reference. */
module Lists {

  class MutableList<T> {
    /** The elements, in insertion order. */
    var elems: seq<T>

    /** `new ArrayList<>()` */
    constructor Empty()
      ensures elems == []
    {
      elems := [];
    }

    /** `new ArrayList<>(other)`: a fresh list holding a copy of `s`. */
    constructor CopyOf(s: seq<T>)
      ensures elems == s
    {
      elems := s;
    }

    /** `list.add(x)`: appends at the end. */
    method Add(x: T)
      modifies this
      ensures elems == old(elems) + [x]
    {
      elems := elems + [x];
    }
  }
}
