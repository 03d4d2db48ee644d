/** Optional values: nullable columns, absent dictionary entries, missing query parameters;
    and two facts about collections. */
module Wrappers {
  datatype Option<+T> = None | Some(value: T)

  lemma ConcatIsAssociative<T>(a: seq<T>, b: seq<T>, c: seq<T>)
    ensures a + (b + c) == (a + b) + c
  {
  }

  /** A finite set of numbers leaves one out. */
  lemma SomethingNew(known: set<nat>) returns (k: nat)
    ensures k !in known
  {
    k := 0;
    var rest := known;
    while rest != {}
      invariant forall i | i in known && i !in rest :: i < k
      decreases rest
    {
      var i :| i in rest;
      rest := rest - {i};
      if k <= i {
        k := i + 1;
      }
    }
  }
}
