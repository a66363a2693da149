/** Facts about sequences shared by the managers.

    Swift's `Set` and `Dictionary` iterate in an unspecified order. The model
    represents one such iteration as a sequence that `Enumerates` the
    collection: every element exactly once, in some order. */
module Sequences {

  predicate NoDuplicates<T(==)>(s: seq<T>) {
    forall i, j :: 0 <= i < j < |s| ==> s[i] != s[j]
  }

  /** `s` lists every element of `xs` exactly once. */
  predicate Enumerates<T(==)>(s: seq<T>, xs: set<T>) {
    && NoDuplicates(s)
    && (forall i :: 0 <= i < |s| ==> s[i] in xs)
    && (forall x :: x in xs ==> x in s)
  }

  /** One iteration order of a set: the choice of the next element is left open,
      just as Swift leaves the order of a `Set` or of a dictionary's keys open. */
  method Enumerate<T(==)>(xs: set<T>) returns (s: seq<T>)
    ensures Enumerates(s, xs)
    ensures |s| == |xs|
  {
    s := [];
    var rest := xs;
    while rest != {}
      invariant rest <= xs
      invariant NoDuplicates(s)
      invariant forall i :: 0 <= i < |s| ==> s[i] in xs && s[i] !in rest
      invariant forall x :: x in xs && x !in rest ==> x in s
      invariant |s| + |rest| == |xs|
      decreases |rest|
    {
      var x :| x in rest;
      s := s + [x];
      rest := rest - {x};
    }
  }
}
