/** Small things about sets and sequences. */
module Collections {

  /** No element occurs twice. */
  predicate Distinct<T(==)>(xs: seq<T>) { forall i, j :: 0 <= i < j < |xs| ==> xs[i] != xs[j] }

  method AnyOf<T>(s: set<T>) returns (c: T)
    requires s != {}
    ensures c in s
  {
    c :| c in s;
  }
}
