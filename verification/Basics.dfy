/** What several components share. */
module Basics {

  datatype Option<T> = None | Some(value: T)

  type Byte = n: nat | n < 256

  function Min(a: nat, b: nat): nat {
    if a < b then a else b
  }

  predicate Distinct<T(==)>(s: seq<T>) {
    forall i, j :: 0 <= i < j < |s| ==> s[i] != s[j]
  }
}
