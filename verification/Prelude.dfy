/** Notions that several components share. */
module Prelude {
  datatype Option<T> = None | Some(value: T)

  ghost predicate Distinct<T>(s: seq<T>) {
    forall i, j :: 0 <= i < j < |s| ==> s[i] != s[j]
  }

  function SetOf<T(==)>(s: seq<T>): set<T> {
    set x | x in s
  }

  function Abs(x: real): real {
    if x < 0.0 then -x else x
  }

  function Min(a: int, b: int): int {
    if a < b then a else b
  }
}
