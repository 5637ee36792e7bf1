/** Notions shared by the models of several components. */
module Prelude {

  datatype Option<+T> = None | Some(value: T)

  /** How much a condition adds to a count. */
  function Indicator(b: bool): int { if b then 1 else 0 }

  ghost predicate Distinct<E>(s: seq<E>) { forall i, j :: 0 <= i < j < |s| ==> s[i] != s[j] }
}
