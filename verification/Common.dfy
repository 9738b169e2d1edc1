/** What several modules share. */
module Common {

  datatype Option<+T> = None | Some(value: T)

  /** Percentages are in hundredths of a percent. */
  const HUNDRED_PERCENT: nat := 10000

  predicate NoDuplicates<T(==)>(s: seq<T>) {
    forall i, j :: 0 <= i < j < |s| ==> s[i] != s[j]
  }
}
