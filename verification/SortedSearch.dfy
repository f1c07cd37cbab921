/** Lower bounds in sequences of integers. */
module SortedSearch {

  /** The index of the first value that is not below the key. */
  function FirstAtLeast(values: seq<int>, key: int): (s: nat)
    ensures s <= |values|
    ensures s > 0 ==> values[s - 1] < key
    ensures forall i | s <= i < |values| :: key <= values[i]
  {
    if values == [] then 0
    else if values[|values| - 1] < key then |values|
    else FirstAtLeast(values[..|values| - 1], key)
  }

  lemma FirstAtLeastIs(values: seq<int>, key: int, s: nat)
    requires s <= |values| && forall i, j | 0 <= i < j < |values| :: values[i] < values[j]
    requires (s > 0 ==> values[s - 1] < key) && (s < |values| ==> key <= values[s])
    ensures s == FirstAtLeast(values, key)
  {
  }
}
