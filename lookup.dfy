/** ActiveRecord's `find_by` over a table given as a sequence of rows in scan order. */
module Lookup {
  import opened Wrappers

  /** Index of the first row that matches, or None when no row does. */
  function FindIndex<T>(rows: seq<T>, matches: T -> bool): (r: Option<nat>)
    ensures r.Some? ==> r.value < |rows| && matches(rows[r.value])
    ensures r.Some? ==> forall j :: 0 <= j < r.value ==> !matches(rows[j])
    ensures r.None? <==> forall j :: 0 <= j < |rows| ==> !matches(rows[j])
  {
    if rows == [] then None
    else if matches(rows[0]) then Some(0)
    else match FindIndex(rows[1..], matches)
      case None => None
      case Some(i) => Some(i + 1)
  }

  /** `find_by`: the first matching row, or None (`nil`) when no row matches. */
  function FindBy<T>(rows: seq<T>, matches: T -> bool): (r: Option<T>)
    ensures r.Some? ==> r.value in rows && matches(r.value)
    ensures r.None? <==> forall x :: x in rows ==> !matches(x)
  {
    match FindIndex(rows, matches)
    case None => None
    case Some(i) => Some(rows[i])
  }
}
