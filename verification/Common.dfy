/** What several modules share. */
module Common {

  datatype Option<+T> = None | Some(value: T)

  /** How a check or a step ends. The last way is that a list is followed which is missing. */
  datatype Ending = Passed | Refused | Followed

  /** The values from `lo` to `hi`; none if `hi` is the lower one. */
  function Interval(lo: nat, hi: nat): (r: set<nat>)
    ensures forall x: nat :: x in r <==> lo <= x <= hi
    decreases hi + 1 - lo
  {
    if hi < lo then {} else {lo} + Interval(lo + 1, hi)
  }
}
