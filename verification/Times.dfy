/** Request times on a clock that never goes back. */
module Times {
  ghost predicate NonDecreasing(ts: seq<real>) {
    forall i, j :: 0 <= i < j < |ts| ==> ts[i] <= ts[j]
  }
}
