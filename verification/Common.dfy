/** Failure-compatible values shared by every component. */
module Common {
  datatype Option<+T> = None | Some(value: T)

  datatype Result<+T, +E> = Ok(value: T) | Err(error: E)
}

/** Clock readings. */
module Clock {
  /** Along `s` the clock never steps back. */
  ghost predicate InTimeOrder<T(!new)>(s: seq<T>, time: T -> real) {
    forall i, j :: 0 <= i < j < |s| ==> time(s[i]) <= time(s[j])
  }

  ghost predicate Ascending(readings: seq<real>) {
    InTimeOrder(readings, (t: real) => t)
  }

  lemma {:induction false} AscendingParts(a: seq<real>, b: seq<real>)
    requires Ascending(a + b)
    ensures Ascending(a) && Ascending(b)
    ensures forall i, j :: 0 <= i < |a| && 0 <= j < |b| ==> a[i] <= b[j]
  {
    var all := a + b;
    assert forall i :: 0 <= i < |a| ==> a[i] == all[i];
    forall i, j | 0 <= i < j < |b| ensures b[i] <= b[j] { assert all[|a| + i] <= all[|a| + j]; }
    forall i, j | 0 <= i < |a| && 0 <= j < |b| ensures a[i] <= b[j] { assert all[i] <= all[|a| + j]; }
  }
}
