module Common {
  /** The number of values of a 32-bit word. */
  const WORD := 0x1_0000_0000

  datatype Option<+T> = None | Some(value: T)

  ghost predicate NoDup(q: seq<int>) {
    forall i, j :: 0 <= i < j < |q| ==> q[i] != q[j]
  }
}
