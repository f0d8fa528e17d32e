/** Views of two-dimensional arrays (time by bin) shared by the modules. */
module Grid {

  /** Column i of a two-dimensional array: one bin over time. */
  function Column<T>(a: array2<T>, i: nat): (col: seq<T>)
    requires i < a.Length1
    reads a
    ensures |col| == a.Length0
    ensures forall t :: 0 <= t < a.Length0 ==> col[t] == a[t, i]
  {
    seq(a.Length0, t requires 0 <= t < a.Length0 reads a => a[t, i])
  }
}
