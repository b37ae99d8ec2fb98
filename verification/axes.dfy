/** The two axes of the positioning stage and per-axis records.  The Python
    code keeps per-axis state in dictionaries keyed by 'x' and 'y'; here each
    such dictionary is a two-field record indexed by `Axis`. */
module Axes {

  datatype Axis = X | Y

  /** The axis that is not `a`. */
  function Other(a: Axis): (b: Axis)
    ensures b != a
  {
    if a == X then Y else X
  }

  /** One value per axis. */
  datatype PerAxis<T> = PerAxis(x: T, y: T) {

    function Get(a: Axis): T {
      match a
      case X => x
      case Y => y
    }

    /** The record with the entry for `a` replaced by `v`; the other entry
        is kept. */
    function Set(a: Axis, v: T): (r: PerAxis<T>)
      ensures r.Get(a) == v
      ensures r.Get(Other(a)) == Get(Other(a))
    {
      match a
      case X => PerAxis(v, y)
      case Y => PerAxis(x, v)
    }
  }
}
