/**
 The border extents of a rectangle: four insets (left, right, top, bottom),
 each measured inward from its own edge. A `BorderRect` is the parameter
 object of border-based (9-slice) texture scaling.

 The source stores each extent as an `f32`; here an extent is a `Scalar`,
 a mathematical real. Every operation is plain field-wise addition or copying,
 so the structural facts proved about it (which field receives which value,
 in which order) do not depend on rounding. Neither associativity nor
 commutativity of `+=` is stated, because IEEE-754 addition does not keep
 associativity. The one scalar law a property relies on is `0 + x == x`
 (inflating `Zero`), which `f32` keeps under `==` for every non-NaN `x`.
 */
module BorderRects {

  /** An `f32` extent, without rounding, NaN or infinities. */
  type Scalar = real

  /** The `Vec2` returned by `SumAxes`, as a plain `(x, y)` pair. */
  type Vec2 = (Scalar, Scalar)

  /** The four-element array `[left, right, top, bottom]` a border converts from. */
  type Array4 = a: seq<Scalar> | |a| == 4 witness [0.0, 0.0, 0.0, 0.0]

  datatype BorderRect = BorderRect(left: Scalar, right: Scalar, top: Scalar, bottom: Scalar)

  /** The four edges of a rectangle; each names one field of a `BorderRect`. */
  datatype Edge = Left | Right | Top | Bottom

  /** The two axes: left and right lie on the horizontal one, top and bottom on the vertical one. */
  datatype Axis = Horizontal | Vertical

  /** The order of the fields in the array conversion. */
  const EdgeOrder: seq<Edge> := [Left, Right, Top, Bottom]

  /** The extent of `b` along edge `e`. */
  function Get(b: BorderRect, e: Edge): Scalar {
    match e
    case Left => b.left
    case Right => b.right
    case Top => b.top
    case Bottom => b.bottom
  }

  /** The axis an edge's extent is measured along. */
  function AxisOf(e: Edge): Axis {
    if e == Left || e == Right then Horizontal else Vertical
  }

  /** The component of a `Vec2` that belongs to axis `ax`. */
  function Along(v: Vec2, ax: Axis): Scalar {
    if ax == Horizontal then v.0 else v.1
  }

  /** A border with the same `extent` along each edge. */
  function All(extent: Scalar): (r: BorderRect)
    ensures forall e :: Get(r, e) == extent
  {
    BorderRect(extent, extent, extent, extent)
  }

  /** The border with zero extent along each edge. */
  const Zero: BorderRect := All(0.0)

  /** A border whose left and right extents are `horizontal` and whose
      top and bottom extents are `vertical`. */
  function Axes(horizontal: Scalar, vertical: Scalar): (r: BorderRect)
    ensures forall e :: Get(r, e) == (if AxisOf(e) == Horizontal then horizontal else vertical)
  {
    BorderRect(horizontal, horizontal, vertical, vertical)
  }

  /** The total extent the border takes up along each axis: the horizontal
      component pairs the left and right edges, the vertical one pairs the
      top and bottom edges. */
  function SumAxes(b: BorderRect): (r: Vec2)
    ensures Along(r, Horizontal) == Get(b, Left) + Get(b, Right)
    ensures Along(r, Vertical) == Get(b, Top) + Get(b, Bottom)
  {
    (b.left + b.right, b.top + b.bottom)
  }

  /** `inflate_mut`: the border after adding `expansion` to every edge, without
      any bound; a negative expansion shrinks it and may leave extents negative. */
  function InflateMut(b: BorderRect, expansion: Scalar): (r: BorderRect)
    ensures forall e :: Get(r, e) == Get(b, e) + expansion
  {
    BorderRect(b.left + expansion, b.right + expansion, b.top + expansion, b.bottom + expansion)
  }

  /** `lhs += rhs`: the value `lhs` holds afterwards. Each edge of `lhs`
      is increased by the same edge of `rhs`; `rhs` is passed by value and
      keeps its own extents. */
  function AddAssign(lhs: BorderRect, rhs: BorderRect): (r: BorderRect)
    ensures forall e :: Get(r, e) == Get(lhs, e) + Get(rhs, e)
  {
    BorderRect(lhs.left + rhs.left, lhs.right + rhs.right, lhs.top + rhs.top, lhs.bottom + rhs.bottom)
  }

  /** `From<f32>`: a border converted from a single extent. */
  function FromScalar(extent: Scalar): (r: BorderRect)
    ensures forall e :: Get(r, e) == extent
  {
    All(extent)
  }

  /** `From<[f32; 4]>`: element `i` of the array becomes the extent of edge
      `EdgeOrder[i]`, with no reordering and no validation. */
  function FromArray(a: Array4): (r: BorderRect)
    ensures forall i :: 0 <= i < 4 ==> Get(r, EdgeOrder[i]) == a[i]
  {
    BorderRect(a[0], a[1], a[2], a[3])
  }

  /** The four extents read back, in the order of the array conversion. */
  function Fields(b: BorderRect): (r: Array4)
    ensures forall i :: 0 <= i < 4 ==> r[i] == Get(b, EdgeOrder[i])
  {
    [b.left, b.right, b.top, b.bottom]
  }
}
