# BorderRect

A Dafny model of `BorderRect` from Bevy's sprite crate. A `BorderRect` holds the border extents
of a rectangle: four insets (`left`, `right`, `top`, `bottom`), each measured inward from its own
edge. It is the parameter object of border-based (9-slice) texture scaling. The model covers:

- the value type itself;
- its named constructors `ZERO`, `all` and `axes`;
- the query `sum_axes`;
- the in-place mutators `inflate_mut` and `+=`;
- the conversions from `f32` and from `[f32; 4]`.

Layout:

- `border_rect.dfy` (module `BorderRects`) holds the datatype and one function per operation.
  It also holds an edge-indexed view of a border: `Edge` and `Get(b, e)`, the extent along edge
  `e`. The contracts are stated in terms of that view. It is an independent reference
  definition of what each operation puts in which field.
- `border_rect_lemmas.dfy` (module `BorderRectLemmas`) holds the properties that relate several
  operations.

Modelling decisions:

- An `f32` is a mathematical real (`Scalar`). Every operation is field-wise copying or one
  addition per field, so the structural facts hold whatever the rounding.
- No associativity or commutativity of `+=` is stated. The code does not promise them, and
  IEEE-754 addition breaks associativity. The one scalar law a property relies on is
  `0 + x == x` (`BorderRectLemmas.InflateZeroIsAll`). `f32` keeps it under `==` for every
  non-NaN `x`.
- The code validates nothing, and neither does the model: every operation is total, and
  extents may go negative.
- The mutators `inflate_mut` and `add_assign` act on `&mut self`. They are modelled as functions
  that return the value `self` holds afterwards. The right-hand side of `+=` is passed by value,
  so it keeps its extents.
- `Vec2` (the result of `sum_axes`) is a plain `(x, y)` pair.
- `[f32; 4]` is a sequence of length 4 (`Array4`).

## Model

| member | source | states |
|---|---|---|
| BorderRects.All | crates/bevy_sprite/src/texture_slice/border_rect.rs:28-35 | every edge of `all(extent)` has extent `extent` |
| BorderRects.Axes | crates/bevy_sprite/src/texture_slice/border_rect.rs:40-47 | each edge of `axes(h, v)` is `h` if it lies on the horizontal axis (left, right) and `v` if it lies on the vertical axis (top, bottom) |
| BorderRects.SumAxes | crates/bevy_sprite/src/texture_slice/border_rect.rs:49-51 | the horizontal component is left plus right and the vertical component is top plus bottom, for any extents including negative ones |
| BorderRects.InflateMut | crates/bevy_sprite/src/texture_slice/border_rect.rs:54-59 | each of the four edges grows by exactly `expansion`, with no bound, so an edge may become negative |
| BorderRects.AddAssign | crates/bevy_sprite/src/texture_slice/border_rect.rs:63-68 | each edge of the left-hand side becomes itself plus the SAME edge of `rhs`, so no edge is mixed with another |
| BorderRects.FromScalar | crates/bevy_sprite/src/texture_slice/border_rect.rs:71-75 | converting a scalar gives a border whose every edge is that scalar |
| BorderRects.FromArray | crates/bevy_sprite/src/texture_slice/border_rect.rs:77-86 | array element `i` becomes the extent of the `i`-th edge in the order left, right, top, bottom |
| BorderRects.Fields | crates/bevy_sprite/src/texture_slice/border_rect.rs:10-19 | reading the public fields back yields the extents in the array-conversion order left, right, top, bottom |
| BorderRectLemmas.EqualIffEdgesAgree | crates/bevy_sprite/src/texture_slice/border_rect.rs:8-19 | the derived equality is structural: two borders are equal exactly when they agree on all four edges |
| BorderRectLemmas.AllIffUniform | crates/bevy_sprite/src/texture_slice/border_rect.rs:28-35 | a border equals `all(x)` if and only if every edge is `x` |
| BorderRectLemmas.AxesIffAxisUniform | crates/bevy_sprite/src/texture_slice/border_rect.rs:40-47 | a border equals `axes(h, v)` if and only if left and right are `h` and top and bottom are `v` |
| BorderRectLemmas.ZeroIsEmpty | crates/bevy_sprite/src/texture_slice/border_rect.rs:22-23 | `ZERO` is `all(0)`: every edge is zero and `sum_axes` is `(0, 0)` |
| BorderRectLemmas.SumAxesAxisLocal | crates/bevy_sprite/src/texture_slice/border_rect.rs:49-51 | each component of `sum_axes` depends only on the two edges of its own axis |
| BorderRectLemmas.SumAxesOfAxes | crates/bevy_sprite/src/texture_slice/border_rect.rs:40-51 | `axes(h, v).sum_axes()` is `(h + h, v + v)`, and `axes(4, 2).sum_axes()` is `(8, 4)` |
| BorderRectLemmas.InflateMutIsAddAssignAll | crates/bevy_sprite/src/texture_slice/border_rect.rs:54-68 | `inflate_mut(e)` leaves the border exactly as `+= all(e)` does |
| BorderRectLemmas.InflateZeroIsAll | crates/bevy_sprite/src/texture_slice/border_rect.rs:23-59 | inflating `ZERO` by `x` yields `all(x)`, for instance `all(3)` for `x = 3` |
| BorderRectLemmas.FromScalarIsAll | crates/bevy_sprite/src/texture_slice/border_rect.rs:71-75 | the conversion from a scalar is `all` of that scalar |
| BorderRectLemmas.FieldsOfFromArray | crates/bevy_sprite/src/texture_slice/border_rect.rs:77-86 | converting an array and reading the fields back returns the original array |
| BorderRectLemmas.FromArrayOfFields | crates/bevy_sprite/src/texture_slice/border_rect.rs:77-86 | converting the fields read back from a border rebuilds that border |
| BorderRectLemmas.FromArrayInjective | crates/bevy_sprite/src/texture_slice/border_rect.rs:77-86 | two arrays convert to the same border if and only if they are equal, so the conversion drops and merges nothing |
| BorderRectLemmas.FromArrayExample | crates/bevy_sprite/src/texture_slice/border_rect.rs:77-86 | `[1, 2, 3, 4]` converts to left 1, right 2, top 3, bottom 4 |

## Left out

- IEEE-754 `f32` semantics are not modelled: rounding, NaN, infinities and signed zero. Extents are reals.
- The `Default` and `Reflect` derives and the `bevy_reflect` registration (lines 8-9) are reflection plumbing. The derived `Default` is not modelled. The derived equality is modelled structurally; its NaN behaviour is left out with the rest of `f32`.
- `bevy_math::Vec2` is not part of this model. The `sum_axes` result is a plain pair.
- The 9-slice layout computation that consumes a `BorderRect` is not part of this model.
