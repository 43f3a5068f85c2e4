/**
 Properties of `BorderRects` that relate several operations: structural
 equality, the characterisation of each constructor by its edges, the
 agreement of `inflate_mut` with `+= all(..)`, and the array round trip.
 */
module BorderRectLemmas {
  import opened BorderRects

  /** Two borders are equal exactly when they agree on every edge
      (the derived structural equality). */
  lemma EqualIffEdgesAgree(a: BorderRect, b: BorderRect)
    ensures a == b <==> forall e :: Get(a, e) == Get(b, e)
  {
    if forall e :: Get(a, e) == Get(b, e) {
      assert Get(a, Left) == Get(b, Left);
      assert Get(a, Right) == Get(b, Right);
      assert Get(a, Top) == Get(b, Top);
      assert Get(a, Bottom) == Get(b, Bottom);
    }
  }

  /** `all(x)` is the one border whose every edge is `x`. */
  lemma AllIffUniform(b: BorderRect, extent: Scalar)
    ensures b == All(extent) <==> forall e :: Get(b, e) == extent
  {
    EqualIffEdgesAgree(b, All(extent));
  }

  /** `axes(h, v)` is the one border whose horizontal edges are `h` and
      whose vertical edges are `v`. */
  lemma AxesIffAxisUniform(b: BorderRect, horizontal: Scalar, vertical: Scalar)
    ensures b == Axes(horizontal, vertical) <==>
      forall e :: Get(b, e) == (if AxisOf(e) == Horizontal then horizontal else vertical)
  {
    EqualIffEdgesAgree(b, Axes(horizontal, vertical));
  }

  /** `ZERO` is `all(0)`: every edge is zero and so is each axis sum. */
  lemma ZeroIsEmpty()
    ensures Zero == All(0.0)
    ensures forall e :: Get(Zero, e) == 0.0
    ensures SumAxes(Zero) == (0.0, 0.0)
  {
  }

  /** Each component of `sum_axes` depends only on the two edges of its own axis. */
  lemma SumAxesAxisLocal(a: BorderRect, b: BorderRect, ax: Axis)
    requires forall e :: AxisOf(e) == ax ==> Get(a, e) == Get(b, e)
    ensures Along(SumAxes(a), ax) == Along(SumAxes(b), ax)
  {
  }

  /** `axes(h, v).sum_axes()` is `(h + h, v + v)`; for instance
      `axes(4, 2).sum_axes() == (8, 4)`. */
  lemma SumAxesOfAxes(horizontal: Scalar, vertical: Scalar)
    ensures SumAxes(Axes(horizontal, vertical)) == (horizontal + horizontal, vertical + vertical)
    ensures SumAxes(Axes(4.0, 2.0)) == (8.0, 4.0)
  {
  }

  /** `inflate_mut(e)` leaves the border exactly as `+= all(e)` does. */
  lemma InflateMutIsAddAssignAll(b: BorderRect, expansion: Scalar)
    ensures InflateMut(b, expansion) == AddAssign(b, All(expansion))
  {
  }

  /** Inflating `ZERO` by `x` yields `all(x)`; for instance by 3. */
  lemma InflateZeroIsAll(expansion: Scalar)
    ensures InflateMut(Zero, expansion) == All(expansion)
    ensures InflateMut(Zero, 3.0) == BorderRect(3.0, 3.0, 3.0, 3.0)
  {
  }

  /** The conversion from a scalar is `all` of that scalar. */
  lemma FromScalarIsAll(extent: Scalar)
    ensures FromScalar(extent) == All(extent)
  {
  }

  /** Reading the fields back after converting from an array returns the array. */
  lemma FieldsOfFromArray(a: Array4)
    ensures Fields(FromArray(a)) == a
  {
  }

  /** Converting the fields read back from a border rebuilds that border. */
  lemma FromArrayOfFields(b: BorderRect)
    ensures FromArray(Fields(b)) == b
  {
  }

  /** Distinct arrays convert to distinct borders: nothing is dropped or merged. */
  lemma FromArrayInjective(a: Array4, c: Array4)
    ensures FromArray(a) == FromArray(c) <==> a == c
  {
  }

  /** `[1, 2, 3, 4]` converts to left 1, right 2, top 3, bottom 4. */
  lemma FromArrayExample()
    ensures FromArray([1.0, 2.0, 3.0, 4.0]) == BorderRect(1.0, 2.0, 3.0, 4.0)
  {
  }
}
