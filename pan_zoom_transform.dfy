/** The map's view transform: a screen point is `content * k + (x, y)`. Zooming keeps the
    content point under the cursor fixed, and centring puts a content point at the middle of
    the viewport. Numbers are exact reals, so there is no NaN or Infinity; the "not finite"
    half of the source's checks has nothing to test. */
module PanZoomTransform {
  import opened Wrappers

  datatype Transform = Transform(x: real, y: real, k: real)

  datatype Point = Point(x: real, y: real)

  /** The thrown errors: a bad requested scale, or a bad current scale. */
  datatype TransformError = InvalidScale(scale: real) | InvalidTransformScale(k: real)

  /** `Math.min(hi, Math.max(lo, value))`. */
  function Clamp(value: real, lo: real, hi: real): (r: real)
    ensures r <= hi
    ensures lo <= hi ==> lo <= r
    ensures lo <= value <= hi ==> r == value
    ensures r == value || r == lo || r == hi
  {
    var atLeast := if lo > value then lo else value;
    if hi < atLeast then hi else atLeast
  }

  /** The transform at scale `scale` that shows `point` at the centre of the viewport. */
  function CenterTransformAtPoint(point: Point, scale: real, width: real, height: real): (r: Result<Transform, TransformError>)
    ensures scale <= 0.0 <==> r.Err?
    ensures r.Err? ==> r.error == InvalidScale(scale)
    ensures r.Ok? ==> r.value.k == scale
    ensures r.Ok? ==> point.x * scale + r.value.x == width / 2.0 && point.y * scale + r.value.y == height / 2.0
  {
    if scale <= 0.0 then Err(InvalidScale(scale))
    else Ok(Transform(width / 2.0 - point.x * scale, height / 2.0 - point.y * scale, scale))
  }

  /** The zoom limits; an unset one defaults to 1 (minimum) or 16 (maximum). */
  datatype ZoomOptions = ZoomOptions(minScale: Option<real>, maxScale: Option<real>)

  const DefaultMinScale: real := 1.0
  const DefaultMaxScale: real := 16.0

  function MinScale(options: ZoomOptions): real {
    options.minScale.GetOr(DefaultMinScale)
  }

  function MaxScale(options: ZoomOptions): real {
    options.maxScale.GetOr(DefaultMaxScale)
  }

  /** Zooms `t` to `nextScale`, clamped to the limits, around the screen point `origin`. A current
      scale that is not positive is an error whatever is requested, since that check comes before
      the shortcut that returns `t` itself when the scale does not change. */
  function ZoomTransformAtPoint(t: Transform, nextScale: real, origin: Point, options: ZoomOptions): (r: Result<Transform, TransformError>)
    ensures t.k <= 0.0 <==> r.Err?
    ensures r.Err? ==> r.error == InvalidTransformScale(t.k)
    ensures r.Ok? ==> r.value.k == Clamp(nextScale, MinScale(options), MaxScale(options))
    ensures r.Ok? && r.value.k == t.k ==> r.value == t
    // The content point under `origin` stays under it: (origin - x') / k' == (origin - x) / k.
    ensures r.Ok? ==> (origin.x - r.value.x) * t.k == (origin.x - t.x) * r.value.k
    ensures r.Ok? ==> (origin.y - r.value.y) * t.k == (origin.y - t.y) * r.value.k
  {
    var k0 := t.k;
    var k1 := Clamp(nextScale, MinScale(options), MaxScale(options));
    if k0 <= 0.0 then Err(InvalidTransformScale(k0))
    else if k0 == k1 then Ok(t)
    else
      var x1 := origin.x - ((origin.x - t.x) / k0) * k1;
      var y1 := origin.y - ((origin.y - t.y) / k0) * k1;
      FixedPoint(origin.x, t.x, k0, k1);
      FixedPoint(origin.y, t.y, k0, k1);
      Ok(Transform(x1, y1, k1))
  }

  lemma FixedPoint(o: real, x: real, k0: real, k1: real)
    requires k0 > 0.0
    ensures (o - (o - ((o - x) / k0) * k1)) * k0 == (o - x) * k1
  {
    calc {
      (o - (o - ((o - x) / k0) * k1)) * k0;
      ((o - x) / k0) * k1 * k0;
      ((o - x) / k0) * k0 * k1;
      { assert ((o - x) / k0) * k0 == o - x; }
      (o - x) * k1;
    }
  }

  /** Zooming back to the old scale around the same point restores the transform, when both
      scales lie within the limits. */
  lemma ZoomRoundTrip(t: Transform, nextScale: real, origin: Point, options: ZoomOptions)
    requires t.k > 0.0 && nextScale > 0.0
    requires MinScale(options) <= t.k <= MaxScale(options)
    requires MinScale(options) <= nextScale <= MaxScale(options)
    ensures ZoomTransformAtPoint(t, nextScale, origin, options).Ok?
    ensures ZoomTransformAtPoint(ZoomTransformAtPoint(t, nextScale, origin, options).value, t.k, origin, options) == Ok(t)
  {
    var z := ZoomTransformAtPoint(t, nextScale, origin, options).value;
    assert z.k == nextScale;
    var back := ZoomTransformAtPoint(z, t.k, origin, options);
    assert back.Ok? && back.value.k == t.k;
    if nextScale != t.k {
      UndoOffset(origin.x, t.x, z.x, t.k, nextScale);
      UndoOffset(origin.y, t.y, z.y, t.k, nextScale);
      assert back.value.x == origin.x - ((origin.x - z.x) / nextScale) * t.k;
      assert back.value.y == origin.y - ((origin.y - z.y) / nextScale) * t.k;
      assert back.value == Transform(t.x, t.y, t.k);
    }
  }

  lemma UndoOffset(o: real, x: real, x1: real, k0: real, k1: real)
    requires k0 > 0.0 && k1 > 0.0
    requires (o - x1) * k0 == (o - x) * k1
    ensures o - ((o - x1) / k1) * k0 == x
  {
    assert (o - x1) / k1 == (o - x) / k0 by {
      assert (o - x1) * k0 / (k1 * k0) == (o - x) * k1 / (k1 * k0);
    }
    assert ((o - x) / k0) * k0 == o - x;
  }
}
