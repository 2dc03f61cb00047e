/** Picking the spot under a screen point: the closest marker whose screen-space disc, widened
    by a tolerance that does not grow with zoom, contains the point. */
module SpotHitTest {
  import opened Wrappers
  import opened PanZoomTransform

  /** A spot projected into map content coordinates, with its marker radius in pixels. */
  datatype Marker<S> = Marker(spot: S, x: real, y: real, r: real)

  const DefaultHitSlop: real := 2.0

  /** The marker's centre on screen. */
  function ScreenX<S>(m: Marker<S>, t: Transform): real {
    m.x * t.k + t.x
  }

  function ScreenY<S>(m: Marker<S>, t: Transform): real {
    m.y * t.k + t.y
  }

  /** Squared screen distance from the marker's centre to `p`. */
  function Dist2<S>(m: Marker<S>, t: Transform, p: Point): real {
    (p.x - ScreenX(m, t)) * (p.x - ScreenX(m, t)) + (p.y - ScreenY(m, t)) * (p.y - ScreenY(m, t))
  }

  /** The marker is hit: its squared distance is at most `(r + hitSlop)^2`. The radius is in
      screen pixels and does not depend on the scale `k`. */
  predicate Hits<S>(m: Marker<S>, t: Transform, p: Point, hitSlop: real) {
    Dist2(m, t, p) <= (m.r + hitSlop) * (m.r + hitSlop)
  }

  /** Marker `i` is the answer: it is hit, no hit marker is closer, and every hit marker before
      it is strictly farther (ties go to the first in list order). */
  predicate IsBestHit<S>(markers: seq<Marker<S>>, t: Transform, p: Point, hitSlop: real, i: int) {
    && 0 <= i < |markers|
    && Hits(markers[i], t, p, hitSlop)
    && (forall j :: 0 <= j < |markers| && Hits(markers[j], t, p, hitSlop) ==> Dist2(markers[i], t, p) <= Dist2(markers[j], t, p))
    && (forall j :: 0 <= j < i && Hits(markers[j], t, p, hitSlop) ==> Dist2(markers[i], t, p) < Dist2(markers[j], t, p))
  }

  /** One step of the hit test: the squared distance from the marker's screen centre to `p`. */
  method MeasureDist2<S>(marker: Marker<S>, t: Transform, p: Point) returns (dist2: real)
    ensures dist2 == Dist2(marker, t, p)
    ensures dist2 >= 0.0
  {
    var cx := marker.x * t.k + t.x;
    var cy := marker.y * t.k + t.y;
    var dx := p.x - cx;
    var dy := p.y - cy;
    dist2 := dx * dx + dy * dy;
  }

  /** The hit test. `hitSlop` is the optional tolerance (default 2). The best distance so far
      starts at +Infinity, written here as `None`. */
  method PickSpotAtPoint<S>(markers: seq<Marker<S>>, t: Transform, p: Point, hitSlopOption: Option<real>)
    returns (best: Option<S>)
    ensures best.None? <==> forall j :: 0 <= j < |markers| ==> !Hits(markers[j], t, p, hitSlopOption.GetOr(DefaultHitSlop))
    ensures best.Some? ==> exists i :: IsBestHit(markers, t, p, hitSlopOption.GetOr(DefaultHitSlop), i) && markers[i].spot == best.value
  {
    var hitSlop := hitSlopOption.GetOr(DefaultHitSlop);
    best := None;
    var bestDist2: Option<real> := None;
    ghost var bestIndex := -1;
    for n := 0 to |markers|
      invariant best.None? <==> bestDist2.None?
      invariant best.None? ==> forall j :: 0 <= j < n ==> !Hits(markers[j], t, p, hitSlop)
      invariant best.Some? ==> 0 <= bestIndex < n && Hits(markers[bestIndex], t, p, hitSlop)
      invariant best.Some? ==> markers[bestIndex].spot == best.value && bestDist2.value == Dist2(markers[bestIndex], t, p)
      invariant best.Some? ==> forall j :: 0 <= j < n && Hits(markers[j], t, p, hitSlop) ==> bestDist2.value <= Dist2(markers[j], t, p)
      invariant best.Some? ==> forall j :: 0 <= j < bestIndex && Hits(markers[j], t, p, hitSlop) ==> bestDist2.value < Dist2(markers[j], t, p)
    {
      var marker := markers[n];
      var dist2 := MeasureDist2(marker, t, p);
      var r := marker.r + hitSlop;
      assert Hits(marker, t, p, hitSlop) <==> dist2 <= r * r;
      if dist2 <= r * r && (bestDist2.None? || dist2 < bestDist2.value) {
        best := Some(marker.spot);
        bestDist2 := Some(dist2);
        bestIndex := n;
      }
    }
    if best.Some? {
      assert IsBestHit(markers, t, p, hitSlop, bestIndex);
    }
  }
}
