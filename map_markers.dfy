/** The markers layer of the prefecture map: which group a spot's marker is drawn in, the
    projected markers, and the drawing pass that culls what is off screen and paints the groups
    in a fixed order, with the hover and selection rings on top. Canvas calls are recorded as a
    list of drawing operations. */
module MapMarkers {
  import opened Wrappers
  import opened PanZoomTransform
  import opened SpotHitTest
  import opened SakuraSpotSchema
  import opened SakuraSpots
  import opened SpotMarker
  import opened Sequences

  /** `markerKind`: the group a marker is painted in. */
  datatype MarkerKind = Sakura100Kind | WeathernewsTop10Kind | OtherKind

  predicate InWeathernewsTop10(s: SakuraSpot) {
    s.spot.collections.Some? && WeathernewsTop10 in s.spot.collections.value
  }

  /** A "sakura100" spot is in the sakura100 group even when it is also a top-10 spot. */
  function MarkerKindOf(s: SakuraSpot): (k: MarkerKind)
    ensures k == Sakura100Kind <==> IsSakura100Spot(s)
    ensures k == WeathernewsTop10Kind <==> !IsSakura100Spot(s) && InWeathernewsTop10(s)
    ensures k == OtherKind <==> !IsSakura100Spot(s) && !InWeathernewsTop10(s)
  {
    if IsSakura100Spot(s) then Sakura100Kind
    else if InWeathernewsTop10(s) then WeathernewsTop10Kind
    else OtherKind
  }

  /** The map's group and the list's marker colour agree on which spots are "sakura100". */
  lemma MarkerKindAgreesWithColor(s: SakuraSpot)
    ensures MarkerKindOf(s) == Sakura100Kind <==> SpotMarkerColor(s) == Sakura100MarkerColor
  {
  }

  /** `projectedSpots`: every spot the projection places, in order, with its marker radius. The
      projection is an input; the source's finiteness check has nothing to reject in reals. */
  function ProjectSpots(spots: seq<SakuraSpot>, projection: SakuraSpot -> Option<Point>): (r: seq<Marker<SakuraSpot>>)
    ensures |r| <= |spots|
    ensures forall i :: 0 <= i < |r| ==> r[i].spot in spots && projection(r[i].spot) == Some(Point(r[i].x, r[i].y))
    ensures forall i :: 0 <= i < |r| ==> r[i].r == SpotMarkerRadius(r[i].spot) as real
    ensures forall j :: 0 <= j < |spots| && projection(spots[j]).Some? ==> ProjectedMarker(spots[j], projection) in r
    ensures IsSubsequence(MarkerSpots(r), spots)
    ensures |r| == CountWhere(spots, (s: SakuraSpot) => projection(s).Some?)
  {
    var placed := Filter(spots, (s: SakuraSpot) => projection(s).Some?);
    var r := seq(|placed|, i requires 0 <= i < |placed| => ProjectedMarker(placed[i], projection));
    assert MarkerSpots(r) == placed;
    r
  }

  /** The spots of a list of markers, in order. */
  function MarkerSpots(markers: seq<Marker<SakuraSpot>>): (r: seq<SakuraSpot>)
    ensures |r| == |markers| && forall i :: 0 <= i < |markers| ==> r[i] == markers[i].spot
  {
    seq(|markers|, i requires 0 <= i < |markers| => markers[i].spot)
  }

  /** The marker of a spot the projection places. */
  function ProjectedMarker(s: SakuraSpot, projection: SakuraSpot -> Option<Point>): Marker<SakuraSpot>
    requires projection(s).Some?
  {
    Marker(s, projection(s).value.x, projection(s).value.y, SpotMarkerRadius(s) as real)
  }

  /** A prefecture name drawn at its centroid. */
  datatype PrefectureLabel = PrefectureLabel(key: string, text: string, x: real, y: real)

  datatype RingKind = HoverRing | SelectedRing

  /** One canvas drawing: a label, a marker disc of a group, or a ring. */
  datatype DrawOp =
    | LabelOp(text: string, x: real, y: real)
    | CircleOp(kind: MarkerKind, cx: real, cy: real, r: real)
    | RingOp(ring: RingKind, cx: real, cy: real, r: real)

  /** A label is drawn unless its anchor is more than 80 pixels left or right of the viewport or
      more than 40 above or below it. */
  predicate LabelOnScreen(x: real, y: real, width: real, height: real) {
    !(x < -80.0 || x > width + 80.0 || y < -40.0 || y > height + 40.0)
  }

  /** A marker is drawn unless its disc lies wholly outside the viewport's bounding box. */
  predicate MarkerOnScreen(cx: real, cy: real, r: real, width: real, height: real) {
    !(cx < -r || cx > width + r || cy < -r || cy > height + r)
  }

  function LabelX(l: PrefectureLabel, t: Transform): real {
    l.x * t.k + t.x
  }

  function LabelY(l: PrefectureLabel, t: Transform): real {
    l.y * t.k + t.y
  }

  /** The label operation of `l`, or none when it is off screen. */
  function LabelOpOf(l: PrefectureLabel, t: Transform, width: real, height: real): seq<DrawOp> {
    if LabelOnScreen(LabelX(l, t), LabelY(l, t), width, height) then [LabelOp(l.text, LabelX(l, t), LabelY(l, t))] else []
  }

  /** The labels loop: every label on screen, in order, and nothing else. */
  function LabelOps(labels: seq<PrefectureLabel>, t: Transform, width: real, height: real): (ops: seq<DrawOp>)
    ensures |ops| <= |labels|
    ensures forall i :: 0 <= i < |ops| ==> ops[i].LabelOp? && LabelOnScreen(ops[i].x, ops[i].y, width, height)
  {
    if |labels| == 0 then []
    else
      LabelOps(labels[..|labels| - 1], t, width, height) + LabelOpOf(labels[|labels| - 1], t, width, height)
  }

  /** The disc of marker `m` in group `kind`, or none when `m` is in another group or off screen. */
  function CircleOpOf(m: Marker<SakuraSpot>, t: Transform, kind: MarkerKind, width: real, height: real): seq<DrawOp> {
    if MarkerKindOf(m.spot) == kind && MarkerOnScreen(ScreenX(m, t), ScreenY(m, t), m.r, width, height)
    then [CircleOp(kind, ScreenX(m, t), ScreenY(m, t), m.r)]
    else []
  }

  /** `drawGroup(kind)`: every marker of the group that is on screen, in list order. */
  function GroupOps(markers: seq<Marker<SakuraSpot>>, t: Transform, kind: MarkerKind, width: real, height: real): (ops: seq<DrawOp>)
    ensures |ops| <= |markers|
    ensures forall i :: 0 <= i < |ops| ==> ops[i].CircleOp? && ops[i].kind == kind
    ensures forall i :: 0 <= i < |ops| ==> MarkerOnScreen(ops[i].cx, ops[i].cy, ops[i].r, width, height)
  {
    if |markers| == 0 then []
    else
      GroupOps(markers[..|markers| - 1], t, kind, width, height) + CircleOpOf(markers[|markers| - 1], t, kind, width, height)
  }

  /** Every label on screen is drawn. */
  lemma {:induction false} LabelOpsComplete(labels: seq<PrefectureLabel>, t: Transform, width: real, height: real, j: nat)
    requires j < |labels| && LabelOnScreen(LabelX(labels[j], t), LabelY(labels[j], t), width, height)
    ensures LabelOp(labels[j].text, LabelX(labels[j], t), LabelY(labels[j], t)) in LabelOps(labels, t, width, height)
  {
    var init := labels[..|labels| - 1];
    if j < |labels| - 1 {
      assert init[j] == labels[j];
      LabelOpsComplete(init, t, width, height, j);
    }
  }

  /** Every marker of the group that is on screen is drawn. */
  lemma {:induction false} GroupOpsComplete(markers: seq<Marker<SakuraSpot>>, t: Transform, kind: MarkerKind, width: real, height: real, j: nat)
    requires j < |markers| && MarkerKindOf(markers[j].spot) == kind
    requires MarkerOnScreen(ScreenX(markers[j], t), ScreenY(markers[j], t), markers[j].r, width, height)
    ensures CircleOp(kind, ScreenX(markers[j], t), ScreenY(markers[j], t), markers[j].r) in GroupOps(markers, t, kind, width, height)
  {
    var init := markers[..|markers| - 1];
    if j < |markers| - 1 {
      assert init[j] == markers[j];
      GroupOpsComplete(init, t, kind, width, height, j);
    }
  }

  /** The index of the first marker of the spot `id` at or after `i`. */
  function FindFrom(markers: seq<Marker<SakuraSpot>>, id: string, i: nat): (r: Option<nat>)
    requires i <= |markers|
    ensures r.Some? ==> i <= r.value < |markers| && markers[r.value].spot.Id() == id
    ensures r.Some? ==> forall j :: i <= j < r.value ==> markers[j].spot.Id() != id
    ensures r.None? ==> forall j :: i <= j < |markers| ==> markers[j].spot.Id() != id
    decreases |markers| - i
  {
    if i == |markers| then None
    else if markers[i].spot.Id() == id then Some(i)
    else FindFrom(markers, id, i + 1)
  }

  /** `markers.find(m => m.spot.id === id)`: the first marker of the spot `id`. */
  function FindMarker(markers: seq<Marker<SakuraSpot>>, id: string): (r: Option<Marker<SakuraSpot>>)
    ensures r.None? <==> forall i :: 0 <= i < |markers| ==> markers[i].spot.Id() != id
    ensures r.Some? ==> exists i :: 0 <= i < |markers| && markers[i] == r.value && r.value.spot.Id() == id
                                    && forall j :: 0 <= j < i ==> markers[j].spot.Id() != id
  {
    match FindFrom(markers, id, 0)
    case None => None
    case Some(i) => Some(markers[i])
  }

  /** The ring drawn three pixels outside the disc of the spot `id`, if it has a marker. */
  function RingOps(markers: seq<Marker<SakuraSpot>>, t: Transform, ring: RingKind, id: string): (ops: seq<DrawOp>)
    ensures |ops| <= 1
    ensures |ops| == 1 <==> FindMarker(markers, id).Some?
    ensures forall i :: 0 <= i < |ops| ==> ops[i].RingOp? && ops[i].ring == ring
  {
    match FindMarker(markers, id)
    case None => []
    case Some(m) => [RingOp(ring, ScreenX(m, t), ScreenY(m, t), m.r + 3.0)]
  }

  /** The hover ring: for a hovered spot (a non-empty id) that is not the selected one. */
  function HoverOps(markers: seq<Marker<SakuraSpot>>, t: Transform, selected: Option<SakuraSpot>, hoveredId: Option<string>): seq<DrawOp> {
    if hoveredId.Some? && hoveredId.value != "" && !(selected.Some? && selected.value.Id() == hoveredId.value)
    then RingOps(markers, t, HoverRing, hoveredId.value)
    else []
  }

  function SelectedOps(markers: seq<Marker<SakuraSpot>>, t: Transform, selected: Option<SakuraSpot>): seq<DrawOp> {
    if selected.Some? then RingOps(markers, t, SelectedRing, selected.value.Id()) else []
  }

  /** What `drawMarkers` paints, layer by layer. */
  datatype Layers = Layers(labels: seq<DrawOp>, other: seq<DrawOp>, top10: seq<DrawOp>, sakura100: seq<DrawOp>,
                           hover: seq<DrawOp>, selected: seq<DrawOp>)

  function LayersOf(t: Transform, labels: seq<PrefectureLabel>, markers: seq<Marker<SakuraSpot>>,
                    selected: Option<SakuraSpot>, hoveredId: Option<string>, width: real, height: real): Layers
  {
    Layers(LabelOps(labels, t, width, height),
           GroupOps(markers, t, OtherKind, width, height),
           GroupOps(markers, t, WeathernewsTop10Kind, width, height),
           GroupOps(markers, t, Sakura100Kind, width, height),
           HoverOps(markers, t, selected, hoveredId),
           SelectedOps(markers, t, selected))
  }

  /** The layers in painting order. */
  function Flatten(l: Layers): seq<DrawOp> {
    l.labels + l.other + l.top10 + l.sakura100 + l.hover + l.selected
  }

  /** `drawMarkers` on a canvas of `width` by `height` CSS pixels. Nothing is drawn on an empty
      canvas. */
  function DrawSpec(t: Transform, labels: seq<PrefectureLabel>, markers: seq<Marker<SakuraSpot>>,
                    selected: Option<SakuraSpot>, hoveredId: Option<string>, width: real, height: real): seq<DrawOp>
  {
    if width <= 0.0 || height <= 0.0 then []
    else Flatten(LayersOf(t, labels, markers, selected, hoveredId, width, height))
  }

  /** The labels loop of `drawMarkers`. */
  method DrawLabels(labels: seq<PrefectureLabel>, t: Transform, width: real, height: real) returns (ops: seq<DrawOp>)
    ensures ops == LabelOps(labels, t, width, height)
  {
    ops := [];
    for n := 0 to |labels|
      invariant ops == LabelOps(labels[..n], t, width, height)
    {
      var drawn := DrawLabel(labels[n], t, width, height);
      assert labels[..n + 1][..n] == labels[..n] && labels[..n + 1][n] == labels[n];
      ops := ops + drawn;
    }
    assert labels[..|labels|] == labels;
  }

  /** One pass of the labels loop: the label at its screen position, unless it is off screen. */
  method DrawLabel(item: PrefectureLabel, t: Transform, width: real, height: real) returns (ops: seq<DrawOp>)
    ensures ops == LabelOpOf(item, t, width, height)
  {
    var x := item.x * t.k + t.x;
    var y := item.y * t.k + t.y;
    assert x == LabelX(item, t) && y == LabelY(item, t);
    if x < -80.0 || x > width + 80.0 || y < -40.0 || y > height + 40.0 {
      return [];
    }
    return [LabelOp(item.text, x, y)];
  }

  /** `drawGroup`: one pass over the markers, drawing those of `kind` that are on screen. */
  method DrawGroup(markers: seq<Marker<SakuraSpot>>, t: Transform, kind: MarkerKind, width: real, height: real) returns (ops: seq<DrawOp>)
    ensures ops == GroupOps(markers, t, kind, width, height)
  {
    ops := [];
    for n := 0 to |markers|
      invariant ops == GroupOps(markers[..n], t, kind, width, height)
    {
      var drawn := DrawCircle(markers[n], t, kind, width, height);
      assert markers[..n + 1][..n] == markers[..n] && markers[..n + 1][n] == markers[n];
      ops := ops + drawn;
    }
    assert markers[..|markers|] == markers;
  }

  /** One pass of `drawGroup`: the marker's disc, unless it is of another group or off screen. */
  method DrawCircle(marker: Marker<SakuraSpot>, t: Transform, kind: MarkerKind, width: real, height: real) returns (ops: seq<DrawOp>)
    ensures ops == CircleOpOf(marker, t, kind, width, height)
  {
    if MarkerKindOf(marker.spot) != kind {
      return [];
    }
    var cx := marker.x * t.k + t.x;
    var cy := marker.y * t.k + t.y;
    var r := marker.r;
    assert cx == ScreenX(marker, t) && cy == ScreenY(marker, t);
    if cx < -r || cx > width + r || cy < -r || cy > height + r {
      return [];
    }
    return [CircleOp(kind, cx, cy, r)];
  }

  /** The hover or selection ring: finds the spot's marker and strokes a circle three pixels
      outside it. */
  method DrawRing(markers: seq<Marker<SakuraSpot>>, t: Transform, ring: RingKind, id: string) returns (ops: seq<DrawOp>)
    ensures ops == RingOps(markers, t, ring, id)
  {
    ops := [];
    var marker := FindMarker(markers, id);
    if marker.Some? {
      var cx := marker.value.x * t.k + t.x;
      var cy := marker.value.y * t.k + t.y;
      assert cx == ScreenX(marker.value, t) && cy == ScreenY(marker.value, t);
      ops := [RingOp(ring, cx, cy, marker.value.r + 3.0)];
    }
  }

  /** `drawMarkers`: labels, then the "other", top-10 and sakura100 groups, then the hover and
      selection rings. */
  method DrawMarkers(t: Transform, labels: seq<PrefectureLabel>, markers: seq<Marker<SakuraSpot>>,
                     selected: Option<SakuraSpot>, hoveredId: Option<string>, width: real, height: real)
    returns (ops: seq<DrawOp>)
    ensures ops == DrawSpec(t, labels, markers, selected, hoveredId, width, height)
  {
    if width <= 0.0 || height <= 0.0 {
      return [];
    }
    var labelOps := DrawLabels(labels, t, width, height);
    var other := DrawGroup(markers, t, OtherKind, width, height);
    var top10 := DrawGroup(markers, t, WeathernewsTop10Kind, width, height);
    var sakura100 := DrawGroup(markers, t, Sakura100Kind, width, height);
    var hover: seq<DrawOp> := [];
    if hoveredId.Some? && hoveredId.value != "" && !(selected.Some? && selected.value.Id() == hoveredId.value) {
      hover := DrawRing(markers, t, HoverRing, hoveredId.value);
    }
    var ring: seq<DrawOp> := [];
    if selected.Some? {
      ring := DrawRing(markers, t, SelectedRing, selected.value.Id());
    }
    ops := labelOps + other + top10 + sakura100 + hover + ring;
    assert Layers(labelOps, other, top10, sakura100, hover, ring) == LayersOf(t, labels, markers, selected, hoveredId, width, height);
  }

  /** The painting layer of an operation: labels, the three groups bottom to top, then rings. */
  function Layer(op: DrawOp): (n: nat)
    ensures n <= 5
  {
    match op
    case LabelOp(_, _, _) => 0
    case CircleOp(kind, _, _, _) => (match kind case OtherKind => 1 case WeathernewsTop10Kind => 2 case Sakura100Kind => 3)
    case RingOp(ring, _, _, _) => if ring == HoverRing then 4 else 5
  }

  predicate Layered(ops: seq<DrawOp>) {
    forall i, j :: 0 <= i < j < |ops| ==> Layer(ops[i]) <= Layer(ops[j])
  }

  predicate AllInLayer(ops: seq<DrawOp>, n: nat) {
    forall i :: 0 <= i < |ops| ==> Layer(ops[i]) == n
  }

  predicate AtMostLayer(ops: seq<DrawOp>, n: nat) {
    forall i :: 0 <= i < |ops| ==> Layer(ops[i]) <= n
  }

  lemma AppendLayer(ops: seq<DrawOp>, more: seq<DrawOp>, n: nat)
    requires Layered(ops) && AtMostLayer(ops, n) && AllInLayer(more, n)
    ensures Layered(ops + more) && AtMostLayer(ops + more, n)
  {
  }

  /** Six segments, each in its own layer and the layers rising, make a layered list. */
  lemma FlattenLayered(l: Layers)
    requires AllInLayer(l.labels, 0) && AllInLayer(l.other, 1) && AllInLayer(l.top10, 2)
    requires AllInLayer(l.sakura100, 3) && AllInLayer(l.hover, 4) && AllInLayer(l.selected, 5)
    ensures Layered(Flatten(l))
    ensures AtMostLayer(l.labels + l.other + l.top10 + l.sakura100 + l.hover, 4)
  {
    AppendLayer([], l.labels, 0);
    assert [] + l.labels == l.labels;
    AppendLayer(l.labels, l.other, 1);
    AppendLayer(l.labels + l.other, l.top10, 2);
    AppendLayer(l.labels + l.other + l.top10, l.sakura100, 3);
    AppendLayer(l.labels + l.other + l.top10 + l.sakura100, l.hover, 4);
    AppendLayer(l.labels + l.other + l.top10 + l.sakura100 + l.hover, l.selected, 5);
  }

  /** Draw order: labels first, then the "other", top-10 and sakura100 discs, then the hover
      ring, then the selection ring, so a sakura100 marker is never painted under another. */
  lemma DrawOrder(t: Transform, labels: seq<PrefectureLabel>, markers: seq<Marker<SakuraSpot>>,
                  selected: Option<SakuraSpot>, hoveredId: Option<string>, width: real, height: real)
    ensures Layered(DrawSpec(t, labels, markers, selected, hoveredId, width, height))
  {
    if width > 0.0 && height > 0.0 {
      LayersOfInLayers(t, labels, markers, selected, hoveredId, width, height);
      FlattenLayered(LayersOf(t, labels, markers, selected, hoveredId, width, height));
    }
  }

  /** Each of the six segments `drawMarkers` paints lies in its own layer, and the selection
      segment is non-empty exactly when a selected spot has a marker. */
  lemma LayersOfInLayers(t: Transform, labels: seq<PrefectureLabel>, markers: seq<Marker<SakuraSpot>>,
                         selected: Option<SakuraSpot>, hoveredId: Option<string>, width: real, height: real)
    ensures var l := LayersOf(t, labels, markers, selected, hoveredId, width, height);
            && AllInLayer(l.labels, 0) && AllInLayer(l.other, 1) && AllInLayer(l.top10, 2)
            && AllInLayer(l.sakura100, 3) && AllInLayer(l.hover, 4) && AllInLayer(l.selected, 5)
    ensures var l := LayersOf(t, labels, markers, selected, hoveredId, width, height);
            |l.selected| > 0 <==> selected.Some? && FindMarker(markers, selected.value.Id()).Some?
  {
    var l := LayersOf(t, labels, markers, selected, hoveredId, width, height);
    assert AllInLayer(l.hover, 4) by {
      assert forall i :: 0 <= i < |l.hover| ==> l.hover[i].RingOp? && l.hover[i].ring == HoverRing;
    }
    assert AllInLayer(l.selected, 5) by {
      assert forall i :: 0 <= i < |l.selected| ==> l.selected[i].RingOp? && l.selected[i].ring == SelectedRing;
    }
  }

  /** Every disc and every label in `ops` is on screen. */
  predicate Culled(ops: seq<DrawOp>, width: real, height: real) {
    && (forall i :: 0 <= i < |ops| && ops[i].CircleOp? ==> MarkerOnScreen(ops[i].cx, ops[i].cy, ops[i].r, width, height))
    && (forall i :: 0 <= i < |ops| && ops[i].LabelOp? ==> LabelOnScreen(ops[i].x, ops[i].y, width, height))
  }

  predicate NoDiscOrLabel(ops: seq<DrawOp>) {
    forall i :: 0 <= i < |ops| ==> ops[i].RingOp?
  }

  lemma FlattenCulled(l: Layers, width: real, height: real)
    requires Culled(l.labels, width, height) && Culled(l.other, width, height)
    requires Culled(l.top10, width, height) && Culled(l.sakura100, width, height)
    requires NoDiscOrLabel(l.hover) && NoDiscOrLabel(l.selected)
    ensures Culled(Flatten(l), width, height)
  {
  }

  /** A disc of one of the three groups is in the painted list. */
  lemma FlattenContains(l: Layers, op: DrawOp)
    requires op in l.other || op in l.top10 || op in l.sakura100
    ensures op in Flatten(l)
  {
    var front := l.labels + l.other + l.top10 + l.sakura100;
    assert op in front;
    assert Flatten(l) == front + l.hover + l.selected;
  }

  /** Culling: every disc and label drawn is on screen. */
  lemma DrawnOnScreen(t: Transform, labels: seq<PrefectureLabel>, markers: seq<Marker<SakuraSpot>>,
                      selected: Option<SakuraSpot>, hoveredId: Option<string>, width: real, height: real)
    ensures Culled(DrawSpec(t, labels, markers, selected, hoveredId, width, height), width, height)
  {
    if width > 0.0 && height > 0.0 {
      var l := LayersOf(t, labels, markers, selected, hoveredId, width, height);
      assert NoDiscOrLabel(l.hover);
      assert NoDiscOrLabel(l.selected);
      FlattenCulled(l, width, height);
    }
  }

  /** Every marker on screen is drawn, as a disc of its own group, on a non-empty canvas. */
  lemma OnScreenDrawn(t: Transform, labels: seq<PrefectureLabel>, markers: seq<Marker<SakuraSpot>>,
                      selected: Option<SakuraSpot>, hoveredId: Option<string>, width: real, height: real, j: nat)
    requires width > 0.0 && height > 0.0 && j < |markers|
    requires MarkerOnScreen(ScreenX(markers[j], t), ScreenY(markers[j], t), markers[j].r, width, height)
    ensures CircleOp(MarkerKindOf(markers[j].spot), ScreenX(markers[j], t), ScreenY(markers[j], t), markers[j].r)
            in DrawSpec(t, labels, markers, selected, hoveredId, width, height)
  {
    var l := LayersOf(t, labels, markers, selected, hoveredId, width, height);
    GroupOpsComplete(markers, t, MarkerKindOf(markers[j].spot), width, height, j);
    FlattenContains(l, CircleOp(MarkerKindOf(markers[j].spot), ScreenX(markers[j], t), ScreenY(markers[j], t), markers[j].r));
  }

  /** In six layers where only the last can hold layer-5 operations, a layer-5 operation is
      painted exactly when the last layer is not empty. */
  lemma FlattenTopLayer(l: Layers)
    requires AtMostLayer(l.labels + l.other + l.top10 + l.sakura100 + l.hover, 4)
    requires AllInLayer(l.selected, 5)
    ensures (exists i :: 0 <= i < |Flatten(l)| && Layer(Flatten(l)[i]) == 5) <==> |l.selected| > 0
  {
    var front := l.labels + l.other + l.top10 + l.sakura100 + l.hover;
    assert Flatten(l) == front + l.selected;
    if |l.selected| > 0 {
      assert Flatten(l)[|front|] == l.selected[0];
    }
  }

  /** The selection ring is drawn exactly when a spot is selected and it has a marker. */
  lemma SelectionRingDrawn(t: Transform, labels: seq<PrefectureLabel>, markers: seq<Marker<SakuraSpot>>,
                           selected: Option<SakuraSpot>, hoveredId: Option<string>, width: real, height: real)
    requires width > 0.0 && height > 0.0
    ensures var ops := DrawSpec(t, labels, markers, selected, hoveredId, width, height);
            (exists i :: 0 <= i < |ops| && ops[i].RingOp? && ops[i].ring == SelectedRing)
            <==> selected.Some? && FindMarker(markers, selected.value.Id()).Some?
  {
    var l := LayersOf(t, labels, markers, selected, hoveredId, width, height);
    LayersOfInLayers(t, labels, markers, selected, hoveredId, width, height);
    FlattenLayered(l);
    FlattenTopLayer(l);
    var ops := Flatten(l);
    assert forall i :: 0 <= i < |ops| ==> (Layer(ops[i]) == 5 <==> ops[i].RingOp? && ops[i].ring == SelectedRing);
  }
}
