/** The map's gesture and animation engine: pointer panning with a pan-sample buffer, click
    selection, momentum after a flick, wheel zoom, eased transform tweens, and the single
    pending frame request that applies the transform. Every handler of the `MapViewport` class
    is proved to move the view state exactly as a pure transition function on `ViewState`
    says; the lemmas state what the transitions promise. Clock readings are parameters, and the
    floating-point functions (`Math.hypot`, `Math.exp`) are functions passed in. */
module MapViewport {
  import opened Wrappers
  import opened PanZoomTransform
  import opened SpotHitTest
  import opened SakuraSpots

  /** Pan samples older than this many milliseconds are dropped while more than two remain. */
  const PanWindowMs: real := 120.0
  const MaxPanSamples: nat := 8
  /** A press becomes a pan once the pointer has moved this far (in the L1 norm). */
  const PanThreshold: real := 3.0
  const ClickHitSlop: real := 4.0
  const HoverHitSlop: real := 6.0
  const MinStartSpeed: real := 0.06
  const MaxStartSpeed: real := 4.0
  const MinStopSpeed: real := 0.01
  const MaxFrameMs: real := 64.0
  const DefaultTweenMs: real := 180.0

  function Abs(x: real): (r: real)
    ensures r >= 0.0 && (r == x || r == -x)
  {
    if x < 0.0 then -x else x
  }

  /** The transform's offset and the time, recorded while panning. */
  datatype PanSample = PanSample(x: real, y: real, time: real)

  /** The running transform animation, if any: an eased tween towards a target, or momentum
      with the velocity (pixels per millisecond) and the time of the last frame. */
  datatype Animation =
    | Idle
    | Tween(from: Transform, to: Transform, startTime: real, durationMs: real)
    | Momentum(vx: real, vy: real, lastTime: real)

  /** Everything the handlers read and write. `selectionLog` records the calls of the
      selection callback (`None` for a deselection); `frameRequests` counts the frame requests
      made for applying the transform. */
  datatype ViewState = ViewState(
    transform: Transform,
    markers: seq<Marker<SakuraSpot>>,
    isPointerDown: bool,
    activePointerId: Option<int>,
    start: Point,
    startTransform: Point,
    didPan: bool,
    panSamples: seq<PanSample>,
    framePending: bool,
    frameRequests: nat,
    animation: Animation,
    selected: Option<SakuraSpot>,
    hoveredId: Option<string>,
    selectionLog: seq<Option<SakuraSpot>>)

  /** What the handlers keep true: a bounded sample buffer, an active pointer exactly while the
      pointer is down, and a pan only during a press. */
  predicate ValidState(s: ViewState) {
    && |s.panSamples| <= MaxPanSamples
    && (s.isPointerDown <==> s.activePointerId.Some?)
    && (s.didPan ==> s.isPointerDown)
  }

  // ---------------------------------------------------------------- pan samples

  /** A sample more than 120 ms older than `time`. */
  predicate Stale(sample: PanSample, time: real) {
    time - sample.time > PanWindowMs
  }

  /** The eviction loop of `recordPanSample`, as the number of samples it drops from the front
      of `samples` once `i` are gone: it drops the oldest while more than two remain and the
      oldest is stale. */
  function StaleFrom(samples: seq<PanSample>, time: real, i: nat): (n: nat)
    requires i <= |samples|
    ensures i <= n <= |samples|
    ensures |samples| - i >= 2 ==> |samples| - n >= 2
    ensures |samples| - i <= 2 ==> n == i
    ensures |samples| - n > 2 ==> !Stale(samples[n], time)
    ensures forall j :: i <= j < n ==> Stale(samples[j], time)
    decreases |samples| - i
  {
    if |samples| - i > 2 && Stale(samples[i], time) then StaleFrom(samples, time, i + 1) else i
  }

  /** How many samples `recordPanSample` drops from the front of `all` (the buffer with the new
      sample appended): the stale ones, then one more if nine remain. */
  function DropCount(all: seq<PanSample>, time: real): (n: nat)
    ensures n <= |all|
  {
    var stale := StaleFrom(all, time, 0);
    if |all| - stale > MaxPanSamples then stale + 1 else stale
  }

  /** `recordPanSample`: appends at the back and drops from the front. */
  function RecordSample(samples: seq<PanSample>, sample: PanSample): (r: seq<PanSample>)
    ensures |r| >= 1 && r[|r| - 1] == sample
  {
    var all := samples + [sample];
    all[DropCount(all, sample.time)..]
  }

  /** The buffer keeps the newest samples: it never exceeds eight, keeps at least two (when
      there are two), and every sample it drops was stale or overflowed the buffer. */
  lemma RecordSampleBounds(samples: seq<PanSample>, sample: PanSample)
    requires |samples| <= MaxPanSamples
    ensures var all := samples + [sample];
            var r := RecordSample(samples, sample);
            && |r| <= MaxPanSamples
            && (|all| >= 2 ==> |r| >= 2)
            && r == all[|all| - |r|..]
            && (forall j :: 0 <= j < |all| - |r| ==> Stale(all[j], sample.time) || |all| - j > MaxPanSamples)
  {
    var all := samples + [sample];
    var stale := StaleFrom(all, sample.time, 0);
    assert |all| - stale > MaxPanSamples ==> stale == 0;
  }

  function Record(s: ViewState, time: real): ViewState {
    s.(panSamples := RecordSample(s.panSamples, PanSample(s.transform.x, s.transform.y, time)))
  }

  // ---------------------------------------------------------------- frames and selection

  /** `scheduleTransform`: requests a frame unless one is already pending. */
  function Schedule(s: ViewState): ViewState {
    if s.framePending then s else s.(framePending := true, frameRequests := s.frameRequests + 1)
  }

  /** Clears the selection through the callback, when there is one. */
  function Deselect(s: ViewState): ViewState {
    if s.selected.Some? then s.(selectionLog := s.selectionLog + [None], selected := None) else s
  }

  lemma ScheduleOnce(s: ViewState)
    ensures Schedule(s).framePending
    ensures Schedule(Schedule(s)) == Schedule(s)
    ensures Schedule(s).frameRequests == s.frameRequests + (if s.framePending then 0 else 1)
    ensures Schedule(s).transform == s.transform && Schedule(s).animation == s.animation
  {
  }

  // ---------------------------------------------------------------- pointer handlers

  /** `handlePointerDown`: only a primary press of the main button starts a gesture; it stops any
      animation, remembers where the press and the transform started, and takes the first pan
      sample. */
  function PointerDownSpec(s: ViewState, button: int, isPrimary: bool, pointerId: int, client: Point, now: real): ViewState {
    if button != 0 || !isPrimary then s
    else
      var pressed := s.(animation := Idle, isPointerDown := true, activePointerId := Some(pointerId), start := client,
                        startTransform := Point(s.transform.x, s.transform.y), didPan := false, panSamples := []);
      Record(pressed, now).(hoveredId := None)
  }

  /** `handlePointerMove`. Without a press it only updates the hovered spot (`hovered` is the hit
      test's answer); moves of another pointer are ignored; a press becomes a pan once the
      pointer has moved 3 pixels, which also clears the selection; a pan puts the transform at
      its start plus the pointer's offset. */
  function PointerMoveSpec(s: ViewState, pointerId: int, client: Point, hovered: Option<SakuraSpot>, now: real): ViewState {
    if !s.isPointerDown then s.(hoveredId := if hovered.Some? then Some(hovered.value.Id()) else None)
    else if s.activePointerId != Some(pointerId) then s
    else
      var dx := client.x - s.start.x;
      var dy := client.y - s.start.y;
      if !s.didPan && Abs(dx) + Abs(dy) < PanThreshold then s
      else
        var panning := if s.didPan then s else Deselect(s.(didPan := true));
        var moved := panning.(transform := Transform(s.startTransform.x + dx, s.startTransform.y + dy, s.transform.k));
        Schedule(Record(moved, now))
  }

  /** The pan velocity over the sample buffer, from its first to its last sample. */
  function PanDt(samples: seq<PanSample>): real
    requires |samples| >= 1
  {
    samples[|samples| - 1].time - samples[0].time
  }

  /** `startInertia`: stops the running animation; a speed below 0.06 starts nothing; a speed
      above 4 is scaled down to 4 in the same direction. */
  function StartInertiaSpec(s: ViewState, vx: real, vy: real, now: real, hypot: (real, real) -> real): ViewState {
    var stopped := s.(animation := Idle);
    var speed := Speed(hypot, vx, vy);
    if speed < MinStartSpeed then stopped
    else
      var v := ClampSpeed(vx, vy, speed);
      stopped.(animation := Momentum(v.0, v.1, now))
  }

  /** The length of (vx, vy), as the function passed in (`Math.hypot` in the browser) computes it. */
  function Speed(hypot: (real, real) -> real, vx: real, vy: real): real {
    hypot(vx, vy)
  }

  /** The start velocity, rescaled to `MaxStartSpeed` when `speed` exceeds it. */
  function ClampSpeed(vx: real, vy: real, speed: real): (real, real) {
    if speed > MaxStartSpeed then (vx * (MaxStartSpeed / speed), vy * (MaxStartSpeed / speed)) else (vx, vy)
  }

  /** `handlePointerUp` (also `pointercancel`). Releasing the active pointer ends the press. A
      release without a pan reports the spot under the pointer (`picked`, hit slop 4) as the
      selection; after a pan with at least two samples spanning some time, momentum starts at the
      pan's average velocity. Either way the pan flag and the samples are reset. */
  function PointerUpSpec(s: ViewState, pointerId: int, picked: Option<SakuraSpot>, now: real, hypot: (real, real) -> real): ViewState {
    var released := Release(s, pointerId);
    var after :=
      if !released.didPan then released.(selectionLog := released.selectionLog + [picked])
      else FlingSpec(released, now, hypot);
    after.(didPan := false, panSamples := [])
  }

  /** Releasing the active pointer ends the press; another pointer's release changes nothing. */
  function Release(s: ViewState, pointerId: int): ViewState {
    if s.activePointerId == Some(pointerId) then s.(isPointerDown := false, activePointerId := None) else s
  }

  /** The end of a pan: with at least two samples spanning some time, inertia starts at the
      average velocity between the oldest and the newest sample. */
  function FlingSpec(s: ViewState, now: real, hypot: (real, real) -> real): ViewState {
    if |s.panSamples| >= 2 && PanDt(s.panSamples) > 0.0 then
      var first := s.panSamples[0];
      var last := s.panSamples[|s.panSamples| - 1];
      var dt := PanDt(s.panSamples);
      StartInertiaSpec(s, (last.x - first.x) / dt, (last.y - first.y) / dt, now, hypot)
    else s
  }

  /** `handlePointerLeave`: forgets the hovered spot. */
  function PointerLeaveSpec(s: ViewState): ViewState {
    if s.hoveredId.None? then s else s.(hoveredId := None)
  }

  /** The factor one wheel event scales by. */
  function WheelScale(deltaY: real, lineMode: bool, exp: real -> real): real {
    var wheelDelta := if lineMode then deltaY * 16.0 else deltaY;
    exp(-wheelDelta * 0.002)
  }

  /** `handleWheel`: stops the animation, clears the selection, and zooms about the pointer by
      `exp(-delta * 0.002)`, a line-mode delta counting 16 pixels per line. The zoom throws for a
      transform whose scale is not positive; the handler then ends with the earlier effects
      done, which the second component reports. */
  function WheelSpec(s: ViewState, deltaY: real, lineMode: bool, origin: Point, exp: real -> real): (ViewState, bool) {
    var cleared := Deselect(s.(animation := Idle));
    var zoomed := WheelZoomed(s.transform, deltaY, lineMode, origin, exp);
    if zoomed.Err? then (cleared, true) else (Schedule(cleared.(transform := zoomed.value)), false)
  }

  /** The zoom a wheel event asks for: about `origin`, to the wheel factor times the scale. */
  function WheelZoomed(t: Transform, deltaY: real, lineMode: bool, origin: Point, exp: real -> real): Result<Transform, TransformError> {
    ZoomTransformAtPoint(t, t.k * WheelScale(deltaY, lineMode, exp), origin, ZoomOptions(None, None))
  }

  // ---------------------------------------------------------------- animations

  /** The momentum stops once the decayed speed falls under 0.01 px/ms. */
  predicate Stopped(hypot: (real, real) -> real, vx: real, vy: real) {
    Speed(hypot, vx, vy) < MinStopSpeed
  }

  /** The factor the velocity decays by over a frame of `dt` ms, as the function passed in
      (`exp(-ln 2 / 320 * dt)` in the browser) computes it. */
  function DecayFactor(decay: real -> real, dt: real): real {
    decay(dt)
  }

  /** The momentum after a frame of `dt` ms: the velocity decays by `decay(dt)`, and the
      animation stops once the decayed speed falls below 0.01. */
  function DecayedMomentum(m: Animation, dt: real, now: real, hypot: (real, real) -> real, decay: real -> real): Animation
    requires m.Momentum?
  {
    var d := DecayFactor(decay, dt);
    var vx := m.vx * d;
    var vy := m.vy * d;
    if Stopped(hypot, vx, vy) then Idle else Momentum(vx, vy, now)
  }

  /** One momentum frame: the elapsed time is clamped to [0, 64] ms, the transform moves by the
      velocity times that time at the same scale, and the velocity decays. */
  function MomentumTickSpec(s: ViewState, now: real, hypot: (real, real) -> real, decay: real -> real): ViewState
    requires s.animation.Momentum?
  {
    var m := s.animation;
    var dt := Clamp(now - m.lastTime, 0.0, MaxFrameMs);
    s.(transform := Drift(s.transform, m, dt), animation := DecayedMomentum(m, dt, now, hypot, decay))
  }

  /** The transform moved by the momentum's velocity over `dt` ms, at the same scale. */
  function Drift(t: Transform, m: Animation, dt: real): Transform
    requires m.Momentum?
  {
    Transform(t.x + m.vx * dt, t.y + m.vy * dt, t.k)
  }

  /** `animateTransform`: replaces the running animation by a tween from the current transform;
      the duration defaults to 180 ms and is never negative. */
  function AnimateSpec(s: ViewState, target: Transform, durationMs: Option<real>, now: real): ViewState {
    var d := durationMs.GetOr(DefaultTweenMs);
    s.(animation := Tween(s.transform, target, now, if d < 0.0 then 0.0 else d))
  }

  /** The tween's progress: 1 for a zero duration, otherwise the elapsed fraction capped at 1. */
  function TweenFraction(elapsed: real, durationMs: real): (t: real)
    ensures t <= 1.0
    ensures durationMs == 0.0 ==> t == 1.0
    ensures durationMs > 0.0 && elapsed >= durationMs ==> t == 1.0
    ensures durationMs > 0.0 && 0.0 <= elapsed ==> 0.0 <= t
  {
    if durationMs == 0.0 then 1.0
    else if elapsed / durationMs < 1.0 then elapsed / durationMs
    else 1.0
  }

  /** The ease-out cubic `1 - (1 - t)^3`. */
  function Ease(t: real): real {
    1.0 - (1.0 - t) * (1.0 - t) * (1.0 - t)
  }

  function Lerp(a: Transform, b: Transform, e: real): Transform {
    Transform(a.x + (b.x - a.x) * e, a.y + (b.y - a.y) * e, a.k + (b.k - a.k) * e)
  }

  /** One tween frame: the transform is the eased blend of start and target; the frame that
      reaches the end stops the animation. */
  function TweenTickSpec(s: ViewState, now: real): ViewState
    requires s.animation.Tween?
  {
    var a := s.animation;
    var t := TweenFraction(now - a.startTime, a.durationMs);
    var blended := s.(transform := Lerp(a.from, a.to, Ease(t)));
    if t >= 1.0 then blended.(animation := Idle) else blended
  }

  // ---------------------------------------------------------------- the viewport object

  class MapViewport {
    var transform: Transform
    var markers: seq<Marker<SakuraSpot>>
    var isPointerDown: bool
    var activePointerId: Option<int>
    var start: Point
    var startTransform: Point
    var didPan: bool
    var panSamples: seq<PanSample>
    var framePending: bool
    var frameRequests: nat
    var animation: Animation
    var selected: Option<SakuraSpot>
    var hoveredId: Option<string>
    var selectionLog: seq<Option<SakuraSpot>>

    function State(): ViewState
      reads this
    {
      ViewState(transform, markers, isPointerDown, activePointerId, start, startTransform, didPan, panSamples,
                framePending, frameRequests, animation, selected, hoveredId, selectionLog)
    }

    /** A viewport showing `markers` at `initial`, with no gesture, frame or animation under way. */
    constructor(initial: Transform, shown: seq<Marker<SakuraSpot>>, selection: Option<SakuraSpot>)
      ensures State() == ViewState(initial, shown, false, None, Point(0.0, 0.0), Point(0.0, 0.0), false, [],
                                   false, 0, Idle, selection, None, [])
      ensures ValidState(State())
    {
      transform := initial;
      markers := shown;
      isPointerDown := false;
      activePointerId := None;
      start := Point(0.0, 0.0);
      startTransform := Point(0.0, 0.0);
      didPan := false;
      panSamples := [];
      framePending := false;
      frameRequests := 0;
      animation := Idle;
      selected := selection;
      hoveredId := None;
      selectionLog := [];
    }

    /** `recordPanSample`. */
    method RecordPanSample(time: real)
      modifies this
      ensures State() == Record(old(State()), time)
    {
      var samples := panSamples + [PanSample(transform.x, transform.y, time)];
      ghost var all := samples;
      ghost var dropped := 0;
      while |samples| > 2 && time - samples[0].time > PanWindowMs
        invariant dropped <= |all| && samples == all[dropped..]
        invariant StaleFrom(all, time, dropped) == StaleFrom(all, time, 0)
        decreases |samples|
      {
        samples := samples[1..];
        dropped := dropped + 1;
      }
      if |samples| > MaxPanSamples {
        samples := samples[1..];
        dropped := dropped + 1;
      }
      assert dropped == DropCount(all, time);
      panSamples := samples;
    }

    /** `scheduleTransform`. */
    method ScheduleTransform()
      modifies this
      ensures State() == Schedule(old(State()))
    {
      if framePending {
        return;
      }
      framePending := true;
      frameRequests := frameRequests + 1;
    }

    /** The frame callback of `scheduleTransform`: clears the pending request and applies the
        transform (drawing is not part of the state). */
    method TransformFrame()
      modifies this
      ensures State() == old(State()).(framePending := false)
    {
      framePending := false;
    }

    /** `stopTransformAnimation`. */
    method StopTransformAnimation()
      modifies this
      ensures State() == old(State()).(animation := Idle)
    {
      animation := Idle;
    }

    /** Clears the selection through the callback, when there is one. */
    method ClearSelection()
      modifies this
      ensures State() == Deselect(old(State()))
    {
      if selected.Some? {
        selectionLog := selectionLog + [None];
        selected := None;
      }
    }

    method PointerDown(button: int, isPrimary: bool, pointerId: int, client: Point, now: real)
      modifies this
      ensures State() == PointerDownSpec(old(State()), button, isPrimary, pointerId, client, now)
    {
      if button != 0 || !isPrimary {
        return;
      }
      Press(pointerId, client);
      RecordPanSample(now);
      hoveredId := None;
    }

    /** The start of a gesture, before its first sample. */
    method Press(pointerId: int, client: Point)
      modifies this
      ensures State() == old(State()).(animation := Idle, isPointerDown := true, activePointerId := Some(pointerId),
                                       start := client, startTransform := Point(old(transform).x, old(transform).y),
                                       didPan := false, panSamples := [])
    {
      StopTransformAnimation();
      isPointerDown := true;
      activePointerId := Some(pointerId);
      start := client;
      startTransform := Point(transform.x, transform.y);
      didPan := false;
      panSamples := [];
    }

    /** The hover branch of `handlePointerMove`: the spot under `point`, hit slop 6. */
    method UpdateHover(point: Point) returns (hovered: Option<SakuraSpot>)
      modifies this
      ensures State() == old(State()).(hoveredId := if hovered.Some? then Some(hovered.value.Id()) else None)
      ensures hovered.None? <==> forall j :: 0 <= j < |markers| ==> !Hits(markers[j], transform, point, HoverHitSlop)
      ensures hovered.Some? ==> exists i :: IsBestHit(markers, transform, point, HoverHitSlop, i) && markers[i].spot == hovered.value
    {
      hovered := PickSpotAtPoint(markers, transform, point, Some(HoverHitSlop));
      hoveredId := if hovered.Some? then Some(hovered.value.Id()) else None;
    }

    /** The pan branch of `handlePointerMove`: the transform follows the pointer's offset. */
    method PanBy(dx: real, dy: real, now: real)
      modifies this
      ensures State() == Schedule(Record(old(State()).(transform := Transform(old(startTransform).x + dx, old(startTransform).y + dy, old(transform).k)), now))
    {
      transform := Transform(startTransform.x + dx, startTransform.y + dy, transform.k);
      RecordPanSample(now);
      ScheduleTransform();
    }

    /** `handlePointerMove`; `rect` is the canvas's top-left corner in client coordinates. The
        hovered spot is returned when the pointer is up. */
    method PointerMove(pointerId: int, client: Point, rect: Point, now: real) returns (hovered: Option<SakuraSpot>)
      modifies this
      ensures State() == PointerMoveSpec(old(State()), pointerId, client, hovered, now)
      ensures !old(isPointerDown) ==>
                (hovered.None? <==> forall j :: 0 <= j < |markers| ==> !Hits(markers[j], transform, Point(client.x - rect.x, client.y - rect.y), HoverHitSlop))
      ensures !old(isPointerDown) && hovered.Some? ==>
                exists i :: IsBestHit(markers, transform, Point(client.x - rect.x, client.y - rect.y), HoverHitSlop, i) && markers[i].spot == hovered.value
    {
      hovered := None;
      if !isPointerDown {
        hovered := UpdateHover(Point(client.x - rect.x, client.y - rect.y));
        return;
      }
      if activePointerId != Some(pointerId) {
        return;
      }
      var dx := client.x - start.x;
      var dy := client.y - start.y;
      if !didPan {
        if Abs(dx) + Abs(dy) < PanThreshold {
          return;
        }
        BeginPan();
      }
      PanBy(dx, dy, now);
    }

    /** A press that passes the pan threshold becomes a pan and drops the selection. */
    method BeginPan()
      modifies this
      ensures State() == Deselect(old(State()).(didPan := true))
    {
      didPan := true;
      ClearSelection();
    }

    /** `startInertia`. */
    method StartInertia(vx: real, vy: real, now: real, hypot: (real, real) -> real)
      modifies this
      ensures State() == StartInertiaSpec(old(State()), vx, vy, now, hypot)
    {
      StopTransformAnimation();
      var speed := Speed(hypot, vx, vy);
      if speed < MinStartSpeed {
        return;
      }
      var wx, wy := vx, vy;
      if speed > MaxStartSpeed {
        var ratio := MaxStartSpeed / speed;
        wx := wx * ratio;
        wy := wy * ratio;
      }
      assert wx == ClampSpeed(vx, vy, speed).0;
      assert wy == ClampSpeed(vx, vy, speed).1;
      animation := Momentum(wx, wy, now);
    }

    /** `handlePointerUp`; returns the spot reported as the selection on a click. */
    method PointerUp(pointerId: int, client: Point, rect: Point, now: real, hypot: (real, real) -> real) returns (picked: Option<SakuraSpot>)
      modifies this
      ensures State() == PointerUpSpec(old(State()), pointerId, picked, now, hypot)
      ensures !old(didPan) ==>
                (picked.None? <==> forall j :: 0 <= j < |markers| ==> !Hits(markers[j], transform, Point(client.x - rect.x, client.y - rect.y), ClickHitSlop))
      ensures !old(didPan) && picked.Some? ==>
                exists i :: IsBestHit(markers, transform, Point(client.x - rect.x, client.y - rect.y), ClickHitSlop, i) && markers[i].spot == picked.value
    {
      picked := None;
      if activePointerId == Some(pointerId) {
        isPointerDown := false;
        activePointerId := None;
      }
      if !didPan {
        picked := Click(Point(client.x - rect.x, client.y - rect.y));
      } else {
        Fling(now, hypot);
      }
      didPan := false;
      panSamples := [];
    }

    /** The click branch of `handlePointerUp`: the spot under `point`, hit slop 4, is reported
        as the new selection (`None` when there is none). */
    method Click(point: Point) returns (picked: Option<SakuraSpot>)
      modifies this
      ensures State() == old(State()).(selectionLog := old(selectionLog) + [picked])
      ensures picked.None? <==> forall j :: 0 <= j < |markers| ==> !Hits(markers[j], transform, point, ClickHitSlop)
      ensures picked.Some? ==> exists i :: IsBestHit(markers, transform, point, ClickHitSlop, i) && markers[i].spot == picked.value
    {
      picked := PickSpotAtPoint(markers, transform, point, Some(ClickHitSlop));
      selectionLog := selectionLog + [picked];
    }

    /** The pan branch of `handlePointerUp`. */
    method Fling(now: real, hypot: (real, real) -> real)
      modifies this
      ensures State() == FlingSpec(old(State()), now, hypot)
    {
      if |panSamples| >= 2 {
        var first := panSamples[0];
        var last := panSamples[|panSamples| - 1];
        var dt := last.time - first.time;
        if dt > 0.0 {
          StartInertia((last.x - first.x) / dt, (last.y - first.y) / dt, now, hypot);
        }
      }
    }

    method PointerLeave()
      modifies this
      ensures State() == PointerLeaveSpec(old(State()))
    {
      if hoveredId.None? {
        return;
      }
      hoveredId := None;
    }

    /** `handleWheel`; `thrown` reports the zoom's exception for a non-positive scale. */
    method Wheel(deltaY: real, lineMode: bool, client: Point, rect: Point, exp: real -> real) returns (thrown: bool)
      modifies this
      ensures State() == WheelSpec(old(State()), deltaY, lineMode, Point(client.x - rect.x, client.y - rect.y), exp).0
      ensures thrown == WheelSpec(old(State()), deltaY, lineMode, Point(client.x - rect.x, client.y - rect.y), exp).1
    {
      StopTransformAnimation();
      ClearSelection();
      var origin := Point(client.x - rect.x, client.y - rect.y);
      var zoomed := WheelZoomed(transform, deltaY, lineMode, origin, exp);
      if zoomed.Err? {
        return true;
      }
      transform := zoomed.value;
      ScheduleTransform();
      return false;
    }

    /** One frame of the momentum animation. */
    method MomentumTick(now: real, hypot: (real, real) -> real, decay: real -> real)
      requires animation.Momentum?
      modifies this
      ensures State() == MomentumTickSpec(old(State()), now, hypot, decay)
    {
      var m := animation;
      var dt := Clamp(now - m.lastTime, 0.0, MaxFrameMs);
      transform := Drift(transform, m, dt);
      animation := DecayedMomentum(m, dt, now, hypot, decay);
    }

    /** `animateTransform`. */
    method AnimateTransform(target: Transform, durationMs: Option<real>, now: real)
      modifies this
      ensures State() == AnimateSpec(old(State()), target, durationMs, now)
    {
      StopTransformAnimation();
      var d := durationMs.GetOr(DefaultTweenMs);
      animation := Tween(transform, target, now, if d < 0.0 then 0.0 else d);
    }

    /** One frame of the tween. */
    method TweenTick(now: real)
      requires animation.Tween?
      modifies this
      ensures State() == TweenTickSpec(old(State()), now)
    {
      var a := animation;
      var elapsed := now - a.startTime;
      var t := if a.durationMs == 0.0 then 1.0 else if elapsed / a.durationMs < 1.0 then elapsed / a.durationMs else 1.0;
      assert t == TweenFraction(elapsed, a.durationMs);
      var eased := 1.0 - (1.0 - t) * (1.0 - t) * (1.0 - t);
      assert eased == Ease(t);
      transform := Lerp(a.from, a.to, eased);
      if t >= 1.0 {
        animation := Idle;
      }
    }
  }
}
