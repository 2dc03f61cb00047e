/** What the viewport's transitions promise: which events start, continue and end a gesture,
    when the selection callback fires, how inertia starts and decays, how a tween lands on its
    target, and that every handler keeps the view state well formed. */
module MapViewportProperties {
  import opened Wrappers
  import opened PanZoomTransform
  import opened SakuraSpots
  import opened MapViewport

  // ---------------------------------------------------------------- pressing

  /** A press other than a primary press of the main button changes nothing; a primary press
      starts a fresh gesture holding one sample at the current offset, and leaves the view, the
      selection and the pending frame alone. */
  lemma PointerDownStartsGesture(s: ViewState, button: int, isPrimary: bool, pointerId: int, client: Point, now: real)
    ensures button != 0 || !isPrimary ==> PointerDownSpec(s, button, isPrimary, pointerId, client, now) == s
    ensures button == 0 && isPrimary ==>
              var r := PointerDownSpec(s, button, isPrimary, pointerId, client, now);
              && r.isPointerDown && r.activePointerId == Some(pointerId) && !r.didPan
              && r.start == client && r.startTransform == Point(s.transform.x, s.transform.y)
              && r.panSamples == [PanSample(s.transform.x, s.transform.y, now)]
              && r.animation == Idle && r.hoveredId == None
              && r.transform == s.transform && r.selected == s.selected && r.selectionLog == s.selectionLog
              && r.framePending == s.framePending && r.frameRequests == s.frameRequests
  {
    if button == 0 && isPrimary {
      var sample := PanSample(s.transform.x, s.transform.y, now);
      assert StaleFrom([sample], now, 0) == 0;
      assert RecordSample([], sample) == [sample];
    }
  }

  // ---------------------------------------------------------------- moving

  /** Moves that do not pan: without a press only the hovered spot changes; a move of another
      pointer, or one that has not yet gone 3 pixels from the press, changes nothing. */
  lemma MoveWithoutPan(s: ViewState, pointerId: int, client: Point, hovered: Option<SakuraSpot>, now: real)
    ensures !s.isPointerDown ==>
              PointerMoveSpec(s, pointerId, client, hovered, now) ==
              s.(hoveredId := if hovered.Some? then Some(hovered.value.Id()) else None)
    ensures s.isPointerDown && s.activePointerId != Some(pointerId) ==> PointerMoveSpec(s, pointerId, client, hovered, now) == s
    ensures s.isPointerDown && !s.didPan && Abs(client.x - s.start.x) + Abs(client.y - s.start.y) < PanThreshold ==>
              PointerMoveSpec(s, pointerId, client, hovered, now) == s
  {
  }

  /** A move of the pressing pointer that pans: the transform is its value at the press plus
      the pointer's offset from the press at the same scale, the gesture is a pan, a sample of
      the new offset is the newest one, and a frame is pending. */
  lemma PanFollowsPointer(s: ViewState, pointerId: int, client: Point, hovered: Option<SakuraSpot>, now: real)
    requires s.isPointerDown && s.activePointerId == Some(pointerId)
    requires s.didPan || Abs(client.x - s.start.x) + Abs(client.y - s.start.y) >= PanThreshold
    ensures var r := PointerMoveSpec(s, pointerId, client, hovered, now);
            && r.transform == Transform(s.startTransform.x + (client.x - s.start.x), s.startTransform.y + (client.y - s.start.y), s.transform.k)
            && r.didPan && r.framePending && r.isPointerDown && r.activePointerId == s.activePointerId
            && r.panSamples[|r.panSamples| - 1] == PanSample(r.transform.x, r.transform.y, now)
            && r.animation == s.animation && r.hoveredId == s.hoveredId
  {
  }

  /** The selection callback fires during a move exactly once per gesture: on the move that turns
      a press into a pan, and only when a spot was selected; it then reports a deselection. */
  lemma DeselectOnlyOnPanStart(s: ViewState, pointerId: int, client: Point, hovered: Option<SakuraSpot>, now: real)
    ensures var r := PointerMoveSpec(s, pointerId, client, hovered, now);
            var starts := s.isPointerDown && s.activePointerId == Some(pointerId) && !s.didPan
                          && Abs(client.x - s.start.x) + Abs(client.y - s.start.y) >= PanThreshold;
            && (starts && s.selected.Some? ==> r.selectionLog == s.selectionLog + [None] && r.selected == None)
            && (!(starts && s.selected.Some?) ==> r.selectionLog == s.selectionLog && r.selected == s.selected)
            && (s.didPan ==> r.didPan)
  {
  }

  // ---------------------------------------------------------------- releasing

  /** A release without a pan reports the picked spot (possibly none) to the selection callback
      and neither moves the view nor starts an animation. */
  lemma PointerUpClick(s: ViewState, pointerId: int, picked: Option<SakuraSpot>, now: real, hypot: (real, real) -> real)
    requires !s.didPan
    ensures var r := PointerUpSpec(s, pointerId, picked, now, hypot);
            && r.selectionLog == s.selectionLog + [picked]
            && r.transform == s.transform && r.animation == s.animation
  {
  }

  /** A release after a pan never calls the selection callback and does not move the view. With
      fewer than two samples, or samples spanning no time, the animation is left as it was;
      otherwise inertia replaces it, starting exactly when the average velocity over the buffer
      reaches 0.06 pixels per millisecond. */
  lemma PointerUpAfterPan(s: ViewState, pointerId: int, picked: Option<SakuraSpot>, now: real, hypot: (real, real) -> real)
    requires s.didPan
    ensures var r := PointerUpSpec(s, pointerId, picked, now, hypot);
            && r.selectionLog == s.selectionLog
            && r.transform == s.transform
            && (!(|s.panSamples| >= 2 && PanDt(s.panSamples) > 0.0) ==> r.animation == s.animation)
    ensures |s.panSamples| >= 2 && PanDt(s.panSamples) > 0.0 ==>
              var r := PointerUpSpec(s, pointerId, picked, now, hypot);
              var dt := PanDt(s.panSamples);
              var first := s.panSamples[0];
              var last := s.panSamples[|s.panSamples| - 1];
              && (r.animation.Momentum? <==> Speed(hypot, (last.x - first.x) / dt, (last.y - first.y) / dt) >= MinStartSpeed)
              && (r.animation.Momentum? ==> r.animation.lastTime == now)
              && (!r.animation.Momentum? ==> r.animation == Idle)
  {
  }

  /** Every release ends the pan and empties the buffer, and ends the press exactly when it is
      the pressing pointer's. */
  lemma PointerUpEndsGesture(s: ViewState, pointerId: int, picked: Option<SakuraSpot>, now: real, hypot: (real, real) -> real)
    ensures var r := PointerUpSpec(s, pointerId, picked, now, hypot);
            && !r.didPan && r.panSamples == []
            && (s.activePointerId == Some(pointerId) ==> !r.isPointerDown && r.activePointerId == None)
            && (s.activePointerId != Some(pointerId) ==> r.isPointerDown == s.isPointerDown && r.activePointerId == s.activePointerId)
  {
  }

  // ---------------------------------------------------------------- inertia

  /** Inertia starts exactly when the speed reaches 0.06; the old animation is stopped either way. */
  lemma StartInertiaGate(s: ViewState, vx: real, vy: real, now: real, hypot: (real, real) -> real)
    ensures var r := StartInertiaSpec(s, vx, vy, now, hypot);
            && (r.animation.Momentum? <==> Speed(hypot, vx, vy) >= MinStartSpeed)
            && (!r.animation.Momentum? ==> r.animation == Idle)
            && (r.animation.Momentum? ==> r.animation.lastTime == now)
            && r.(animation := s.animation) == s
  {
  }

  /** For the true length `speed` of (vx, vy), the start velocity keeps its direction, is left
      alone up to 4, and above 4 has length exactly 4. */
  lemma {:induction false} InertiaClamp(vx: real, vy: real, speed: real)
    requires speed >= 0.0 && speed * speed == vx * vx + vy * vy
    ensures var v := ClampSpeed(vx, vy, speed);
            && (speed <= MaxStartSpeed ==> v == (vx, vy))
            && (speed > MaxStartSpeed ==> v.0 * v.0 + v.1 * v.1 == MaxStartSpeed * MaxStartSpeed)
            && v.0 * speed == vx * (if speed > MaxStartSpeed then MaxStartSpeed else speed)
            && v.1 * speed == vy * (if speed > MaxStartSpeed then MaxStartSpeed else speed)
  {
    if speed > MaxStartSpeed {
      var ratio := MaxStartSpeed / speed;
      assert ratio * speed == MaxStartSpeed;
      calc {
        (vx * ratio) * (vx * ratio) + (vy * ratio) * (vy * ratio);
        (vx * vx + vy * vy) * (ratio * ratio);
        (speed * speed) * (ratio * ratio);
        (ratio * speed) * (ratio * speed);
        MaxStartSpeed * MaxStartSpeed;
      }
      assert (vx * ratio) * speed == vx * (ratio * speed);
      assert (vy * ratio) * speed == vy * (ratio * speed);
    }
  }

  /** A momentum frame moves the view by the velocity times the clamped frame time (between 0
      and 64 ms) without zooming, and touches nothing but the transform and the animation. */
  lemma MomentumFrame(s: ViewState, now: real, hypot: (real, real) -> real, decay: real -> real)
    requires s.animation.Momentum?
    ensures var dt := Clamp(now - s.animation.lastTime, 0.0, MaxFrameMs);
            var r := MomentumTickSpec(s, now, hypot, decay);
            && 0.0 <= dt <= MaxFrameMs
            && r.transform.x - s.transform.x == s.animation.vx * dt
            && r.transform.y - s.transform.y == s.animation.vy * dt
            && r.transform.k == s.transform.k
            && r.animation == DecayedMomentum(s.animation, dt, now, hypot, decay)
    ensures MomentumTickSpec(s, now, hypot, decay).(transform := s.transform, animation := s.animation) == s
  {
    var m := s.animation;
    var dt := Clamp(now - m.lastTime, 0.0, MaxFrameMs);
    assert MomentumTickSpec(s, now, hypot, decay).transform == Drift(s.transform, m, dt);
  }

  /** After a frame the velocity is the old one times the decay factor, and the momentum stops
      exactly when that decayed speed falls below 0.01. */
  lemma MomentumDecays(m: Animation, dt: real, now: real, hypot: (real, real) -> real, decay: real -> real)
    requires m.Momentum?
    ensures var d := DecayFactor(decay, dt);
            var r := DecayedMomentum(m, dt, now, hypot, decay);
            && (r == Idle <==> Speed(hypot, m.vx * d, m.vy * d) < MinStopSpeed)
            && (r != Idle ==> r == Momentum(m.vx * d, m.vy * d, now))
  {
  }

  /** With a decay factor in [0, 1] (as `exp` of a non-positive exponent is), momentum never
      speeds up along either axis. */
  lemma {:induction false} MomentumSlowsDown(m: Animation, dt: real, now: real, hypot: (real, real) -> real, decay: real -> real)
    requires m.Momentum?
    requires 0.0 <= DecayFactor(decay, dt) <= 1.0
    ensures var r := DecayedMomentum(m, dt, now, hypot, decay);
            r.Momentum? ==> Abs(r.vx) <= Abs(m.vx) && Abs(r.vy) <= Abs(m.vy)
  {
    var d := DecayFactor(decay, dt);
    ScaleDown(m.vx, d);
    ScaleDown(m.vy, d);
  }

  lemma ScaleDown(v: real, d: real)
    requires 0.0 <= d <= 1.0
    ensures Abs(v * d) <= Abs(v)
  {
    if v >= 0.0 {
      MulNonNegative(v, d);
      MulNonNegative(v, 1.0 - d);
    } else {
      MulNonNegative(-v, d);
      MulNonNegative(-v, 1.0 - d);
    }
  }

  lemma MulNonNegative(a: real, b: real)
    requires 0.0 <= a && 0.0 <= b
    ensures 0.0 <= a * b
  {
  }

  // ---------------------------------------------------------------- tweens

  lemma {:induction false} CubeMonotone(a: real, b: real)
    requires b <= a
    ensures b * b * b <= a * a * a
  {
    var q := a * a + a * b + b * b;
    assert a * a * a - b * b * b == (a - b) * q;
    assert q == (a + b / 2.0) * (a + b / 2.0) + 3.0 * (b * b) / 4.0;
    Square(a + b / 2.0);
    Square(b);
    MulNonNegative(a - b, q);
  }

  lemma Square(x: real)
    ensures 0.0 <= x * x
  {
    if x < 0.0 {
      MulNonNegative(-x, -x);
    } else {
      MulNonNegative(x, x);
    }
  }

  /** The ease-out cubic starts at 0, ends at 1, stays in [0, 1] in between, and never goes back. */
  lemma {:induction false} EaseShape(t1: real, t2: real)
    requires 0.0 <= t1 <= t2 <= 1.0
    ensures Ease(0.0) == 0.0 && Ease(1.0) == 1.0
    ensures 0.0 <= Ease(t1) <= Ease(t2) <= 1.0
  {
    CubeMonotone(1.0 - t1, 1.0 - t2);
    CubeMonotone(1.0, 1.0 - t1);
    CubeMonotone(1.0 - t2, 0.0);
  }

  /** `animateTransform` starts a tween from the current transform at `now`, of the given
      duration clamped at 0, or of 180 ms when none is given. */
  lemma AnimateStartsTween(s: ViewState, target: Transform, durationMs: Option<real>, now: real)
    ensures var r := AnimateSpec(s, target, durationMs, now);
            && r.animation.Tween? && r.animation.from == s.transform && r.animation.to == target
            && r.animation.startTime == now && r.animation.durationMs >= 0.0
            && (durationMs.None? ==> r.animation.durationMs == DefaultTweenMs)
            && (durationMs.Some? && durationMs.value >= 0.0 ==> r.animation.durationMs == durationMs.value)
            && r.(animation := s.animation) == s
  {
  }

  /** The frame that reaches the end of a tween (any frame, for a zero duration) puts the
      transform exactly on the target and stops; earlier frames keep the tween running. */
  lemma {:induction false} TweenLandsOnTarget(s: ViewState, now: real)
    requires s.animation.Tween?
    ensures var a := s.animation;
            var r := TweenTickSpec(s, now);
            && (a.durationMs == 0.0 || (a.durationMs > 0.0 && now - a.startTime >= a.durationMs) ==>
                  r.transform == a.to && r.animation == Idle)
            && (a.durationMs > 0.0 && now - a.startTime < a.durationMs ==> r.animation == a)
  {
    var a := s.animation;
    var t := TweenFraction(now - a.startTime, a.durationMs);
    if a.durationMs == 0.0 || (a.durationMs > 0.0 && now - a.startTime >= a.durationMs) {
      assert t == 1.0;
      assert Ease(t) == 1.0;
      LerpEnd(a.from, a.to);
    } else if a.durationMs > 0.0 && now - a.startTime < a.durationMs {
      var q := (now - a.startTime) / a.durationMs;
      assert q * a.durationMs == now - a.startTime;
    }
  }

  lemma LerpEnd(a: Transform, b: Transform)
    ensures Lerp(a, b, 1.0) == b
  {
  }

  /** While a tween with a positive duration runs forward in time, its transform stays between
      the start and the target on every axis. */
  lemma {:induction false} TweenStaysBetween(s: ViewState, now: real)
    requires s.animation.Tween? && s.animation.durationMs > 0.0 && now >= s.animation.startTime
    ensures var a := s.animation;
            var r := TweenTickSpec(s, now);
            && Between(r.transform.x, a.from.x, a.to.x)
            && Between(r.transform.y, a.from.y, a.to.y)
            && Between(r.transform.k, a.from.k, a.to.k)
  {
    var a := s.animation;
    var t := TweenFraction(now - a.startTime, a.durationMs);
    EaseShape(t, t);
    var e := Ease(t);
    assert TweenTickSpec(s, now).transform == Lerp(a.from, a.to, e);
    LerpBetween(a.from.x, a.to.x, e);
    LerpBetween(a.from.y, a.to.y, e);
    LerpBetween(a.from.k, a.to.k, e);
  }

  predicate Between(v: real, a: real, b: real) {
    (a <= v <= b) || (b <= v <= a)
  }

  lemma LerpBetween(a: real, b: real, e: real)
    requires 0.0 <= e <= 1.0
    ensures Between(a + (b - a) * e, a, b)
  {
    if a <= b {
      MulNonNegative(b - a, e);
      MulNonNegative(b - a, 1.0 - e);
    } else {
      MulNonNegative(a - b, e);
      MulNonNegative(a - b, 1.0 - e);
    }
  }

  // ---------------------------------------------------------------- wheel

  /** A wheel event always stops the animation and clears the selection. It fails, leaving only
      those effects, exactly when the current scale is not positive. */
  lemma WheelStopsAndDeselects(s: ViewState, deltaY: real, lineMode: bool, origin: Point, exp: real -> real)
    ensures WheelSpec(s, deltaY, lineMode, origin, exp).0.animation == Idle
    ensures WheelSpec(s, deltaY, lineMode, origin, exp).0.selected == None
    ensures WheelSpec(s, deltaY, lineMode, origin, exp).0.selectionLog == s.selectionLog + (if s.selected.Some? then [None] else [])
    ensures WheelSpec(s, deltaY, lineMode, origin, exp).1 <==> s.transform.k <= 0.0
    ensures WheelSpec(s, deltaY, lineMode, origin, exp).1 ==>
              WheelSpec(s, deltaY, lineMode, origin, exp).0 == Deselect(s.(animation := Idle))
  {
  }

  /** When the scale is positive, a wheel event sets the scale to the wheel factor times the old
      scale, clamped to [1, 16], keeps the content point under the pointer under it, and leaves
      a frame pending. */
  lemma WheelZoomsAboutPointer(s: ViewState, deltaY: real, lineMode: bool, origin: Point, exp: real -> real)
    requires s.transform.k > 0.0
    ensures var r := WheelSpec(s, deltaY, lineMode, origin, exp).0;
            && r.transform.k == Clamp(s.transform.k * WheelScale(deltaY, lineMode, exp), DefaultMinScale, DefaultMaxScale)
            && (origin.x - r.transform.x) * s.transform.k == (origin.x - s.transform.x) * r.transform.k
            && (origin.y - r.transform.y) * s.transform.k == (origin.y - s.transform.y) * r.transform.k
            && r.framePending
  {
    var z := WheelZoomed(s.transform, deltaY, lineMode, origin, exp);
    assert WheelSpec(s, deltaY, lineMode, origin, exp).0.transform == z.value;
  }

  // ---------------------------------------------------------------- well-formedness

  /** A press keeps the view state well formed. */
  lemma PointerDownKeepsValid(s: ViewState, button: int, isPrimary: bool, pointerId: int, client: Point, now: real)
    requires ValidState(s)
    ensures ValidState(PointerDownSpec(s, button, isPrimary, pointerId, client, now))
  {
    PointerDownStartsGesture(s, button, isPrimary, pointerId, client, now);
  }

  /** A move keeps the view state well formed; a pan's new sample keeps the buffer at eight. */
  lemma PointerMoveKeepsValid(s: ViewState, pointerId: int, client: Point, hovered: Option<SakuraSpot>, now: real)
    requires ValidState(s)
    ensures ValidState(PointerMoveSpec(s, pointerId, client, hovered, now))
  {
    if !s.isPointerDown || s.activePointerId != Some(pointerId) {
    } else {
      var dx := client.x - s.start.x;
      var dy := client.y - s.start.y;
      if s.didPan || Abs(dx) + Abs(dy) >= PanThreshold {
        var panning := if s.didPan then s else Deselect(s.(didPan := true));
        assert ValidState(panning) && panning.isPointerDown;
        var moved := panning.(transform := Transform(s.startTransform.x + dx, s.startTransform.y + dy, s.transform.k));
        PanStepKeepsValid(moved, now);
      }
    }
  }

  /** Recording a pan sample and scheduling a frame during a press keep the state well formed. */
  lemma PanStepKeepsValid(m: ViewState, now: real)
    requires ValidState(m) && m.isPointerDown
    ensures ValidState(Schedule(Record(m, now)))
  {
    RecordSampleBounds(m.panSamples, PanSample(m.transform.x, m.transform.y, now));
  }

  /** A release, a leave and a wheel event keep the view state well formed. */
  lemma ReleaseAndWheelKeepValid(s: ViewState, pointerId: int, client: Point, picked: Option<SakuraSpot>,
                                 deltaY: real, lineMode: bool, now: real, hypot: (real, real) -> real,
                                 exp: real -> real)
    requires ValidState(s)
    ensures ValidState(PointerUpSpec(s, pointerId, picked, now, hypot))
    ensures ValidState(PointerLeaveSpec(s))
    ensures ValidState(WheelSpec(s, deltaY, lineMode, client, exp).0)
  {
  }

  /** Frame requests, frames and animations keep the view state well formed. */
  lemma FramesKeepValid(s: ViewState, now: real, hypot: (real, real) -> real, decay: real -> real,
                        target: Transform, durationMs: Option<real>)
    requires ValidState(s)
    ensures ValidState(Schedule(s)) && ValidState(s.(framePending := false))
    ensures ValidState(AnimateSpec(s, target, durationMs, now))
    ensures s.animation.Momentum? ==> ValidState(MomentumTickSpec(s, now, hypot, decay))
    ensures s.animation.Tween? ==> ValidState(TweenTickSpec(s, now))
  {
  }

  /** Every handler and frame callback keeps the view state well formed: at most eight pan
      samples, an active pointer exactly while pressed, and a pan only during a press. */
  lemma EventsKeepValid(s: ViewState, button: int, isPrimary: bool, pointerId: int, client: Point,
                        hovered: Option<SakuraSpot>, picked: Option<SakuraSpot>, deltaY: real,
                        lineMode: bool, now: real, hypot: (real, real) -> real,
                        decay: real -> real, exp: real -> real, target: Transform,
                        durationMs: Option<real>)
    requires ValidState(s)
    ensures ValidState(PointerDownSpec(s, button, isPrimary, pointerId, client, now))
    ensures ValidState(PointerMoveSpec(s, pointerId, client, hovered, now))
    ensures ValidState(PointerUpSpec(s, pointerId, picked, now, hypot))
    ensures ValidState(PointerLeaveSpec(s))
    ensures ValidState(WheelSpec(s, deltaY, lineMode, client, exp).0)
    ensures ValidState(Schedule(s)) && ValidState(s.(framePending := false))
    ensures ValidState(AnimateSpec(s, target, durationMs, now))
    ensures s.animation.Momentum? ==> ValidState(MomentumTickSpec(s, now, hypot, decay))
    ensures s.animation.Tween? ==> ValidState(TweenTickSpec(s, now))
  {
    PointerDownKeepsValid(s, button, isPrimary, pointerId, client, now);
    PointerMoveKeepsValid(s, pointerId, client, hovered, now);
    ReleaseAndWheelKeepValid(s, pointerId, client, picked, deltaY, lineMode, now, hypot, exp);
    FramesKeepValid(s, now, hypot, decay, target, durationMs);
  }
}
