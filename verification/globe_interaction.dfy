/** The rotation state machine of the interactive globe: pointer and touch
    handlers, and the state part of the per-frame update.

    Angles are reals in radians. `pitch` is rotation about the horizontal axis
    (the source's `rotation.x`), `yaw` rotation about the vertical axis (the
    source's `rotation.y`). The mode flags are part of the state and every
    handler reads their current value. */
module GlobeInteraction {
  import opened Basics

  /** `Math.PI`, written as the shortest decimal that reads back as that
      double (the double's exact binary value differs beyond the 16th digit). */
  const Pi: real := 3.141592653589793
  /** Target pitch never leaves [-PitchBound, PitchBound]. */
  const PitchBound: real := Pi / 2.5

  /** The canvas is 250 by 250 pixels; centre and hover offsets derive from it. */
  const CanvasSize: real := 250.0
  const CenterX: real := CanvasSize / 2.0
  const CenterY: real := CanvasSize / 2.0

  /** Radians per pixel of drag, for a mouse and for one finger. */
  const MouseSensitivity: real := 0.015
  const TouchSensitivity: real := 0.012
  /** Radians per pixel of offset from the centre while hovering. */
  const HoverSensitivity: real := 0.003
  const HoverPitchScale: real := 0.8
  const HoverYawScale: real := 1.2
  /** Idle spin per frame, and the per-frame pitch decay toward level. */
  const AutoStep: real := 0.003
  const PitchDecay: real := 0.95

  /** Largest pitch magnitude a hover sample inside the canvas can ask for. */
  const HoverPitchLimit: real := 0.3

  datatype Pointer = Pointer(x: real, y: real)

  datatype Mode = Idle | Hovering | Dragging

  datatype Globe = Globe(
    pitch: real,          // current rotation, eased toward the target
    yaw: real,
    targetPitch: real,
    targetYaw: real,
    auto: real,           // auto-rotation accumulator
    last: Pointer,        // last pointer sample while dragging
    dragStart: Pointer,
    dragging: bool,
    hovering: bool)

  /** The state at mount: everything zero, no interaction. */
  const Initial: Globe :=
    Globe(0.0, 0.0, 0.0, 0.0, 0.0, Pointer(0.0, 0.0), Pointer(0.0, 0.0), false, false)

  /** Dragging wins over hovering. */
  function ModeOf(g: Globe): (m: Mode)
    ensures m == Dragging <==> g.dragging
    ensures m == Hovering <==> !g.dragging && g.hovering
    ensures m == Idle <==> !g.dragging && !g.hovering
  {
    if g.dragging then Dragging else if g.hovering then Hovering else Idle
  }

  /** Interpolation factor per mode: fast while dragging, gentle when idle. */
  function Smoothing(m: Mode): (f: real)
    ensures 0.0 < f < 1.0
  {
    match m
    case Dragging => 0.25
    case Hovering => 0.12
    case Idle => 0.08
  }

  /** More direct manipulation means a faster response. */
  lemma SmoothingOrdered()
    ensures Smoothing(Idle) == 0.08 && Smoothing(Hovering) == 0.12 && Smoothing(Dragging) == 0.25
    ensures Smoothing(Idle) < Smoothing(Hovering) < Smoothing(Dragging)
  {
  }

  predicate InPitchRange(v: real) {
    -PitchBound <= v <= PitchBound
  }

  /** `Math.max(-B, Math.min(B, v))`: the nearest value of the pitch range. */
  function ClampPitch(v: real): (r: real)
    ensures InPitchRange(r)
    ensures InPitchRange(v) ==> r == v
    ensures v > PitchBound ==> r == PitchBound
    ensures v < -PitchBound ==> r == -PitchBound
  {
    Max(-PitchBound, Min(PitchBound, v))
  }

  /** A drag-move at sensitivity `k`: the horizontal delta turns the target
      yaw, the vertical delta tilts the target pitch within the bound, and the
      sample becomes the new reference point. */
  function DragTo(g: Globe, p: Pointer, k: real): (r: Globe)
    ensures r.targetYaw == g.targetYaw + (p.x - g.last.x) * k
    ensures InPitchRange(r.targetPitch)
    ensures InPitchRange(g.targetPitch + (p.y - g.last.y) * k) ==>
              r.targetPitch == g.targetPitch + (p.y - g.last.y) * k
    ensures r.last == p
    ensures r == g.(targetYaw := r.targetYaw, targetPitch := r.targetPitch, last := p)
  {
    g.(targetYaw := g.targetYaw + (p.x - g.last.x) * k,
       targetPitch := ClampPitch(g.targetPitch + (p.y - g.last.y) * k),
       last := p)
  }

  predicate OnCanvas(p: Pointer) {
    0.0 <= p.x <= CanvasSize && 0.0 <= p.y <= CanvasSize
  }

  /** Hover-follow: the globe leans toward the cursor around the
      auto-rotation angle; the previous target is overwritten. */
  function HoverAt(g: Globe, p: Pointer): (r: Globe)
    ensures r.targetPitch == (p.y - CenterY) * HoverSensitivity * HoverPitchScale
    ensures r.targetYaw == g.auto + (p.x - CenterX) * HoverSensitivity * HoverYawScale
    ensures OnCanvas(p) ==> -HoverPitchLimit <= r.targetPitch <= HoverPitchLimit
    ensures r == g.(targetPitch := r.targetPitch, targetYaw := r.targetYaw)
  {
    g.(targetPitch := (p.y - CenterY) * HoverSensitivity * HoverPitchScale,
       targetYaw := g.auto + (p.x - CenterX) * HoverSensitivity * HoverYawScale)
  }

  /** Hovering does not accumulate: two states that differ only in their
      targets hover to the same targets. */
  lemma HoverForgetsPreviousTarget(g: Globe, h: Globe, p: Pointer)
    requires g.auto == h.auto
    ensures HoverAt(g, p).targetPitch == HoverAt(h, p).targetPitch
    ensures HoverAt(g, p).targetYaw == HoverAt(h, p).targetYaw
  {
  }

  /** `handleMouseMove`: drag if dragging, else follow if hovering, else
      nothing. */
  function MouseMove(g: Globe, p: Pointer): (r: Globe)
    ensures g.dragging ==> r == DragTo(g, p, MouseSensitivity)
    ensures !g.dragging && g.hovering ==> r == HoverAt(g, p)
    ensures !g.dragging && !g.hovering ==> r == g
    ensures r.pitch == g.pitch && r.yaw == g.yaw && r.auto == g.auto
    ensures r.dragging == g.dragging && r.hovering == g.hovering
  {
    if g.dragging then DragTo(g, p, MouseSensitivity)
    else if g.hovering then HoverAt(g, p)
    else g
  }

  /** `handleTouchMove`: drags only with exactly one finger while dragging. */
  function TouchMove(g: Globe, touches: seq<Pointer>): (r: Globe)
    ensures |touches| == 1 && g.dragging ==> r == DragTo(g, touches[0], TouchSensitivity)
    ensures !(|touches| == 1 && g.dragging) ==> r == g
  {
    if |touches| == 1 && g.dragging then DragTo(g, touches[0], TouchSensitivity) else g
  }

  /** Press (mouse-down, or a one-finger touch-start): start dragging from
      `p` and freeze the auto-rotation at the current target yaw. */
  function Press(g: Globe, p: Pointer): (r: Globe)
    ensures r.dragging && r.last == p && r.dragStart == p
    ensures r.auto == g.targetYaw
    ensures r.targetYaw == g.targetYaw && r.targetPitch == g.targetPitch
    ensures r.pitch == g.pitch && r.yaw == g.yaw && r.hovering == g.hovering
  {
    g.(dragging := true, last := p, dragStart := p, auto := g.targetYaw)
  }

  /** `handleTouchStart`: only a single touch starts a drag. */
  function TouchStart(g: Globe, touches: seq<Pointer>): (r: Globe)
    ensures |touches| == 1 ==> r == Press(g, touches[0])
    ensures |touches| != 1 ==> r == g
  {
    if |touches| == 1 then Press(g, touches[0]) else g
  }

  /** `handleMouseUp` and `handleTouchEnd`: dragging stops; nothing is
      re-seeded, so the accumulator stays frozen at the press. */
  function Release(g: Globe): (r: Globe)
    ensures !r.dragging && r.hovering == g.hovering
    ensures r.auto == g.auto && r.targetYaw == g.targetYaw && r.targetPitch == g.targetPitch
    ensures r.pitch == g.pitch && r.yaw == g.yaw && r.last == g.last && r.dragStart == g.dragStart
  {
    g.(dragging := false)
  }

  /** `handleMouseLeave`: both flags clear; the accumulator is re-seeded from
      the target yaw only when the pointer was not dragging. */
  function Leave(g: Globe): (r: Globe)
    ensures !r.dragging && !r.hovering
    ensures !g.dragging ==> r.auto == g.targetYaw
    ensures g.dragging ==> r.auto == g.auto
    ensures r.targetYaw == g.targetYaw && r.targetPitch == g.targetPitch
    ensures r.pitch == g.pitch && r.yaw == g.yaw && r.last == g.last
  {
    g.(hovering := false, dragging := false,
       auto := if !g.dragging then g.targetYaw else g.auto)
  }

  /** `current + (target - current) * f` for the mode's factor. */
  function Ease(current: real, target: real, m: Mode): (r: real)
    ensures current <= target ==> current <= r <= target
    ensures target <= current ==> target <= r <= current
    ensures current != target ==> r != target
    ensures r - target == (current - target) * (1.0 - Smoothing(m))
  {
    current + (target - current) * Smoothing(m)
  }

  /** The state part of `animate`: ease both angles with the factor of the
      mode, then, when idle, spin the accumulator, make it the target yaw,
      and decay the target pitch toward level. */
  function Frame(g: Globe): (r: Globe)
    ensures r.pitch == Ease(g.pitch, g.targetPitch, ModeOf(g))
    ensures r.yaw == Ease(g.yaw, g.targetYaw, ModeOf(g))
    ensures ModeOf(g) == Idle ==>
              r.auto == g.auto + AutoStep && r.targetYaw == r.auto
              && r.targetPitch == PitchDecay * g.targetPitch
    ensures ModeOf(g) == Idle && 0.0 <= g.targetPitch ==> 0.0 <= r.targetPitch <= g.targetPitch
    ensures ModeOf(g) == Idle && g.targetPitch <= 0.0 ==> g.targetPitch <= r.targetPitch <= 0.0
    ensures ModeOf(g) != Idle ==>
              r.auto == g.auto && r.targetYaw == g.targetYaw && r.targetPitch == g.targetPitch
    ensures r.dragging == g.dragging && r.hovering == g.hovering && r.last == g.last
  {
    var m := ModeOf(g);
    var eased := g.(pitch := Ease(g.pitch, g.targetPitch, m), yaw := Ease(g.yaw, g.targetYaw, m));
    if m == Idle then
      var a := eased.auto + AutoStep;
      eased.(auto := a, targetYaw := a, targetPitch := eased.targetPitch * PitchDecay)
    else
      eased
  }

  /** Everything that reaches the globe. */
  datatype Event =
    | MouseMoved(p: Pointer)
    | MousePressed(p: Pointer)
    | MouseReleased
    | MouseEntered
    | MouseLeft
    | TouchStarted(touches: seq<Pointer>)
    | TouchMoved(touches: seq<Pointer>)
    | TouchEnded
    | AnimationFrame

  /** Mouse samples arrive in canvas-local coordinates inside the canvas. */
  predicate SampleOnCanvas(e: Event) {
    e.MouseMoved? ==> OnCanvas(e.p)
  }

  /** Both pitches lie inside the bound. */
  predicate PitchInvariant(g: Globe) {
    InPitchRange(g.pitch) && InPitchRange(g.targetPitch)
  }

  /** One event applied to the state. */
  function Handle(g: Globe, e: Event): (r: Globe)
    ensures PitchInvariant(g) && SampleOnCanvas(e) ==> PitchInvariant(r)
  {
    match e
    case MouseMoved(p) => MouseMove(g, p)
    case MousePressed(p) => Press(g, p)
    case MouseReleased => Release(g)
    case MouseEntered => g.(hovering := true)
    case MouseLeft => Leave(g)
    case TouchStarted(ts) => TouchStart(g, ts)
    case TouchMoved(ts) => TouchMove(g, ts)
    case TouchEnded => Release(g)
    case AnimationFrame => Frame(g)
  }

  /** A sequence of events applied in order. */
  function Run(g: Globe, es: seq<Event>): Globe
    decreases |es|
  {
    if |es| == 0 then g else Run(Handle(g, es[0]), es[1..])
  }

  /** The current pitch never leaves the bound, over any run of events whose
      mouse samples lie on the canvas, however large the drag deltas. */
  lemma {:induction false} PitchStaysBounded(g: Globe, es: seq<Event>)
    requires PitchInvariant(g)
    requires forall i :: 0 <= i < |es| ==> SampleOnCanvas(es[i])
    ensures PitchInvariant(Run(g, es))
    decreases |es|
  {
    if |es| > 0 {
      PitchStaysBounded(Handle(g, es[0]), es[1..]);
    }
  }

  /** From mount, every reachable pitch is inside the bound. */
  lemma PitchBoundedFromMount(es: seq<Event>)
    requires forall i :: 0 <= i < |es| ==> SampleOnCanvas(es[i])
    ensures InPitchRange(Run(Initial, es).pitch)
  {
    PitchStaysBounded(Initial, es);
  }

  /** Leaving while merely hovering resumes the idle spin without a jump:
      the next frame moves the target yaw by exactly one step. */
  lemma LeaveResumesWithoutSnap(g: Globe)
    requires !g.dragging
    ensures Frame(Leave(g)).targetYaw == g.targetYaw + AutoStep
  {
  }

  /** A press followed by leaving, with no movement in between, is lossless:
      the spin resumes from the yaw it had. */
  lemma PressThenLeaveIsLossless(g: Globe, p: Pointer)
    ensures Leave(Press(g, p)).targetYaw == g.targetYaw
    ensures Frame(Leave(Press(g, p))).targetYaw == g.targetYaw + AutoStep
  {
  }

  /** Leaving during a drag keeps the accumulator frozen at the press, so the
      next idle frame returns the target yaw to where the drag began. */
  lemma LeaveWhileDraggingRestoresPressYaw(g: Globe, p: Pointer, q: Pointer)
    ensures var d := MouseMove(Press(g, p), q);
            Frame(Leave(d)).targetYaw == g.targetYaw + AutoStep
  {
  }

  /** A drag released with mouse-up before leaving is kept: the leave finds
      the dragging flag clear and re-seeds the accumulator from the dragged
      yaw, so the spin resumes from where the drag ended. */
  lemma ReleaseThenLeaveKeepsDrag(g: Globe, p: Pointer, q: Pointer)
    ensures var d := MouseMove(Press(g, p), q);
            Run(g, [MousePressed(p), MouseMoved(q), MouseReleased, MouseLeft, AnimationFrame]).targetYaw
              == d.targetYaw + AutoStep
  {
    var g1 := Press(g, p);
    var g2 := MouseMove(g1, q);
    var g4 := Leave(Release(g2));
    RunStep(g, MousePressed(p), [MouseMoved(q), MouseReleased, MouseLeft, AnimationFrame]);
    RunStep(g1, MouseMoved(q), [MouseReleased, MouseLeft, AnimationFrame]);
    RunStep(g2, MouseReleased, [MouseLeft, AnimationFrame]);
    RunStep(Release(g2), MouseLeft, [AnimationFrame]);
    RunStep(g4, AnimationFrame, []);
  }

  /** A drag released over the globe does not last: mouse-up keeps the
      hover flag, so the next move takes the hover branch and leans around
      the accumulator frozen at the press, discarding the dragged yaw. */
  lemma ReleaseThenHoverUndoesDrag(g: Globe, p: Pointer, q: Pointer, s: Pointer)
    requires g.hovering
    ensures Run(g, [MousePressed(p), MouseMoved(q), MouseReleased, MouseMoved(s)]).targetYaw
              == g.targetYaw + (s.x - CenterX) * HoverSensitivity * HoverYawScale
  {
    var g1 := Press(g, p);
    var g2 := MouseMove(g1, q);
    var g3 := Release(g2);
    RunStep(g, MousePressed(p), [MouseMoved(q), MouseReleased, MouseMoved(s)]);
    RunStep(g1, MouseMoved(q), [MouseReleased, MouseMoved(s)]);
    RunStep(g2, MouseReleased, [MouseMoved(s)]);
    RunStep(g3, MouseMoved(s), []);
  }

  /** A one-finger drag ends with touch-end, which re-seeds nothing: unless
      the pointer hovers, the next frame returns the target yaw to one step
      past its value at the touch, and the drag is undone. */
  lemma TouchEndRestoresPressYaw(g: Globe, p: Pointer, q: Pointer)
    requires !g.hovering
    ensures Run(g, [TouchStarted([p]), TouchMoved([q]), TouchEnded, AnimationFrame]).targetYaw
              == g.targetYaw + AutoStep
  {
    var g1 := Press(g, p);
    var g2 := DragTo(g1, q, TouchSensitivity);
    RunStep(g, TouchStarted([p]), [TouchMoved([q]), TouchEnded, AnimationFrame]);
    RunStep(g1, TouchMoved([q]), [TouchEnded, AnimationFrame]);
    RunStep(g2, TouchEnded, [AnimationFrame]);
    RunStep(Release(g2), AnimationFrame, []);
  }

  /** A run handles its first event, then the rest. */
  lemma RunStep(g: Globe, e: Event, rest: seq<Event>)
    ensures Run(g, [e] + rest) == Run(Handle(g, e), rest)
  {
    assert ([e] + rest)[1..] == rest;
  }

  /** Dragging 50 pixels to the right turns the target yaw by 0.75 radians
      and leaves an in-range target pitch alone. */
  lemma DragFiftyPixels(g: Globe)
    requires g.dragging && InPitchRange(g.targetPitch)
    ensures var r := MouseMove(g, Pointer(g.last.x + 50.0, g.last.y));
            r.targetYaw == g.targetYaw + 0.75 && r.targetPitch == g.targetPitch
  {
  }
}
