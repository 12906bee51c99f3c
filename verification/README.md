# Portfolio canvas logic, modelled in Dafny

The portfolio site is mostly static content. Three of its components hold
logic with state that can be written down and proved:

- **The interactive globe** (`components/globe-3d.tsx`). The model covers:
  - the rotation state machine: current and target pitch and yaw, the
    auto-rotation accumulator, the last pointer sample, and the dragging and
    hovering flags;
  - its pointer and touch handlers, and the state part of the per-frame
    `animate`;
  - depth culling and depth shading of grid points and cities;
  - the MoveTo/LineTo splitting of each graticule line;
  - the loops that generate the grid and the per-frame line samples, and the
    list of six cities.
- **The star field** (`components/star-field.tsx`). The model covers the
  cursor trail, a FIFO queue of at most 12 fading entries, and the stars that
  fly toward the viewer and are recycled at depth 1000.
- **The contact form** (`components/contact-section.tsx`). The model covers
  the per-field input handler and the send action. Send checks that no field
  is empty, builds the subject, body and `mailto:` link, and clears the form.

All quantities are `real`. Each handler is a pure function from the old state
to the new state. Modules: `Basics` (Option, Max, Min), `GlobeInteraction`,
`GlobeGeometry`, `GlobeRender`, `StarField`, `ContactForm`.

Three facts about the globe's code shape the model:

- A press sets the auto-rotation accumulator to the target yaw, freezing the
  idle spin there ("Stop auto-rotation when dragging starts",
  `globe-3d.tsx:133-134`, and likewise `globe-3d.tsx:165` for a touch). Once
  a drag has started, only `handleMouseLeave` re-seeds the accumulator, and
  only when the dragging flag is clear (`globe-3d.tsx:146-151`, commented
  "Resume gentle auto-rotation"). `handleMouseUp` and `handleTouchEnd` clear
  the flag and re-seed nothing (`globe-3d.tsx:137-139,190-193`). How a drag
  ends therefore decides whether it lasts:
  - mouse-up while still over the globe, then any mouse move: mouse-up keeps
    the hover flag, so the move takes the hover branch. The target yaw
    becomes the press-time value plus the hover lean, and the drag is undone
    (`GlobeInteraction.ReleaseThenHoverUndoesDrag`);
  - mouse-up and then leave, with no mouse move in between: the leave finds
    the flag clear and re-seeds from the dragged yaw, so the drag is kept
    (`GlobeInteraction.ReleaseThenLeaveKeepsDrag`);
  - leave while still dragging: the accumulator stays at its press value,
    and the next idle frame puts the target yaw back at that value plus one
    step (`GlobeInteraction.LeaveWhileDraggingRestoresPressYaw`);
  - touch-end, with the pointer not hovering: likewise, the next frame undoes
    the drag (`GlobeInteraction.TouchEndRestoresPressYaw`).
- The code clamps only the target pitch, and only on drag. The current pitch
  stays in range for two reasons: interpolation never overshoots, and hover
  targets are at most 0.3 in magnitude. That second fact needs a mouse sample
  inside the 250×250 canvas, so `GlobeInteraction.PitchStaysBounded` takes it
  as a hypothesis.
- The code keeps two independent flags, dragging and hovering, and dragging
  takes precedence over hovering when the frame picks its smoothing factor
  and glow (`GlobeInteraction.ModeOf`).

## Model

| member | source | states |
|---|---|---|
| `GlobeInteraction.ModeOf` | components/globe-3d.tsx:211-223 | The mode is Dragging exactly when the dragging flag is set. It is Hovering exactly when hovering and not dragging. It is Idle exactly when neither flag is set. |
| `GlobeInteraction.Smoothing` | components/globe-3d.tsx:211 | The interpolation factor of every mode lies strictly between 0 and 1. |
| `GlobeInteraction.SmoothingOrdered` | components/globe-3d.tsx:211 | The factor is 0.08 when idle, 0.12 when hovering and 0.25 when dragging, so more direct manipulation responds faster. |
| `GlobeInteraction.ClampPitch` | components/globe-3d.tsx:108-111 | The result always lies in [−π/2.5, π/2.5]. A value already in range is kept. A value beyond a bound becomes that bound. |
| `GlobeInteraction.DragTo` | components/globe-3d.tsx:101-113 | A drag-move adds the horizontal pointer delta times the sensitivity to the target yaw. The target pitch ends in the bound however large the vertical delta, and equals old pitch plus delta when that sum is in range. The sample becomes the last pointer position. Nothing else changes. |
| `GlobeInteraction.HoverAt` | components/globe-3d.tsx:114-121 | A hover sets target pitch to (y − 125)·0.003·0.8 and target yaw to auto + (x − 125)·0.003·1.2. For a sample on the canvas the pitch is at most 0.3 in magnitude. Only the two targets change. |
| `GlobeInteraction.HoverForgetsPreviousTarget` | components/globe-3d.tsx:119-120 | Two states with the same accumulator hover to the same targets, whatever their previous targets were, so hovering accumulates nothing. |
| `GlobeInteraction.MouseMove` | components/globe-3d.tsx:95-122 | A mouse move drags at sensitivity 0.015 while dragging, otherwise follows the cursor while hovering, otherwise changes nothing. It never changes the current angles, the accumulator or the flags. |
| `GlobeInteraction.TouchMove` | components/globe-3d.tsx:169-188 | A touch move drags at sensitivity 0.012 only with exactly one touch while dragging. Otherwise the state is unchanged. |
| `GlobeInteraction.Press` | components/globe-3d.tsx:124-135 | A press sets dragging, records the pointer as both the last sample and the drag start, and freezes the accumulator at the target yaw. The targets, current angles and hover flag are kept. |
| `GlobeInteraction.TouchStart` | components/globe-3d.tsx:154-167 | A touch-start is a press exactly when one finger touches. Otherwise it changes nothing. |
| `GlobeInteraction.Release` | components/globe-3d.tsx:137-139 | Mouse-up (and touch-end, lines 190-193) clears the dragging flag and changes nothing else: the accumulator stays frozen at its press value, and targets, current angles, the hover flag and the pointer samples are kept. |
| `GlobeInteraction.Leave` | components/globe-3d.tsx:145-152 | Leave clears both flags. If the pointer was not dragging, the accumulator is re-seeded from the target yaw. If it was dragging, the accumulator is kept. Targets, current angles and the last sample are unchanged. |
| `GlobeInteraction.Ease` | components/globe-3d.tsx:211-213 | The eased value lies between the old current value and the target and never overshoots. It reaches the target only if it was already there. The remaining gap is the old gap times (1 − factor). |
| `GlobeInteraction.Frame` | components/globe-3d.tsx:207-220 | Both angles ease toward the old targets by the factor of the mode. An idle frame adds 0.003 to the accumulator, makes it the target yaw, and multiplies target pitch by 0.95, which shrinks its magnitude and keeps its sign. A non-idle frame leaves the targets and the accumulator alone. Flags and the last sample are kept. |
| `GlobeInteraction.Handle` | components/globe-3d.tsx:95-220 | Every event (mouse, touch or frame) preserves "current and target pitch lie in [−π/2.5, π/2.5]", provided a mouse sample lies on the canvas. |
| `GlobeInteraction.PitchStaysBounded` | components/globe-3d.tsx:95-220 | Over any run of events whose mouse samples lie on the canvas, both pitches stay in the bound, however large the drag deltas. |
| `GlobeInteraction.PitchBoundedFromMount` | components/globe-3d.tsx:20-24 | Starting from the all-zero state at mount, every reachable current pitch is in the bound. |
| `GlobeInteraction.LeaveResumesWithoutSnap` | components/globe-3d.tsx:145-152 | Leaving while not dragging, then one frame, moves the target yaw by exactly 0.003. |
| `GlobeInteraction.PressThenLeaveIsLossless` | components/globe-3d.tsx:124-152 | A press followed by a leave, with no movement between, keeps the target yaw. The next frame moves it by exactly 0.003. |
| `GlobeInteraction.LeaveWhileDraggingRestoresPressYaw` | components/globe-3d.tsx:145-152 | After a press, any drag-move and a leave, the next frame puts the target yaw at its value before the press plus 0.003. The drag's rotation is undone. |
| `GlobeInteraction.DragFiftyPixels` | components/globe-3d.tsx:101-111 | A 50-pixel drag to the right turns the target yaw by 0.75 rad and leaves an in-range target pitch unchanged. |
| `GlobeInteraction.ReleaseThenLeaveKeepsDrag` | components/globe-3d.tsx:124-152 | Over the events press, move, mouse-up, leave and one frame, the target yaw ends at the dragged yaw plus 0.003: the leave re-seeds from the dragged yaw because mouse-up already cleared the flag. |
| `GlobeInteraction.ReleaseThenHoverUndoesDrag` | components/globe-3d.tsx:114-139 | Starting while hovering, over the events press, move, mouse-up and a second move to s, the target yaw ends at its value before the press plus (s.x − 125)·0.003·1.2: mouse-up leaves the hover flag set, so the second move leans around the frozen accumulator and the drag is lost. |
| `GlobeInteraction.TouchEndRestoresPressYaw` | components/globe-3d.tsx:154-193 | Over the events one-finger touch-start, touch-move, touch-end and one frame, with the pointer not hovering, the target yaw ends at its value before the touch plus 0.003: touch-end re-seeds nothing, so the drag is undone. |
| `GlobeGeometry.GridPoints` | components/globe-3d.tsx:40-70 | The generator yields 546 samples. Sample b of parallel a is (−80 + 20a, 12b) for 9 parallels × 30 samples. After them, sample b of meridian a is (−90 + 8b, 30a) for 12 meridians × 23 samples. Every latitude is in [−90, 90] and every longitude in [0, 360). |
| `GlobeGeometry.LineSweep` | components/globe-3d.tsx:300-362 | A parallel line has 181 samples at longitudes 0, 2, …, 360. A meridian line has 91 samples at latitudes −90, −88, …, 90. |
| `GlobeGeometry.LineGrid` | components/globe-3d.tsx:300-362 | A frame draws 17 lines. Lines 0-4 are the parallels at −60, −30, 0, 30, 60; sample k of each is at longitude 2k, for k from 0 to 180. Lines 5-16 are the meridians every 30°; sample k of each is at latitude −90 + 2k, for k from 0 to 90. |
| `GlobeGeometry.OnlyChennaiHighlighted` | components/globe-3d.tsx:72-80 | There are six cities. Exactly one takes the highlight branch: the sixth, Chennai at (13.0827, 80.2707). |
| `GlobeRender.Depth` | components/globe-3d.tsx:251 | A rotated depth in [−1, 1] maps to a shading depth in [0, 1]. |
| `GlobeRender.GridOpacity` | components/globe-3d.tsx:252 | Grid opacity is at least 0.15, and at most 0.8 on the unit sphere. |
| `GlobeRender.GridSize` | components/globe-3d.tsx:253 | Grid point size is at least 0.8, and at most 2 on the unit sphere. |
| `GlobeRender.CityOpacity` | components/globe-3d.tsx:270 | City opacity is at least 0.4, and at most 0.95 on the unit sphere. |
| `GlobeRender.ShadingMonotone` | components/globe-3d.tsx:251-270 | Nearer points are never fainter or smaller than farther ones. |
| `GlobeRender.DrawnGridOpacityAboveFloor` | components/globe-3d.tsx:248-252 | For every drawn grid point the opacity is the depth term and exceeds 0.15, so the 0.15 floor never applies. |
| `GlobeRender.HorizonFloors` | components/globe-3d.tsx:248-270 | Drawn grid points with z in (−0.3, −0.2] sit at the size floor 0.8. Drawn cities with z in (−0.4, −0.16] sit at the opacity floor 0.4. |
| `GlobeRender.CullThresholdsNest` | components/globe-3d.tsx:248-266 | The thresholds are nested: a depth that draws a grid point also draws a city, and one that draws a city also draws a line sample. |
| `GlobeRender.DrawGridPoint` | components/globe-3d.tsx:245-260 | A grid point is drawn exactly when rotated z > −0.3. It is drawn at its orthographic screen position, with opacity GridOpacity(z) and size GridSize(z), hence at least 0.15 and 0.8. |
| `GlobeRender.DrawCity` | components/globe-3d.tsx:263-298 | A city is drawn exactly when rotated z > −0.4, at its screen position, with opacity CityOpacity(z), hence at least 0.4. It is highlighted exactly when its name is "Chennai". |
| `GlobeRender.Glow` | components/globe-3d.tsx:223 | The outline glow of every mode lies strictly between 0 and 1. |
| `GlobeRender.GlowOrdered` | components/globe-3d.tsx:223 | The glow is 0.4 when idle, 0.6 when hovering and 0.8 when dragging, so the outline is brightest while dragging. |
| `GlobeRender.TracePolyline` | components/globe-3d.tsx:326-338 | The flag-driven loop emits the commands of the reference definition `Polyline`. In that definition each sample's command depends only on the sample and its predecessor. The loop emits one command per visible sample. |
| `GlobeRender.PolylineLength` | components/globe-3d.tsx:326-338 | The path has exactly as many commands as the line has samples with z > −0.6. Culled samples emit nothing. |
| `GlobeRender.PolylineAt` | components/globe-3d.tsx:326-338 | Visible sample i emits the command at position "visible samples before i". That command is a MoveTo exactly when i is the first sample or follows a culled one, and otherwise a LineTo to the sample's point. |
| `GlobeRender.PolylineBreaksAtCulled` | components/globe-3d.tsx:326-338 | For a line a + [culled] + b, the path is the path of a followed by the path of b, so no LineTo joins samples across a culled one. |
| `GlobeRender.PolylineStartsWithMoveTo` | components/globe-3d.tsx:326-338 | Every non-empty path starts with a MoveTo. |
| `GlobeRender.PolylineOfVisibleRun` | components/globe-3d.tsx:368-380 | A run of visible samples draws one connected piece: a MoveTo to the first sample, then a LineTo to each later one. |
| `StarField.NewDot` | components/star-field.tsx:59-64 | A new trail entry sits at the pointer position and is fully opaque. Its size is 15 plus 8 times the random draw, so it lies in [15, 23) for a draw in [0, 1). |
| `StarField.Push` | components/star-field.tsx:59-69 | The new entry is appended at the back. With fewer than 12 entries nothing is dropped. Otherwise the oldest, at the front, is dropped. A trail of at most 12 entries stays at most 12. |
| `StarField.MouseMove` | components/star-field.tsx:55-70 | A mouse move appends one fully opaque entry at the pointer after the kept entries. The oldest entry falls off a full trail, and a trail of at most 12 stays at most 12. |
| `StarField.PushAllKeepsNewest` | components/star-field.tsx:55-70 | After any sequence of pushes, the trail is the last min(12, n) of the n entries that were already there plus those pushed, in arrival order (first in, first out). |
| `StarField.PushAllBounded` | components/star-field.tsx:63-69 | However many entries are pushed, a trail that starts within the limit never holds more than 12. |
| `StarField.Fade` | components/star-field.tsx:130-131 | One frame lowers an entry's opacity by exactly 0.08 and multiplies its size by 0.92. The position is kept. |
| `StarField.FadeAll` | components/star-field.tsx:129-131 | Every entry of the trail fades once, position by position. |
| `StarField.Live` | components/star-field.tsx:147 | The filtered trail is no longer than the input, and every kept entry has opacity above zero. |
| `StarField.LiveMembers` | components/star-field.tsx:147 | An entry is kept exactly when it was in the trail with opacity above zero. |
| `StarField.LiveAppend` | components/star-field.tsx:147 | Filtering distributes over concatenation, so kept entries keep their relative order. |
| `StarField.TrailFrame` | components/star-field.tsx:129-147 | After a frame the trail holds exactly the faded versions of the entries whose opacity was above 0.08, which are the entries drawn on that frame. It never grows. |
| `StarField.TrailFrameAppend` | components/star-field.tsx:129-147 | A frame acts on each part of the trail independently. |
| `StarField.FadeNOpacity` | components/star-field.tsx:130 | After k frames of fading an entry's opacity has dropped by exactly 0.08·k. Its position is unchanged. |
| `StarField.FramesOfOne` | components/star-field.tsx:129-147 | A lone visible entry is still present after k frames exactly while its opacity minus 0.08·k is above zero. |
| `StarField.TrailLifetime` | components/star-field.tsx:62-147 | An entry born at opacity 1 survives, and is drawn, on frames 1 to 12. It is gone from the 13th frame on. |
| `StarField.Apply` | components/star-field.tsx:55-147 | Neither a pointer sample nor a frame takes a trail of at most 12 entries beyond 12. |
| `StarField.TrailStaysBounded` | components/star-field.tsx:66-69 | Over any interleaving of pointer samples and frames the trail never holds more than 12 entries. |
| `StarField.Project` | components/star-field.tsx:94-95 | Projection is non-finite exactly at depth zero, where the source divides by zero. |
| `StarField.Spread` | components/star-field.tsx:44-45 | A draw in [0, 1) places a coordinate within half the window extent of the centre. |
| `StarField.StepStar` | components/star-field.tsx:93-105 | A star moves speed·0.7 closer and remembers its projection at the old depth. If it reaches depth ≤ 0 it respawns at depth 1000 at a fresh position, with its previous projection recomputed there. With positive speed and depth ≤ 1000 the new depth is in (0, 1000]. |
| `StarField.StarOpacity` | components/star-field.tsx:110 | Star opacity lies in [0, 1] for non-negative depth and is 0 at the far plane. |
| `StarField.StarSize` | components/star-field.tsx:111 | Star size lies in [0, 2.5] for non-negative depth and is 0 at the far plane. |
| `StarField.StarShadingMonotone` | components/star-field.tsx:110-111 | A nearer star is never fainter or smaller. |
| `StarField.Spawn` | components/star-field.tsx:43-50 | With draws in [0, 1) a new star has speed in [0.2, 1.0) and depth in [0, 1000). Its previous projection is (0, 0). |
| `StarField.CreateStars` | components/star-field.tsx:40-53 | Creation yields exactly 800 stars, star i made from draw i. With unit draws every speed is in [0.2, 1.0) and every depth in [0, 1000). |
| `StarField.StepField` | components/star-field.tsx:93-126 | Every star steps once, in place. If all stars have positive speed and depth in (0, 1000], they still do after the frame. |
| `StarField.FirstFrameInFlight` | components/star-field.tsx:41-105 | A freshly created field, with depths in [0, 1000), has every depth in (0, 1000] after one frame. |
| `ContactForm.Change` | components/contact-section.tsx:20-26 | An input change sets the named field to the value and leaves the other fields unchanged. |
| `ContactForm.Send` | components/contact-section.tsx:28-64 | Send alerts exactly when some field is empty, and then keeps the form and does not navigate. Otherwise it navigates to the mail link built from the subject and body and resets all three fields to "". |
| `ContactForm.SubjectRoundTrip` | components/contact-section.tsx:38 | The subject is the fixed prefix followed by the name, and the sender's name reads back from it unchanged. |
| `ContactForm.BodyFieldsInOrder` | components/contact-section.tsx:39-50 | The body is the fixed template. It holds the name, the email, the message and the name again, in that order, at positions fixed by the preceding lengths. |
| `ContactForm.Mailto` | components/contact-section.tsx:53 | Every mail link starts with "mailto:adityanair5002@gmail.com?subject=". |
| `ContactForm.MailtoRoundTrip` | components/contact-section.tsx:53 | The encoded subject parameter comes before the encoded body parameter. Both read back unchanged when the encoded subject holds no `&`. |
| `ContactForm.FillThenSendClears` | components/contact-section.tsx:59-63 | Filling all three fields and sending leaves an empty form, so an immediate second send is rejected. |

## Left out

- Canvas drawing has no state the model could observe and is not modelled:
  gradients, arcs, strokes, shadows, line widths, the label text and its
  opacity, and the CSS filter.
- `rotatePoint` and the degree-to-Cartesian conversion are floating-point
  trigonometry. The render functions take already-rotated points, and the
  grid is kept as whole-degree pairs. Two properties depend on this
  trigonometry and are not stated: that generated points lie on the unit
  sphere, and that Chennai faces the viewer at zero rotation.
- Floating-point rounding is not modelled. All quantities are reals, and
  `Math.PI` is the shortest decimal that reads back as that double, not the
  double's exact binary value.
- The `requestAnimationFrame` loop and its cancellation are not modelled. Nor
  is the effect re-registration on `[isDragging, isHovering]`, with its stale
  reads of the flags. Each step reads the flags from the state it is given.
- `getBoundingClientRect` and event-listener wiring are not modelled: pointer
  positions arrive already in canvas-local coordinates. `preventDefault`, the
  context-menu handler and `setMousePos` are also left out; the last is state
  that nothing reads.
- `Math.random` is not called: draws are inputs. The window size, set by
  `resizeCanvas`, is a parameter.
- `encodeURIComponent` is a parameter. `alert` and the assignment to
  `window.location` are returned as an `Effect` value instead of being
  performed.
- ContactForm.Send: `encodeURIComponent` throws on a lone UTF-16 surrogate,
  which makes `handleSendEmail` (`contact-section.tsx:53`) fail before the
  navigation and before the form is cleared. The encoder here is a total
  function, and Dafny strings cannot hold lone surrogates, so this error path
  is not modelled.
- ContactForm.Change: the input names are restricted to the three form
  fields. Those are the only inputs the form renders
  (`contact-section.tsx:99,114,130`), while `[name]: value` would accept any
  key.
- StarField.Project: JavaScript's distinction between ±Infinity and NaN at
  depth zero collapses into one non-finite value.
- GlobeInteraction.PitchStaysBounded: holds only when hover samples lie
  inside the 250×250 canvas. The code does not enforce this; the browser
  delivers canvas mouse events inside the canvas.
- The other components are static content or timer and DOM plumbing with no
  logic to state, and are not modelled: the page and layout, the skills,
  experience, projects and achievements sections, the sidebar, the contact
  popup, floating objects, the image zoom modal, mobile notifications and the
  hamburger menu.
