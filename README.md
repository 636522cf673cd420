# G-code path editor: store, editing rules and arc geometry

This project models the core of a browser editor for a G-code toolpath.
The path is an ordered list of segments. Each segment has a command, a
target point, an `editing` flag and an optional arc centre. The command is
`G01` for a straight line, or `G02`/`G03` for an arc. Segment `i` runs from
the target of segment `i - 1` to its own target.

The model has four modules, plus `Wrappers` (`wrappers.dfy`), which holds
the `Option` type they share:

- `PathStore` (`path_store.dfy`): the store. The class `Store` holds the
  segment list and has two actions:
  - `CreateSegment` appends the default line to the origin;
  - `UpdateSegment` replaces one record by a shallow merge with a delta.

  `Replay` runs a sequence of store actions.
- `Geometry` (`geometry.dfy`): the arc arithmetic of the 3D view.
  - `CalcCenter` is the arc-centre computation. `YFactor` gives its quadrant
    sign, which is undefined on horizontal and vertical chords.
  - `SnapCenter` is the snap a dragged centre performs.
  - `ArcSigns` is the start-angle and sweep sign selection used when an arc
    is drawn.

  Cosine, square root and vector distance are not computed. They are real
  parameters constrained by their defining equations:
  - `IsSqrt` and `IsDistance` for the square root and the distance;
  - `ExactCosine` for the cosine `calcCenter` derives from `angleTo`.
- `Editor` (`editor.dfy`): one method per user action, each issuing the
  `updateSegment` calls of the JavaScript handler in the same order:
  - clicking an endpoint;
  - toggling a shape between line and arc;
  - double-clicking an arc centre;
  - releasing a dragged endpoint;
  - releasing a dragged arc centre.

  Each method is proved equal to an `After...` function that gives the
  resulting list directly. `ShowZ` is the rule for offering the Z handle.
- `EditorInvariants` (`editor_invariants.dfy`): the invariant `WellFormed`.
  - Segment 0 is a line.
  - Every arc has a planar chord and a centre in that plane.
  - Whenever the centre's y is a number, the centre is equally far from both
    chord ends in the x/y plane.

  `RunPreserves` proves that every session of UI events keeps the invariant,
  and `StepPreserves` proves that no endpoint drag then throws.

A NaN coordinate is explicit in the model:
- `calcCenter` leaves its quadrant sign undefined when the chord is
  horizontal or vertical, so the computed y is NaN.
- `CenterPoint.y` is then `None`, and the stored centre key is `NaN`.

A JavaScript object spread (`{...a, ...b}`) is `Merge`, `Combine` and
`WithXY`. An absent key is `Missing`, and a segment with no `center` key has
`Absent`.

## Model

| member | source | states |
|---|---|---|
| PathStore.Store.constructor | store/path.js:4-6 | the store starts with an empty segment list |
| PathStore.Store.CreateSegment | store/path.js:7-13 | the list grows by exactly one, every earlier segment is unchanged, and the new last segment is the G01 line to (0,0,0), not editing, with no centre, whatever the arguments |
| PathStore.Store.UpdateSegment | store/path.js:14-16 | the new list is `Updated(old list, id, delta)` |
| PathStore.Spread | components/Editor.js:324-338 | a whole record passed as a delta sets every key it carries, and leaves the previous centre when it has none |
| PathStore.Updated | store/path.js:14-16 | only index `id` changes and the length is kept; each key present in the delta takes the delta's value; each absent key keeps its previous value |
| PathStore.UpdateIdempotent | store/path.js:15 | applying the same delta twice equals applying it once |
| PathStore.UpdateComposes | store/path.js:15 | two updates of one index equal one update with the two deltas spread together, the second winning |
| PathStore.UpdatesCommute | store/path.js:15 | updates of two different indices commute |
| PathStore.ReplayLength | store/path.js:4-17 | after any sequence of store actions the list has grown by exactly the number of `createSegment` calls, so it never shrinks |
| Geometry.Midpoint | components/Editor.js:49 | `lerpVectors(a, b, 0.5)` is the point halfway between the chord ends in every coordinate |
| Geometry.YFactor | components/Editor.js:54-58 | `y_f` is defined exactly when start differs from the midpoint in both x and y. It is `-x_f` when start is up-right or down-left of the midpoint, and `x_f` when start is up-left or down-right |
| Geometry.CalcCenter | components/Editor.js:48-67 | the centre has the midpoint's z, has a defined y exactly when the chord is neither horizontal nor vertical, and lies on the `x_f` side of the midpoint |
| Geometry.RadicandNonNegative | components/Editor.js:65-66 | `dis² - offsetY²` is never negative when the cosine lies in [-1, 1] |
| Geometry.CenterAtDistance | components/Editor.js:65-67 | with `x_f = ±1` and a defined y, the centre lies at distance `dis` from the midpoint in the x/y plane |
| Geometry.ChordMidCenter | components/Editor.js:123-126 | `calcCenter(s, e, 0, 1)` (also at lines 139-142 and 330) is the chord midpoint, with y NaN on a horizontal or vertical chord |
| Geometry.ZeroDistanceIgnoresTrig | components/Editor.js:60-67 | at `dis = 0`, the result of `calcCenter` depends on neither `x_f` nor the cosine and square-root values |
| Geometry.Side | components/Editor.js:200 | `x_f` is 1 exactly when the dragged point is right of the midpoint, and -1 otherwise |
| Geometry.SnapCenter | components/Editor.js:196-203 | the snapped centre lies on the same side of the midpoint as the dragged point, and when its y is defined it is as far from the midpoint as the dragged point |
| Geometry.SnapOnBisector | components/Editor.js:54-67 | for a planar chord, a snapped centre with a defined y is equally far from both chord ends, so it lies on the chord's perpendicular bisector |
| Geometry.SnapRoundTrip | components/Editor.js:200-203 | from a centre computed with side `x_f` and distance `dis > 0`, the centre drag reads back `x_f` and `dis` |
| Geometry.SnapAtMidpointIdempotent | components/Editor.js:196-207 | snapping the chord midpoint gives the midpoint again |
| Geometry.SnapIdempotent | components/Editor.js:196-207 | snapping an already snapped centre leaves it where it is |
| Geometry.ArcSigns | components/Editor.js:18-33 | `positive` and `positiveS` are ±1, and both are 1 when start shares x or y with the midpoint. Otherwise `positive = -1` exactly when the centre is above start, and `positiveS = -1` exactly when start is below the midpoint with the centre to its right, or above it with the centre to its left |
| Geometry.SweepSignFollowsSide | components/Editor.js:20-33 | for a centre computed by `calcCenter` off the midpoint, the sweep sign is -1 exactly when "start is below the midpoint" agrees with "`x_f` is 1" |
| Editor.ShowZ | components/Editor.js:160 | with `canEnableZ` of line 92, the Z handle is offered exactly when the endpoint is being edited, its own shape is a line, and there is no next shape or the next shape is a line |
| Editor.WithXY | components/Editor.js:127-131 | `{...c, x, y}` (also at lines 143-147 and 213-217) sets x and y and keeps the previous z, which is missing when there was no centre |
| Editor.AfterClickSegment | components/Editor.js:163 | a click flips the endpoint's `editing` flag and changes nothing else |
| Editor.ClickSegment | components/Editor.js:163 | the click handler leaves the list `AfterClickSegment` describes |
| Editor.AfterTransformShape | components/Editor.js:321-339 | the shape changes only if its endpoint is being edited and both chord ends share z. It then turns a line into a G02 arc, and turns either arc into a line whose centre is `{}` with every other key kept. It keeps the target and `editing` and touches no other index |
| Editor.TransformShape | components/Editor.js:321-339 | the toggle handler leaves the list `AfterTransformShape` describes |
| Editor.ToggleTwice | components/Editor.js:321-339 | toggling twice returns a line as a line whose centre is `{}`, and returns either arc as G02, so a G03 comes back as G02 |
| Editor.ToggleToArcCenter | components/Editor.js:326-333 | a line becomes G02 centred on the chord midpoint, with y NaN on a horizontal or vertical chord |
| Editor.AfterDoubleClickCenter | components/Editor.js:246 | a double click changes only the command of that arc |
| Editor.DoubleClickCenter | components/Editor.js:246 | the double-click handler leaves the list `AfterDoubleClickCenter` describes |
| Editor.DoubleClickInvolution | components/Editor.js:246 | on an arc, the double click swaps G02 and G03, reverses the drawing direction `isCW`, and undoes itself |
| Editor.AfterSegmentDragEnd | components/Editor.js:99-148 | the endpoint's target becomes the dragged point, and its `editing` flag flips exactly when the press was a click. Only this index and the next one change, and the next one only in its centre. With the reference-image calls left out (see "Left out"), the handler throws exactly for an arc at index 0 |
| Editor.SegmentDragEnd | components/Editor.js:99-148 | the drag-end handler's updates leave the list `AfterSegmentDragEnd` describes and report whether it threw |
| Editor.DragEndRecentresArcs | components/Editor.js:117-147 | each adjacent arc's centre is reset in x and y to the midpoint of its new chord, with y NaN on a horizontal or vertical chord. Each of the two centres keeps its previous z, and lines are left alone |
| Editor.ZHandleLeavesCentres | components/Editor.js:99-148 | when the Z handle is offered, releasing the endpoint changes only its target and `editing` flag, and never throws |
| Editor.AfterCenterDragEnd | components/Editor.js:191-217 | releasing a centre changes only that arc's centre |
| Editor.CenterDragEnd | components/Editor.js:191-217 | the centre-drag handler stores the snapped centre's x and y over the previous centre, as `AfterCenterDragEnd` describes |
| EditorInvariants.MidpointEquidistant | components/Editor.js:49 | the chord midpoint is equally far from both chord ends |
| EditorInvariants.MidCenterOk | components/Editor.js:117-147 | an arc centre reset to its chord midpoint keeps the arc well formed |
| EditorInvariants.EmptyWellFormed | store/path.js:6 | the initial empty list is well formed |
| EditorInvariants.Dispatch | components/Editor.js:384-391 | delivering an event to its handler leaves the list `Step` describes, and, with the reference-image calls left out, only releasing the endpoint of an arc at index 0 throws |
| EditorInvariants.AddPreserves | store/path.js:7-13 | appending a segment keeps the list well formed |
| EditorInvariants.ClickPreserves | components/Editor.js:163 | a click keeps the list well formed |
| EditorInvariants.TogglePreserves | components/Editor.js:321-339 | a toggle keeps the list well formed |
| EditorInvariants.DoubleClickPreserves | components/Editor.js:246 | a double click on an arc centre keeps the list well formed |
| EditorInvariants.DragEndpointPreserves | components/Editor.js:99-148 | releasing an endpoint keeps the list well formed and never throws, when z changes only through the Z handle |
| EditorInvariants.DragArcCentrePreserves | components/Editor.js:191-217 | releasing an arc centre keeps the list well formed |
| EditorInvariants.StepPreserves | components/Editor.js:384-391 | every event of the handlers mounted per segment keeps a well-formed list well formed, and no endpoint drag then throws |
| EditorInvariants.RunPreserves | components/Editor.js:384-391 | every session of UI events starting from a well-formed list ends in a well-formed list |

## Left out

- Floating point: coordinates are exact reals. `Math.cos`, `Math.sqrt`, `Vector3.angleTo` and `distanceTo` are not computed; they are parameters constrained by the equations that define them. The only NaN modelled is the y of a centre whose quadrant sign is undefined.
- The arc curve: `THREE.EllipseCurve`, its angles and the 100 points sampled from it are three.js output (components/Editor.js:35-44). Only the sign selection that feeds the curve is modelled.
- Rendering and pointer state: `TransformControls`, `OrbitControls`, colours, hover state and `Line` drawing. The gizmo position a handler reads is the `current` parameter. The `clicked` state of the endpoint mesh is the `clicked` parameter.
- The snap when a centre drag starts: the same callback runs at drag start and drag end, and at drag start it moves the gizmo only and does not touch the store.
- The reference image: `ReferenceImage`, `updateImgData` and every `canScale` toggle are treated as calls that do nothing. The store file defines neither `imageData` nor `updateImgData`, so in the code as given `!imageData.canScale` raises a `TypeError`:
  - releasing an endpoint without a click (components/Editor.js:112) stops after the target update, so the recentring of the adjacent arcs (components/Editor.js:117-147) never runs; the model runs it;
  - clicking an endpoint (components/Editor.js:163) and releasing an arc centre (components/Editor.js:223) throw only after their `updateSegment` call, so their effect on the store is as modelled.
- The summary page, pages/index.js: it is presentation only.
- zustand and immer: subscription and re-rendering are not modelled. The store is a plain mutable list.
- PathStore.Store.UpdateSegment: requires an existing index. In JavaScript, an index past the end would write a record holding only the delta's keys. No handler does that, and such a record is not a `Segment`.
- EditorInvariants.DragEndpointPreserves: assumes the dragged point keeps its z unless the Z handle is offered. The gizmo hides its z axis otherwise, which the model cannot see.
- EditorInvariants.DragArcCentrePreserves: assumes the cosine `calcCenter` computes is exact (`ExactCosine`). In floating point the bisector property holds only approximately.
