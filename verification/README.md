# Spatial Air Canvas: gesture-to-stroke core in Dafny

Spatial Air Canvas lets a user draw 3D strokes in the air. The user pinches
thumb and index finger in front of a webcam. A hand-landmark detector reports
each camera frame. A frame handler turns that report into a pinch decision and
a world-space cursor, and drives a zustand store. The store holds the strokes.
The 3D canvas renders each stroke as a tube and eases a cursor sphere towards
the tracked position.

This project models that core and proves its properties:

- `vectors.dfy` (`Vectors`): 3D vectors over `real`, the squared distance, and
  `THREE.Vector3.lerp`.
- `store.dfy` (`Store`): the store. `State` is its value. Its member functions
  are the actions (`setCursor`, `setIsDrawing`, `startStroke`,
  `addPointToStroke`, `endStroke`, `setColor`, `toggleViewMode`) written as pure
  transitions. The class `AppStore` is the mutable store. Its fields are the
  store's fields, and each of its methods is proved to perform exactly the
  matching transition. Lemmas state the invariants and what each action
  guarantees.
- `hand_tracker.dfy` (`HandTracker`): the pinch test, the landmark-to-world
  map, and `onResults` with its order of store calls. It also holds the handler
  as registered with the detector (see Findings).
- `canvas3d.dfy` (`Canvas3D`): the tube parameters of `StrokeMesh`, the look of
  `CurrentCursor`, the order of stroke meshes, and the per-frame cursor easing
  as a class with its position updated in place.
- `pipeline.dfy` (`Pipeline`): runs of detection frames and UI clicks applied
  one by one. There are two versions:
  - `StepAsWritten` and `RunAsWritten` are the application as written. Every
    frame goes to the handler registered at mount, so frames are handled even
    in view mode (see Findings).
  - `Step` and `Run` are the application with the corrected handler, which
    ignores frames in view mode.

  The two take the same step whenever view mode is off
  (`Pipeline.StepsAgreeOutsideViewMode`). The invariants are proved over any
  run of either version. The pinch-and-release gesture is proved from end to
  end on runs outside view mode, where the two versions agree.
- `wrappers.dfy` (`Wrappers`): `Option`.

Design notes:

- Ids come from a counter, not from `crypto.randomUUID()`. The counter starts
  at 0 and strokes are never removed, so the stroke at index `i` has id `i`.
  Distinct ids follow from this (`Store.IdsUniqueAndFresh`).
- `Date.now()` becomes a `now: int` parameter.
- `Math.sqrt` is replaced by comparing squared distances with squared
  thresholds. This is exact because both sides are non-negative
  (`Vectors.BelowIffSquareBelow`).

Notes on what the code does:

- In view mode the handler just returns. It does not report "no hand", so
  `handDetected` keeps its last value.
- Point timestamps come from `Date.now()`. Nothing makes them strictly
  increasing, so the model claims no order on them.

## Model

| member | source | states |
|---|---|---|
| `Vectors.DistSq` | src/components/HandTracker.tsx:56-60 | the squared distance is never negative |
| `Vectors.BelowIffSquareBelow` | src/store.ts:91-92 | for non-negative d and t, d < t holds iff d² < t², so the distance tests can use squares |
| `Store.AppendIfFar` | src/store.ts:88-98 | a point is appended or the list is returned unchanged; it is appended iff the stroke is empty or the point is at least 0.01 from the last point |
| `Store.FilterMatchesDistance` | src/store.ts:89-92 | with a last point present, the squared test drops the candidate exactly when its Euclidean distance to the last point is below 0.01 |
| `Store.ExtendOpen` | src/store.ts:86-101 | the map keeps every stroke's place, id, colour and width; strokes with another id come back unchanged; the stroke with the open id gets the filtered append |
| `Store.InitialIsConsistent` | src/store.ts:41-51 | the initial store has no strokes, no open id, is not drawing, has no hand, colour `#00ffcc`, width 0.1, draw mode, and satisfies both invariants |
| `Store.IdsUniqueAndFresh` | src/store.ts:66 | under the invariant, stroke ids are pairwise distinct and the next id is unused |
| `Store.RisingEdgeStartsStroke` | src/store.ts:55-78 | `setIsDrawing(true)` while not drawing appends exactly one stroke at the end: fresh id, no points, current colour and width. It becomes the open stroke. Earlier strokes and all other fields are unchanged |
| `Store.FallingEdgeEndsStroke` | src/store.ts:55-63 | `setIsDrawing(false)` while drawing only clears the open id and the drawing flag; the strokes are untouched |
| `Store.SetIsDrawingLevel` | src/store.ts:55-63 | afterwards `isDrawing` equals the argument; without an edge the store is unchanged (no stroke, same open id) |
| `Store.AddPointWithoutOpenStroke` | src/store.ts:81-84 | with no open stroke, adding a point is a no-op |
| `Store.AddPointTouchesOnlyOpenStroke` | src/store.ts:81-105 | only the open (last) stroke changes, and only by the distance-filtered append; the stroke count, the other strokes and all other fields are kept |
| `Store.SetColorChangesOnlyColor` | src/store.ts:111 | `setColor` sets the colour and changes nothing else, so no existing stroke is recoloured |
| `Store.ToggleViewModeInvolution` | src/store.ts:113 | `toggleViewMode` flips only the view mode and does not seal an open stroke; toggling twice restores the state |
| `Store.StartStrokeKeepsWf` | src/store.ts:65-78 | starting a stroke keeps the id invariant and leaves the existing strokes as a prefix |
| `Store.SetIsDrawingKeepsWf` | src/store.ts:55-63 | `setIsDrawing` keeps the structural invariant on either edge |
| `Store.AddPointKeepsWf` | src/store.ts:81-105 | adding a point keeps the structural invariant |
| `Store.SettersKeepWf` | src/store.ts:53-113 | `setCursor`, `endStroke`, `setColor` and `toggleViewMode` keep the structural invariant |
| `Store.ActionsPreserveOpenIffDrawing` | src/store.ts:53-113 | `setCursor`, `setIsDrawing`, `addPointToStroke`, `setColor` and `toggleViewMode` keep "open id set iff drawing" |
| `Store.SetIsDrawingKeepsStrokes` | src/store.ts:55-78 | `setIsDrawing` only appends strokes; a sealed stroke stays unchanged and sealed |
| `Store.AddPointKeepsStrokes` | src/store.ts:81-105 | adding a point only extends point lists, with id, colour and width fixed; a sealed stroke stays unchanged and sealed |
| `Store.AppStore.constructor` | src/store.ts:41-51 | the store starts with the initial values listed above |
| `Store.AppStore.SetCursor` | src/store.ts:53 | sets cursor position and detected flag; the new store is `old.SetCursor(pos, detected)` |
| `Store.AppStore.SetIsDrawing` | src/store.ts:55-63 | reads the flag, calls `StartStroke` or `EndStroke` on an edge, then writes the flag; the result is the edge-triggered transition |
| `Store.AppStore.StartStroke` | src/store.ts:65-79 | appends the new stroke and opens it, as in the `StartStroke` transition |
| `Store.AppStore.AddPointToStroke` | src/store.ts:81-105 | returns early without an open stroke, otherwise replaces the strokes by the mapped list |
| `Store.AppStore.EndStroke` | src/store.ts:107-109 | clears the open id |
| `Store.AppStore.SetColor` | src/store.ts:111 | sets the colour |
| `Store.AppStore.ToggleViewMode` | src/store.ts:113 | flips the view mode |
| `HandTracker.PinchMatchesDistance` | src/components/HandTracker.tsx:55-64 | the squared pinch test holds iff the Euclidean thumb–index distance is below 0.05 |
| `HandTracker.ToWorldRoundTrip` | src/components/HandTracker.tsx:77-106 | the landmark-to-world map has an inverse in both directions, so distinct index-tip positions give distinct cursors |
| `HandTracker.ToWorldAnchors` | src/components/HandTracker.tsx:77-106 | (0.5,0.5,0) maps to (0,0,0), (0,0,0) to (5,3,0), (1,1,−1) to (−5,−3,5) |
| `HandTracker.ToWorldBounds` | src/components/HandTracker.tsx:77-78 | x, y in [0,1] land in [−5,5] × [−3,3]; each axis is strictly monotone, and x and y are mirrored |
| `HandTracker.ViewModeIgnoresFrame` | src/components/HandTracker.tsx:48 | with the view-mode flag set, the handler leaves the store unchanged |
| `HandTracker.NoHandResets` | src/components/HandTracker.tsx:114-117 | without a hand: cursor (0,0,0), not detected, not drawing, open stroke sealed, strokes unchanged, nothing else touched |
| `HandTracker.HandFrameEffects` | src/components/HandTracker.tsx:50-112 | with a hand: cursor at the mapped index tip and detected. Drawing iff pinching, and an open stroke iff pinching. Strokes unchanged when not pinching, only grown otherwise. Invariant kept |
| `HandTracker.FirstPinchPointLandsInNewStroke` | src/components/HandTracker.tsx:66-112 | because `setIsDrawing` runs before `addPointToStroke`, the first pinching frame appends a new stroke whose only point is the index-tip position, and opens it |
| `HandTracker.HeldPinchOffersPointToOpenStroke` | src/components/HandTracker.tsx:108-112 | while the pinch is held, each frame offers the index-tip point to the open (last) stroke only |
| `HandTracker.OnResults` | src/components/HandTracker.tsx:47-118 | the store calls in source order (`setIsDrawing`, `setCursor`, then `addPointToStroke` while pinching; or `setCursor`, `setIsDrawing(false)`) produce `HandleFrame` of the old store |
| `HandTracker.RegisteredHandlerDrawsInViewMode` | src/components/HandTracker.tsx:27-48 | the handler registered at mount still starts a stroke and records a point after the store has switched to view mode |
| `HandTracker.HandleFrameLive` | src/components/HandTracker.tsx:47-48 | reading the current view mode: in view mode the store is unchanged, otherwise the frame is handled |
| `HandTracker.OnResultsLive` | src/components/HandTracker.tsx:47-118 | the corrected handler performs `HandleFrameLive` on the store |
| `Canvas3D.GeometryRule` | src/components/Canvas3D.tsx:11-21 | no geometry iff fewer than 2 points. Otherwise: the path is the point positions in insertion order, 6·N tubular segments, radius = line width, 8 radial segments, open |
| `Canvas3D.GeometryDependsOnPositionsAndWidth` | src/components/Canvas3D.tsx:11-19 | two strokes with the same positions and width get the same geometry, whatever their ids, colours or timestamps |
| `Canvas3D.AcceptedPointRefinesTube` | src/components/Canvas3D.tsx:12-18 | each appended point adds 6 tubular segments; the second point is exactly the one that makes a stroke visible |
| `Canvas3D.SceneFollowsStoreOrder` | src/components/Canvas3D.tsx:70-72 | one mesh per stroke, in store order, keyed by the stroke id, with its own colour and geometry; keys are distinct under the invariant |
| `Canvas3D.CursorRules` | src/components/Canvas3D.tsx:47-54 | no cursor iff no hand. While drawing: radius 0.05 in the current colour. Otherwise: radius 0.08, white. The strokes do not affect it |
| `Canvas3D.PaletteChangeMidStroke` | src/components/Canvas3D.tsx:50-54 | a colour change while drawing recolours the cursor but not the open stroke |
| `Canvas3D.CursorMesh.constructor` | src/components/Canvas3D.tsx:50 | a newly mounted cursor mesh sits at the origin |
| `Canvas3D.CursorMesh.FollowFrame` | src/components/Canvas3D.tsx:40-45 | each render frame moves the mesh position in place, by `lerp` towards the target with factor 0.2 |
| `Canvas3D.FrameShrinksGap` | src/components/Canvas3D.tsx:43 | one frame leaves 0.8 of the gap on each axis and 0.64 of the squared distance |
| `Canvas3D.FollowGap` | src/components/Canvas3D.tsx:40-45 | after n frames towards a fixed target, each axis gap is 0.8ⁿ times the initial one |
| `Canvas3D.FollowApproaches` | src/components/Canvas3D.tsx:40-45 | the squared distance to a fixed target never grows from frame to frame |
| `Pipeline.FrameKeepsInvariants` | src/components/HandTracker.tsx:50-117 | one frame handled outside view mode keeps both invariants, only grows the strokes, and keeps a sealed stroke sealed and untouched, whatever the store's view mode |
| `Pipeline.StepKeepsInvariants` | src/store.ts:53-113 | in the corrected application, one frame or UI click keeps both invariants, only grows the strokes, and leaves a sealed stroke sealed and untouched |
| `Pipeline.RunKeepsInvariants` | src/store.ts:53-113 | over any run of the corrected application: invariants hold, strokes are append-only with fixed id, colour and width, and a sealed stroke never changes |
| `Pipeline.StepsAgreeOutsideViewMode` | src/components/HandTracker.tsx:27-48 | while view mode is off, the application as written and the corrected one take the same step on every event |
| `Pipeline.RunsAgreeWithoutToggle` | src/components/HandTracker.tsx:27-48 | a run that starts outside view mode and never presses the mode button ends in the same state in the application as written and in the corrected one |
| `Pipeline.StepAsWrittenKeepsInvariants` | src/store.ts:53-113 | in the application as written, view-mode frames included, one event keeps both invariants, only grows the strokes, and leaves a sealed stroke sealed and untouched |
| `Pipeline.RunAsWrittenKeepsInvariants` | src/store.ts:53-113 | over any run of the application as written, view-mode frames included: invariants hold, strokes are append-only with fixed id, colour and width, and a sealed stroke never changes |
| `Pipeline.NoHandFrameHidesCursor` | src/components/HandTracker.tsx:114-117 | outside view mode, a frame without a hand hides the cursor, stops drawing and keeps the strokes |
| `Pipeline.ViewModeFreezesStore` | src/components/HandTracker.tsx:48 | in view mode a frame changes nothing, so no stroke is started or extended |
| `Pipeline.OpenHandWhileIdle` | src/components/HandTracker.tsx:66-108 | a non-pinching hand while not drawing only moves the cursor and sets the detected flag |
| `Pipeline.OpenHandWhileDrawing` | src/components/HandTracker.tsx:66-108 | releasing the pinch moves the cursor, sets detected, and seals the stroke without touching the strokes |
| `Pipeline.PressStartsStroke` | src/components/HandTracker.tsx:66-112 | the first pinching frame appends a stroke holding the index-tip point, opens it, and keeps the invariants |
| `Pipeline.DragExtendsStroke` | src/components/HandTracker.tsx:108-112 | a held pinch at least 0.01 from the last point appends that point to the open stroke |
| `Pipeline.PinchGestureMakesOneStroke` | src/components/HandTracker.tsx:47-118 | open hand, three pinches at points at least 0.01 apart, then open hand: exactly one stroke is appended. It is sealed, holds the three points in order, and has the colour and width of the pinch start. The run has no toggle, so `Pipeline.RunsAgreeWithoutToggle` carries this to the application as written |

## Left out

- MediaPipe `Hands` and `Camera` setup, the CDN file locator, and camera start/stop are external I/O. The model feeds the handler one `Results` value per frame instead.
- The `<video>` element and all JSX styling are presentation only.
- The internals of `CatmullRomCurve3` and `TubeGeometry` are left out. So are materials, the sphere's 16×16 segments and 0.8 opacity, lights, bloom, the background and `OrbitControls`. These are foreign rendering code. Only the parameters passed to the tube and the cursor's radius, colour and emissive intensity are modelled.
- `src/components/UI.tsx` and `src/App.tsx` are UI and composition. The palette and the mode button only call `setColor` and `toggleViewMode`, which `Pipeline.Event` covers.
- `crypto.randomUUID()` becomes a counter, and ids are assumed unique as UUIDs are. The truthiness test `!currentStrokeId` becomes `Option`. An empty-string id never arises.
- `Date.now()` is taken as a parameter. No ordering of timestamps is claimed.
- HandTracker.TipsAvailable: the model requires a reported hand to have at least nine landmarks. With fewer, the source fails when it reads landmarks 4 and 8 (src/components/HandTracker.tsx:52-59). The model does not treat such a report as "no hand"; it leaves it out. The detector always supplies 21 landmarks per hand.
- IEEE floating point and `Math.sqrt`: the model computes over `real` and compares squared distances.
- The `multiHandWorldLandmarks` branch (src/components/HandTracker.tsx:98-101) has an empty body and is omitted.
- Hands after the first one in a report are ignored, as in the source.
- zustand subscriptions, React re-rendering, `useMemo` caching, and the interleaving of the detection and render loops are left out. Events are applied one at a time.
- The handler passes one `THREE.Vector3` object both to `setCursor` and to the stroke point. The model treats vectors as values. Nothing in the source mutates that object afterwards, so the sharing has no effect.
- The cursor sphere is unmounted while no hand is detected, and a new mesh starts at the origin when the hand returns. `Canvas3D.CursorMesh` models one mounted mesh; mounting and unmounting are not modelled.

## Findings

| source | as written | input that shows it | evidently intended | confidence | as-written member | corrected member |
|---|---|---|---|---|---|---|
| src/components/HandTracker.tsx:27 | `hands.onResults(onResults)` runs once, in an effect with an empty dependency list (line 45). The handler it registers closed over the first render's `viewMode`, which is `false`. So the test at line 48 never sees a later toggle | switch to view mode, then show a pinching hand: a stroke is started and a point is recorded | frames are ignored while view mode is on | high; not executed | `HandTracker.RegisteredHandlerDrawsInViewMode` (over `HandTracker.HandleFrameAsRegistered`) | `HandTracker.HandleFrameLive` (with `Pipeline.ViewModeFreezesStore`) |
