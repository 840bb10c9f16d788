/**
 * The hand-tracking frame handler: one frame of hand landmarks becomes a pinch
 * decision, a world-space cursor and a fixed sequence of store calls.
 */
module HandTracker {
  import opened Wrappers
  import opened Vectors
  import opened Store

  /** A normalised landmark: x and y in [0, 1] across the camera image, z depth relative to the wrist. */
  datatype Landmark = Landmark(x: real, y: real, z: real)

  /** One detection result: the landmark lists of the detected hands (empty when no hand is seen). */
  datatype Results = Results(multiHandLandmarks: seq<seq<Landmark>>)

  const ThumbTip: nat := 4
  const IndexTip: nat := 8

  /** Thumb and index tips closer than this count as a pinch. */
  const PinchThreshold: real := 0.05

  predicate HandPresent(r: Results)
  {
    |r.multiHandLandmarks| > 0
  }

  /**
   * The handler reads landmarks 4 and 8 of the first hand without a check; the
   * detector always delivers 21 landmarks per hand.
   */
  predicate TipsAvailable(r: Results)
  {
    HandPresent(r) ==> |r.multiHandLandmarks[0]| > IndexTip
  }

  function AsVec(l: Landmark): Vec3
  {
    Vec3(l.x, l.y, l.z)
  }

  /** The pinch test, on the squared thumb-index distance. */
  predicate IsPinching(indexTip: Landmark, thumbTip: Landmark)
  {
    DistSq(AsVec(indexTip), AsVec(thumbTip)) < PinchThreshold * PinchThreshold
  }

  /**
   * The squared test agrees with the Euclidean one: if `distance` is the square
   * root of the squared distance, the pinch holds iff `distance < 0.05`.
   */
  lemma PinchMatchesDistance(indexTip: Landmark, thumbTip: Landmark, distance: real)
    requires distance >= 0.0
    requires distance * distance == DistSq(AsVec(indexTip), AsVec(thumbTip))
    ensures IsPinching(indexTip, thumbTip) <==> distance < 0.05
  {
    BelowIffSquareBelow(distance, PinchThreshold);
  }

  /** The mirrored affine map from the landmark space to the scene. */
  function ToWorld(l: Landmark): Vec3
  {
    Vec3((1.0 - l.x) * 10.0 - 5.0, (1.0 - l.y) * 6.0 - 3.0, -l.z * 5.0)
  }

  /** The landmark that the map sends to a given scene point. */
  function FromWorld(w: Vec3): Landmark
  {
    Landmark(1.0 - (w.x + 5.0) / 10.0, 1.0 - (w.y + 3.0) / 6.0, -w.z / 5.0)
  }

  /** The map is a bijection: each direction undoes the other. */
  lemma ToWorldRoundTrip(l: Landmark, w: Vec3)
    ensures FromWorld(ToWorld(l)) == l
    ensures ToWorld(FromWorld(w)) == w
  {
  }

  /** The image centre at wrist depth lands on the scene origin, the corners on the edges of the volume. */
  lemma ToWorldAnchors()
    ensures ToWorld(Landmark(0.5, 0.5, 0.0)) == Origin
    ensures ToWorld(Landmark(0.0, 0.0, 0.0)) == Vec3(5.0, 3.0, 0.0)
    ensures ToWorld(Landmark(1.0, 1.0, -1.0)) == Vec3(-5.0, -3.0, 5.0)
  {
  }

  /** A landmark inside the image lands in [-5, 5] x [-3, 3]; the map reverses x and y and is monotone in each. */
  lemma ToWorldBounds(l: Landmark, m: Landmark)
    ensures 0.0 <= l.x <= 1.0 ==> -5.0 <= ToWorld(l).x <= 5.0
    ensures 0.0 <= l.y <= 1.0 ==> -3.0 <= ToWorld(l).y <= 3.0
    ensures l.x < m.x ==> ToWorld(m).x < ToWorld(l).x
    ensures l.y < m.y ==> ToWorld(m).y < ToWorld(l).y
    ensures l.z < m.z ==> ToWorld(m).z < ToWorld(l).z
  {
  }

  /**
   * The store after the handler has seen one frame, when it was built with
   * view-mode flag `viewMode`: nothing in view mode; with a hand, `setIsDrawing`,
   * then `setCursor`, then `addPointToStroke` while pinching; without a hand, the
   * cursor is reset and drawing stops.
   */
  function HandleFrame(s: State, r: Results, viewMode: bool, now: int): State
    requires TipsAvailable(r)
  {
    if viewMode then s
    else if HandPresent(r) then
      var landmarks := r.multiHandLandmarks[0];
      var pinching := IsPinching(landmarks[IndexTip], landmarks[ThumbTip]);
      var position := ToWorld(landmarks[IndexTip]);
      var s1 := s.SetIsDrawing(pinching).SetCursor(position, true);
      if pinching then s1.AddPointToStroke(position, now) else s1
    else
      s.SetCursor(Origin, false).SetIsDrawing(false)
  }

  /** In view mode the handler makes no store call. */
  lemma ViewModeIgnoresFrame(s: State, r: Results, now: int)
    requires TipsAvailable(r)
    ensures HandleFrame(s, r, true, now) == s
  {
  }

  /**
   * Without a hand the cursor is reset to the origin, the hand is not detected,
   * drawing stops, the open stroke is sealed and no point is added.
   */
  lemma NoHandResets(s: State, r: Results, now: int)
    requires s.OpenIffDrawing() && !HandPresent(r)
    ensures var t := HandleFrame(s, r, false, now);
      && t.cursorPosition == Origin && !t.handDetected
      && !t.isDrawing && t.currentStrokeId == None
      && t.strokes == s.strokes
      && t.(cursorPosition := s.cursorPosition, handDetected := s.handDetected,
            isDrawing := s.isDrawing, currentStrokeId := s.currentStrokeId) == s
  {
  }

  /**
   * With a hand the cursor follows the index tip and the hand is detected, the
   * drawing flag equals the pinch, and the stroke list changes only by a point
   * offered to the open stroke while pinching (or a new stroke on a rising edge).
   */
  lemma HandFrameEffects(s: State, r: Results, now: int)
    requires s.Wf() && s.OpenIffDrawing() && TipsAvailable(r) && HandPresent(r)
    ensures var lm := r.multiHandLandmarks[0];
      var pinching := IsPinching(lm[IndexTip], lm[ThumbTip]);
      var t := HandleFrame(s, r, false, now);
      && t.cursorPosition == ToWorld(lm[IndexTip]) && t.handDetected
      && t.isDrawing == pinching
      && (pinching <==> t.currentStrokeId.Some?)
      && (!pinching ==> t.strokes == s.strokes)
      && StrokesGrow(s.strokes, t.strokes)
      && t.Wf()
  {
    var lm := r.multiHandLandmarks[0];
    var pinching := IsPinching(lm[IndexTip], lm[ThumbTip]);
    var s1 := s.SetIsDrawing(pinching);
    SetIsDrawingKeepsWf(s, pinching);
    SetIsDrawingKeepsStrokes(s, pinching, 0);
    var s2 := s1.SetCursor(ToWorld(lm[IndexTip]), true);
    AddPointKeepsWf(s2, ToWorld(lm[IndexTip]), now);
    AddPointKeepsStrokes(s2, ToWorld(lm[IndexTip]), now, 0);
    StrokesGrowTransitive(s.strokes, s2.strokes, s2.AddPointToStroke(ToWorld(lm[IndexTip]), now).strokes);
  }

  /**
   * `setIsDrawing` runs before `addPointToStroke`, so on the first pinching frame
   * a new stroke is created and the index-tip position is its first point.
   */
  lemma FirstPinchPointLandsInNewStroke(s: State, r: Results, now: int)
    requires s.Wf() && !s.isDrawing && TipsAvailable(r) && HandPresent(r)
    requires IsPinching(r.multiHandLandmarks[0][IndexTip], r.multiHandLandmarks[0][ThumbTip])
    ensures var t := HandleFrame(s, r, false, now);
      && |t.strokes| == |s.strokes| + 1
      && t.strokes[..|s.strokes|] == s.strokes
      && t.strokes[|s.strokes|] ==
           Stroke(s.nextId, [StrokePoint(ToWorld(r.multiHandLandmarks[0][IndexTip]), now)],
                  s.currentColor, s.currentLineWidth)
      && t.currentStrokeId == Some(s.nextId)
  {
  }

  /**
   * While the pinch is held, each frame offers the index-tip position to the
   * open stroke, which is the last one, and leaves every other stroke alone.
   */
  lemma HeldPinchOffersPointToOpenStroke(s: State, r: Results, now: int)
    requires s.Wf() && s.isDrawing && s.currentStrokeId.Some? && TipsAvailable(r) && HandPresent(r)
    requires IsPinching(r.multiHandLandmarks[0][IndexTip], r.multiHandLandmarks[0][ThumbTip])
    ensures var t := HandleFrame(s, r, false, now);
      var n := |s.strokes|;
      var position := ToWorld(r.multiHandLandmarks[0][IndexTip]);
      && |t.strokes| == n
      && t.strokes[..n - 1] == s.strokes[..n - 1]
      && t.strokes[n - 1] == s.strokes[n - 1].(points := AppendIfFar(s.strokes[n - 1].points, position, now))
      && t.currentStrokeId == s.currentStrokeId && t.isDrawing
  {
  }

  /**
   * The handler as the component defines it: `viewMode` is the value the
   * handler closed over. Store calls are made in the order of the source.
   */
  method OnResults(store: AppStore, r: Results, viewMode: bool, now: int)
    requires TipsAvailable(r)
    modifies store
    ensures store.Snapshot() == HandleFrame(old(store.Snapshot()), r, viewMode, now)
  {
    if viewMode {
      return;
    }
    if |r.multiHandLandmarks| > 0 {
      var landmarks := r.multiHandLandmarks[0];
      var indexTip := landmarks[IndexTip];
      var thumbTip := landmarks[ThumbTip];
      var isPinching := IsPinching(indexTip, thumbTip);
      store.SetIsDrawing(isPinching);
      var position := Vec3((1.0 - indexTip.x) * 10.0 - 5.0, (1.0 - indexTip.y) * 6.0 - 3.0, 0.0);
      position := position.(z := -indexTip.z * 5.0);
      store.SetCursor(position, true);
      if isPinching {
        store.AddPointToStroke(position, now);
      }
    } else {
      store.SetCursor(Origin, false);
      store.SetIsDrawing(false);
    }
  }

  // ---------------------------------------------------------------------------
  // The handler as registered with the detector
  // ---------------------------------------------------------------------------

  /**
   * As registered: the detector is given the handler once, when the component
   * mounts, so the view-mode flag it tests is the one of the store at mount
   * time, whatever the store holds later.
   */
  function HandleFrameAsRegistered(atMount: State, s: State, r: Results, now: int): State
    requires TipsAvailable(r)
  {
    HandleFrame(s, r, atMount.viewMode, now)
  }

  /**
   * The discrepancy: after the user switches to view mode, a pinching frame
   * still starts a stroke and records a point.
   */
  lemma RegisteredHandlerDrawsInViewMode()
    ensures var s := Initial.ToggleViewMode();
      var r := Results([seq(21, _ => Landmark(0.5, 0.5, 0.0))]);
      && s.viewMode
      && TipsAvailable(r)
      && |HandleFrameAsRegistered(Initial, s, r, 0).strokes| == 1
      && HandleFrameAsRegistered(Initial, s, r, 0).strokes[0].points != []
  {
  }

  /** Corrected: the handler consults the store's current view mode on every frame. */
  function HandleFrameLive(s: State, r: Results, now: int): (t: State)
    requires TipsAvailable(r)
    ensures s.viewMode ==> t == s
    ensures !s.viewMode ==> t == HandleFrame(s, r, false, now)
  {
    HandleFrame(s, r, s.viewMode, now)
  }

  /** The corrected handler, reading the view mode from the store when a frame arrives. */
  method OnResultsLive(store: AppStore, r: Results, now: int)
    requires TipsAvailable(r)
    modifies store
    ensures store.Snapshot() == HandleFrameLive(old(store.Snapshot()), r, now)
  {
    OnResults(store, r, store.viewMode, now);
  }
}
