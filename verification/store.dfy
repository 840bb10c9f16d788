/**
 * The session store: hand state, the ordered list of strokes, the open stroke,
 * the palette selection and the view mode, with the actions that change them.
 *
 * `State` is the value of the store at one instant and its member functions are
 * the actions as pure transitions; `AppStore` is the mutable store itself, whose
 * methods update its fields step by step and are proved to perform exactly those
 * transitions. The lemmas state what the actions guarantee.
 */
module Store {
  import opened Wrappers
  import opened Vectors

  /** Stroke identifiers: a counter stands in for `crypto.randomUUID()`. */
  type StrokeId = nat

  /** A CSS colour string such as "#00ffcc". */
  type Color = string

  datatype StrokePoint = StrokePoint(position: Vec3, timestamp: int)

  datatype Stroke = Stroke(id: StrokeId, points: seq<StrokePoint>, color: Color, lineWidth: real)

  const DefaultColor: Color := "#00ffcc"
  const DefaultLineWidth: real := 0.1

  /** A candidate point closer than this to the stroke's last point is dropped. */
  const MinPointGap: real := 0.01

  /**
   * One stroke's point list after offering it point `p` at time `now`: the first
   * point is always taken, a later one only when it lies at least `MinPointGap`
   * away from the last accepted point.
   */
  function AppendIfFar(points: seq<StrokePoint>, p: Vec3, now: int): (r: seq<StrokePoint>)
    ensures r == points || r == points + [StrokePoint(p, now)]
    ensures r != points <==>
              (|points| == 0 || DistSq(points[|points| - 1].position, p) >= MinPointGap * MinPointGap)
  {
    if |points| > 0 && DistSq(points[|points| - 1].position, p) < MinPointGap * MinPointGap then
      points
    else
      points + [StrokePoint(p, now)]
  }

  /** The per-stroke step of `addPointToStroke`: only the stroke with the open id is offered the point. */
  function ExtendIfOpen(stroke: Stroke, openId: StrokeId, p: Vec3, now: int): Stroke
  {
    if stroke.id == openId then stroke.(points := AppendIfFar(stroke.points, p, now)) else stroke
  }

  /**
   * `strokes.map(...)` in `addPointToStroke`: every stroke keeps its place, id,
   * colour and width; the stroke whose id is `openId` is offered the point and
   * every other stroke is returned as it was.
   */
  function ExtendOpen(strokes: seq<Stroke>, openId: StrokeId, p: Vec3, now: int): (r: seq<Stroke>)
    ensures |r| == |strokes|
    ensures forall i :: 0 <= i < |r| ==>
              r[i].id == strokes[i].id && r[i].color == strokes[i].color && r[i].lineWidth == strokes[i].lineWidth
    ensures forall i :: 0 <= i < |r| && strokes[i].id != openId ==> r[i] == strokes[i]
    ensures forall i :: 0 <= i < |r| && strokes[i].id == openId ==>
              r[i].points == AppendIfFar(strokes[i].points, p, now)
  {
    if strokes == [] then []
    else [ExtendIfOpen(strokes[0], openId, p, now)] + ExtendOpen(strokes[1..], openId, p, now)
  }

  datatype State = State(
    cursorPosition: Vec3,
    isDrawing: bool,
    handDetected: bool,
    strokes: seq<Stroke>,
    currentStrokeId: Option<StrokeId>,
    currentColor: Color,
    currentLineWidth: real,
    viewMode: bool,
    nextId: StrokeId)
  {
    /**
     * Structural invariant: ids are issued by the counter in creation order and
     * strokes are never removed, so the stroke at index `i` has id `i` and the
     * counter equals the number of strokes (hence ids are distinct and the next
     * one is fresh); the open stroke, if any, is the last one.
     */
    predicate Wf()
    {
      && (forall i :: 0 <= i < |strokes| ==> strokes[i].id == i)
      && nextId == |strokes|
      && (currentStrokeId.Some? ==> |strokes| > 0 && strokes[|strokes| - 1].id == currentStrokeId.value)
    }

    /** A stroke is open exactly while the drawing flag is set. */
    predicate OpenIffDrawing()
    {
      currentStrokeId.Some? <==> isDrawing
    }

    function SetCursor(pos: Vec3, detected: bool): State
    {
      this.(cursorPosition := pos, handDetected := detected)
    }

    function StartStroke(): State
    {
      var id := nextId;
      this.(currentStrokeId := Some(id),
            strokes := strokes + [Stroke(id, [], currentColor, currentLineWidth)],
            nextId := nextId + 1)
    }

    function EndStroke(): State
    {
      this.(currentStrokeId := None)
    }

    /** Edge-triggered: a rising edge starts a stroke, a falling edge ends it. */
    function SetIsDrawing(drawing: bool): State
    {
      var s := if drawing && !isDrawing then StartStroke()
               else if !drawing && isDrawing then EndStroke()
               else this;
      s.(isDrawing := drawing)
    }

    function AddPointToStroke(p: Vec3, now: int): State
    {
      match currentStrokeId
      case None => this
      case Some(id) => this.(strokes := ExtendOpen(strokes, id, p, now))
    }

    function SetColor(color: Color): State
    {
      this.(currentColor := color)
    }

    function ToggleViewMode(): State
    {
      this.(viewMode := !viewMode)
    }
  }

  /** The store's initial value. */
  const Initial: State :=
    State(Origin, false, false, [], None, DefaultColor, DefaultLineWidth, false, 0)

  /**
   * Every stroke of `before` is still at its place in `after` with the same id,
   * colour and width, and its points are a prefix of its new points.
   */
  predicate StrokesGrow(before: seq<Stroke>, after: seq<Stroke>)
  {
    && |before| <= |after|
    && forall i :: 0 <= i < |before| ==>
         && after[i].id == before[i].id
         && after[i].color == before[i].color
         && after[i].lineWidth == before[i].lineWidth
         && before[i].points <= after[i].points
  }

  /** The stroke at index `i` exists and is not the open one. */
  predicate Sealed(s: State, i: int)
  {
    0 <= i < |s.strokes| && s.currentStrokeId != Some(s.strokes[i].id)
  }

  // ---------------------------------------------------------------------------
  // Properties of the actions
  // ---------------------------------------------------------------------------

  lemma InitialIsConsistent()
    ensures Initial.Wf() && Initial.OpenIffDrawing()
    ensures Initial.strokes == [] && Initial.currentStrokeId == None
    ensures !Initial.isDrawing && !Initial.handDetected && !Initial.viewMode
    ensures Initial.currentColor == "#00ffcc" && Initial.currentLineWidth == 0.1
  {
  }

  /** Under the invariant, ids are distinct and the counter's next id is not yet used. */
  lemma IdsUniqueAndFresh(s: State)
    requires s.Wf()
    ensures forall i, j :: 0 <= i < j < |s.strokes| ==> s.strokes[i].id != s.strokes[j].id
    ensures forall i :: 0 <= i < |s.strokes| ==> s.strokes[i].id != s.nextId
  {
  }

  /**
   * A rising edge appends exactly one stroke at the end: fresh id, no points,
   * the current colour and width; it becomes the open stroke and every earlier
   * stroke is unchanged.
   */
  lemma RisingEdgeStartsStroke(s: State)
    requires s.Wf() && !s.isDrawing
    ensures var r := s.SetIsDrawing(true);
      && r.isDrawing
      && |r.strokes| == |s.strokes| + 1
      && r.strokes[..|s.strokes|] == s.strokes
      && (forall i :: 0 <= i < |s.strokes| ==> s.strokes[i].id != r.strokes[|s.strokes|].id)
      && r.strokes[|s.strokes|].points == []
      && r.strokes[|s.strokes|].color == s.currentColor
      && r.strokes[|s.strokes|].lineWidth == s.currentLineWidth
      && r.currentStrokeId == Some(r.strokes[|s.strokes|].id)
      && r.(strokes := s.strokes, currentStrokeId := s.currentStrokeId, nextId := s.nextId, isDrawing := false) == s
  {
  }

  /** A falling edge only clears the open id and the drawing flag. */
  lemma FallingEdgeEndsStroke(s: State)
    requires s.isDrawing
    ensures s.SetIsDrawing(false) == s.(currentStrokeId := None, isDrawing := false)
  {
  }

  /** Without an edge no stroke is created and the open id stays; the flag always ends equal to the argument. */
  lemma SetIsDrawingLevel(s: State, drawing: bool)
    ensures s.SetIsDrawing(drawing).isDrawing == drawing
    ensures drawing == s.isDrawing ==> s.SetIsDrawing(drawing) == s
  {
  }

  /** With no open stroke, adding a point changes nothing. */
  lemma AddPointWithoutOpenStroke(s: State, p: Vec3, now: int)
    requires s.currentStrokeId.None?
    ensures s.AddPointToStroke(p, now) == s
  {
  }

  /**
   * The squared test in `AppendIfFar` is the source's distance test: with a
   * last point present, the candidate is dropped exactly when its Euclidean
   * distance `dist` to the last point is below 0.01.
   */
  lemma FilterMatchesDistance(points: seq<StrokePoint>, p: Vec3, now: int, dist: real)
    requires |points| > 0 && dist >= 0.0
    requires dist * dist == DistSq(points[|points| - 1].position, p)
    ensures AppendIfFar(points, p, now) == points <==> dist < 0.01
  {
    BelowIffSquareBelow(dist, MinPointGap);
  }

  /**
   * Adding a point touches only the open stroke (the last one), and only by the
   * distance-filtered append; every other field and every other stroke is kept.
   */
  lemma AddPointTouchesOnlyOpenStroke(s: State, p: Vec3, now: int)
    requires s.Wf() && s.currentStrokeId.Some?
    ensures var r := s.AddPointToStroke(p, now);
      && var n := |s.strokes|;
      && |r.strokes| == n
      && r.strokes[..n - 1] == s.strokes[..n - 1]
      && r.strokes[n - 1] == s.strokes[n - 1].(points := AppendIfFar(s.strokes[n - 1].points, p, now))
      && r.(strokes := s.strokes) == s
  {
  }

  /** `setColor` changes nothing but the colour, so an open stroke keeps its creation colour. */
  lemma SetColorChangesOnlyColor(s: State, color: Color)
    ensures s.SetColor(color).currentColor == color
    ensures s.SetColor(color).(currentColor := s.currentColor) == s
  {
  }

  /** `toggleViewMode` flips the view mode only; toggling twice restores the state. */
  lemma ToggleViewModeInvolution(s: State)
    ensures s.ToggleViewMode().viewMode == !s.viewMode
    ensures s.ToggleViewMode().(viewMode := s.viewMode) == s
    ensures s.ToggleViewMode().ToggleViewMode() == s
  {
  }

  /** Starting a stroke keeps the structural invariant: the new id is above every existing one. */
  lemma StartStrokeKeepsWf(s: State)
    requires s.Wf()
    ensures s.StartStroke().Wf()
    ensures s.StartStroke().strokes[..|s.strokes|] == s.strokes
  {
  }

  /** Adding a point keeps the structural invariant: ids and order are untouched. */
  lemma AddPointKeepsWf(s: State, p: Vec3, now: int)
    requires s.Wf()
    ensures s.AddPointToStroke(p, now).Wf()
  {
  }

  /** `setIsDrawing` keeps the structural invariant on either edge. */
  lemma SetIsDrawingKeepsWf(s: State, drawing: bool)
    requires s.Wf()
    ensures s.SetIsDrawing(drawing).Wf()
  {
  }

  /** The plain setters never touch the strokes, the open id or the counter, so they keep the invariant. */
  lemma SettersKeepWf(s: State, pos: Vec3, detected: bool, color: Color)
    requires s.Wf()
    ensures s.SetCursor(pos, detected).Wf()
    ensures s.EndStroke().Wf()
    ensures s.SetColor(color).Wf()
    ensures s.ToggleViewMode().Wf()
  {
  }

  /** The actions callers use keep "open stroke iff drawing". */
  lemma ActionsPreserveOpenIffDrawing(s: State, pos: Vec3, detected: bool, drawing: bool, p: Vec3, now: int, color: Color)
    requires s.OpenIffDrawing()
    ensures s.SetCursor(pos, detected).OpenIffDrawing()
    ensures s.SetIsDrawing(drawing).OpenIffDrawing()
    ensures s.AddPointToStroke(p, now).OpenIffDrawing()
    ensures s.SetColor(color).OpenIffDrawing()
    ensures s.ToggleViewMode().OpenIffDrawing()
  {
  }

  /**
   * `setIsDrawing` never touches an existing stroke, and a stroke that was sealed
   * stays sealed: a new stroke gets a fresh id.
   */
  lemma SetIsDrawingKeepsStrokes(s: State, drawing: bool, i: int)
    requires s.Wf()
    ensures StrokesGrow(s.strokes, s.SetIsDrawing(drawing).strokes)
    ensures Sealed(s, i) ==> Sealed(s.SetIsDrawing(drawing), i) && s.SetIsDrawing(drawing).strokes[i] == s.strokes[i]
  {
  }

  /**
   * Adding a point only appends to point lists, and leaves a sealed stroke as
   * it was and sealed.
   */
  lemma AddPointKeepsStrokes(s: State, p: Vec3, now: int, i: int)
    ensures StrokesGrow(s.strokes, s.AddPointToStroke(p, now).strokes)
    ensures Sealed(s, i) ==> Sealed(s.AddPointToStroke(p, now), i) && s.AddPointToStroke(p, now).strokes[i] == s.strokes[i]
  {
  }

  /** Sequence prefix order is transitive, so growth composes along a run. */
  lemma StrokesGrowTransitive(a: seq<Stroke>, b: seq<Stroke>, c: seq<Stroke>)
    requires StrokesGrow(a, b) && StrokesGrow(b, c)
    ensures StrokesGrow(a, c)
  {
  }

  // ---------------------------------------------------------------------------
  // The mutable store
  // ---------------------------------------------------------------------------

  /** The zustand store: one mutable object whose actions update its fields. */
  class AppStore {
    var cursorPosition: Vec3
    var isDrawing: bool
    var handDetected: bool
    var strokes: seq<Stroke>
    var currentStrokeId: Option<StrokeId>
    var currentColor: Color
    var currentLineWidth: real
    var viewMode: bool
    var nextId: StrokeId

    /** The value of the store's fields. */
    function Snapshot(): State
      reads this
    {
      State(cursorPosition, isDrawing, handDetected, strokes, currentStrokeId,
            currentColor, currentLineWidth, viewMode, nextId)
    }

    constructor ()
      ensures Snapshot() == Initial
      ensures strokes == [] && currentStrokeId == None && !isDrawing && !handDetected
      ensures currentColor == "#00ffcc" && currentLineWidth == 0.1 && !viewMode
      ensures cursorPosition == Origin
    {
      cursorPosition := Origin;
      isDrawing := false;
      handDetected := false;
      strokes := [];
      currentStrokeId := None;
      currentColor := DefaultColor;
      currentLineWidth := DefaultLineWidth;
      viewMode := false;
      nextId := 0;
    }

    method SetCursor(pos: Vec3, detected: bool)
      modifies this
      ensures Snapshot() == old(Snapshot()).SetCursor(pos, detected)
    {
      cursorPosition := pos;
      handDetected := detected;
    }

    method SetIsDrawing(drawing: bool)
      modifies this
      ensures Snapshot() == old(Snapshot()).SetIsDrawing(drawing)
    {
      var wasDrawing := isDrawing;
      if drawing && !wasDrawing {
        StartStroke();
      } else if !drawing && wasDrawing {
        EndStroke();
      }
      isDrawing := drawing;
    }

    method StartStroke()
      modifies this
      ensures Snapshot() == old(Snapshot()).StartStroke()
    {
      var id := nextId;
      nextId := nextId + 1;
      currentStrokeId := Some(id);
      strokes := strokes + [Stroke(id, [], currentColor, currentLineWidth)];
    }

    method AddPointToStroke(point: Vec3, now: int)
      modifies this
      ensures Snapshot() == old(Snapshot()).AddPointToStroke(point, now)
    {
      if currentStrokeId.None? {
        return;
      }
      strokes := ExtendOpen(strokes, currentStrokeId.value, point, now);
    }

    method EndStroke()
      modifies this
      ensures Snapshot() == old(Snapshot()).EndStroke()
    {
      currentStrokeId := None;
    }

    method SetColor(color: Color)
      modifies this
      ensures Snapshot() == old(Snapshot()).SetColor(color)
    {
      currentColor := color;
    }

    method ToggleViewMode()
      modifies this
      ensures Snapshot() == old(Snapshot()).ToggleViewMode()
    {
      viewMode := !viewMode;
    }
  }
}
