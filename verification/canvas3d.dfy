/**
 * The render-side decisions: which strokes get a tube and with which
 * parameters, how the cursor sphere looks, and how the displayed cursor eases
 * towards the tracked position on every render frame.
 */
module Canvas3D {
  import opened Wrappers
  import opened Vectors
  import opened Store

  const TubularSegmentsPerPoint: nat := 6
  const RadialSegments: nat := 8

  /**
   * The arguments given to the tube geometry: the control points of the
   * Catmull-Rom path, the number of segments along it, the radius, the number
   * of segments around it, and whether it is closed into a loop.
   */
  datatype TubeParams = TubeParams(path: seq<Vec3>, tubularSegments: nat, radius: real,
                                   radialSegments: nat, closed: bool)

  function Positions(points: seq<StrokePoint>): seq<Vec3>
  {
    seq(|points|, i requires 0 <= i < |points| => points[i].position)
  }

  /** `StrokeMesh`'s geometry: none below two points, else a tube through the points in order. */
  function StrokeGeometry(stroke: Stroke): Option<TubeParams>
  {
    if |stroke.points| < 2 then None
    else Some(TubeParams(Positions(stroke.points), |stroke.points| * TubularSegmentsPerPoint,
                         stroke.lineWidth, RadialSegments, false))
  }

  /**
   * A stroke gets geometry exactly when it has two points or more; then the
   * path runs through its points in insertion order, with six segments per
   * point, the stroke's width as radius, eight radial segments, and open ends.
   */
  lemma GeometryRule(stroke: Stroke)
    ensures StrokeGeometry(stroke).None? <==> |stroke.points| < 2
    ensures StrokeGeometry(stroke).Some? ==>
      var g := StrokeGeometry(stroke).value;
      && |g.path| == |stroke.points|
      && (forall i :: 0 <= i < |g.path| ==> g.path[i] == stroke.points[i].position)
      && g.tubularSegments == 6 * |stroke.points|
      && g.radius == stroke.lineWidth
      && g.radialSegments == 8
      && !g.closed
  {
  }

  /** The geometry depends on the point positions and the width only, not on id, colour or timestamps. */
  lemma GeometryDependsOnPositionsAndWidth(a: Stroke, b: Stroke)
    requires Positions(a.points) == Positions(b.points) && a.lineWidth == b.lineWidth
    ensures StrokeGeometry(a) == StrokeGeometry(b)
  {
  }

  /**
   * The tessellation grows with the stroke: a point accepted into a stroke
   * with geometry adds six segments along the tube, and the second accepted
   * point is the one that makes the stroke visible.
   */
  lemma AcceptedPointRefinesTube(stroke: Stroke, p: StrokePoint)
    ensures var longer := stroke.(points := stroke.points + [p]);
      && (StrokeGeometry(stroke).Some? ==>
            StrokeGeometry(longer).value.tubularSegments == StrokeGeometry(stroke).value.tubularSegments + 6)
      && (|stroke.points| == 1 <==> StrokeGeometry(stroke).None? && StrokeGeometry(longer).Some?)
  {
  }

  /** One `<StrokeMesh key={stroke.id} />` element and the geometry it renders. */
  datatype MeshElement = MeshElement(key: StrokeId, geometry: Option<TubeParams>, color: Color)

  /** `strokes.map(...)` in the scene: one element per stroke, in store order. */
  function SceneMeshes(strokes: seq<Stroke>): seq<MeshElement>
  {
    seq(|strokes|, i requires 0 <= i < |strokes| =>
      MeshElement(strokes[i].id, StrokeGeometry(strokes[i]), strokes[i].color))
  }

  /**
   * Strokes are rendered in store order, one element per stroke carrying the
   * stroke's id as key, its own colour and its own geometry; under the store's
   * invariant the keys are distinct.
   */
  lemma SceneFollowsStoreOrder(s: State)
    ensures |SceneMeshes(s.strokes)| == |s.strokes|
    ensures forall i :: 0 <= i < |s.strokes| ==>
      && SceneMeshes(s.strokes)[i].key == s.strokes[i].id
      && SceneMeshes(s.strokes)[i].color == s.strokes[i].color
      && SceneMeshes(s.strokes)[i].geometry == StrokeGeometry(s.strokes[i])
    ensures s.Wf() ==> forall i, j :: 0 <= i < j < |s.strokes| ==>
      SceneMeshes(s.strokes)[i].key != SceneMeshes(s.strokes)[j].key
  {
  }

  /** The sphere's radius, its colour (also the emissive colour) and its emissive intensity. */
  datatype CursorLook = CursorLook(radius: real, color: Color, emissiveIntensity: real)

  const CursorIdleColor: Color := "#ffffff"

  /** `CurrentCursor`: nothing without a hand; a small sphere in the stroke colour while drawing. */
  function CursorView(s: State): Option<CursorLook>
  {
    if !s.handDetected then None
    else if s.isDrawing then Some(CursorLook(0.05, s.currentColor, 2.0))
    else Some(CursorLook(0.08, CursorIdleColor, 0.5))
  }

  /**
   * The cursor is shown iff a hand is detected; while drawing it has radius
   * 0.05 and the current colour, otherwise radius 0.08 and white; it is never
   * affected by the strokes.
   */
  lemma CursorRules(s: State, strokes: seq<Stroke>)
    ensures CursorView(s).None? <==> !s.handDetected
    ensures CursorView(s).Some? && s.isDrawing ==>
      CursorView(s).value.radius == 0.05 && CursorView(s).value.color == s.currentColor
    ensures CursorView(s).Some? && !s.isDrawing ==>
      CursorView(s).value.radius == 0.08 && CursorView(s).value.color == "#ffffff"
    ensures CursorView(s.(strokes := strokes)) == CursorView(s)
  {
  }

  /**
   * A palette change while drawing recolours the cursor at once but not the
   * open stroke, which keeps the colour it was created with.
   */
  lemma PaletteChangeMidStroke(s: State, color: Color)
    requires s.Wf() && s.handDetected && s.isDrawing && s.currentStrokeId.Some?
    ensures var t := s.SetColor(color);
      && CursorView(t).value.color == color
      && t.strokes[|t.strokes| - 1].color == s.strokes[|s.strokes| - 1].color
  {
  }

  /** The fraction of the remaining distance covered on each render frame. */
  const SmoothingFactor: real := 0.2

  /** The displayed cursor: the sphere mesh whose position is eased every render frame. */
  class CursorMesh {
    var position: Vec3

    /** A freshly mounted mesh sits at the origin. */
    constructor ()
      ensures position == Origin
    {
      position := Origin;
    }

    /** The `useFrame` callback: `position.lerp(target, 0.2)`, in place. */
    method FollowFrame(target: Vec3)
      modifies this
      ensures position == Lerp(old(position), target, SmoothingFactor)
    {
      position := Vec3(position.x + (target.x - position.x) * SmoothingFactor,
                       position.y + (target.y - position.y) * SmoothingFactor,
                       position.z + (target.z - position.z) * SmoothingFactor);
    }
  }

  /** Where the displayed cursor is after `n` frames towards a fixed target. */
  function Follow(p: Vec3, target: Vec3, n: nat): Vec3
  {
    if n == 0 then p else Lerp(Follow(p, target, n - 1), target, SmoothingFactor)
  }

  function Pow(b: real, n: nat): real
  {
    if n == 0 then 1.0 else b * Pow(b, n - 1)
  }

  /** One frame leaves 0.8 of the gap on every axis, so 0.64 of the squared distance. */
  lemma FrameShrinksGap(p: Vec3, target: Vec3)
    ensures var q := Lerp(p, target, SmoothingFactor);
      && q.x - target.x == 0.8 * (p.x - target.x)
      && q.y - target.y == 0.8 * (p.y - target.y)
      && q.z - target.z == 0.8 * (p.z - target.z)
      && DistSq(q, target) == 0.64 * DistSq(p, target)
  {
  }

  /** After `n` frames the remaining gap on each axis is 0.8^n of the initial one. */
  lemma {:induction false} FollowGap(p: Vec3, target: Vec3, n: nat)
    ensures Follow(p, target, n).x - target.x == Pow(0.8, n) * (p.x - target.x)
    ensures Follow(p, target, n).y - target.y == Pow(0.8, n) * (p.y - target.y)
    ensures Follow(p, target, n).z - target.z == Pow(0.8, n) * (p.z - target.z)
  {
    if n > 0 {
      FollowGap(p, target, n - 1);
      FrameShrinksGap(Follow(p, target, n - 1), target);
      var k := Pow(0.8, n - 1);
      assert 0.8 * (k * (p.x - target.x)) == (0.8 * k) * (p.x - target.x);
      assert 0.8 * (k * (p.y - target.y)) == (0.8 * k) * (p.y - target.y);
      assert 0.8 * (k * (p.z - target.z)) == (0.8 * k) * (p.z - target.z);
    }
  }

  /** The easing never overshoots: the squared distance to a fixed target never grows. */
  lemma {:induction false} FollowApproaches(p: Vec3, target: Vec3, n: nat)
    ensures DistSq(Follow(p, target, n + 1), target) <= DistSq(Follow(p, target, n), target)
    ensures DistSq(Follow(p, target, n), target) <= DistSq(p, target)
  {
    FrameShrinksGap(Follow(p, target, n), target);
    if n > 0 {
      FollowApproaches(p, target, n - 1);
    }
  }
}
