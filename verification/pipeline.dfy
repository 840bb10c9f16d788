/**
 * The application as a whole: detection frames and palette/mode clicks arrive
 * one at a time and each is applied to the store. `Step` is the application
 * with the corrected frame handler (frames ignored in view mode); `StepAsWritten`
 * is the application as written, whose handler tests the mount-time view mode.
 * The invariants are proved over any run of either.
 */
module Pipeline {
  import opened Wrappers
  import opened Vectors
  import opened Store
  import opened HandTracker
  import opened Canvas3D

  /** What can change the store: a detection result, a palette click, the mode button. */
  datatype Event =
    | FrameArrived(results: Results, now: int)
    | ColorPicked(color: Color)
    | ViewModeToggled

  predicate Admissible(e: Event)
  {
    e.FrameArrived? ==> TipsAvailable(e.results)
  }

  predicate AllAdmissible(events: seq<Event>)
  {
    forall i :: 0 <= i < |events| ==> Admissible(events[i])
  }

  /** One event, with frames going to the corrected handler. */
  function Step(s: State, e: Event): State
    requires Admissible(e)
  {
    match e
    case FrameArrived(r, now) => HandleFrameLive(s, r, now)
    case ColorPicked(c) => s.SetColor(c)
    case ViewModeToggled => s.ToggleViewMode()
  }

  function Run(s: State, events: seq<Event>): State
    requires AllAdmissible(events)
    decreases |events|
  {
    if events == [] then s else Run(Step(s, events[0]), events[1..])
  }

  /**
   * One frame handled outside view mode keeps both invariants, only grows the
   * strokes, and leaves a sealed stroke sealed and untouched. The store's own
   * view-mode flag plays no part, so this covers the handler as registered too.
   */
  lemma FrameKeepsInvariants(s: State, r: Results, now: int, i: int)
    requires s.Wf() && s.OpenIffDrawing() && TipsAvailable(r)
    ensures var t := HandleFrame(s, r, false, now);
      && t.Wf() && t.OpenIffDrawing()
      && StrokesGrow(s.strokes, t.strokes)
      && (Sealed(s, i) ==> Sealed(t, i) && t.strokes[i] == s.strokes[i])
  {
    if HandPresent(r) {
      var lm := r.multiHandLandmarks[0];
      var pinching := IsPinching(lm[IndexTip], lm[ThumbTip]);
      var position := ToWorld(lm[IndexTip]);
      HandFrameEffects(s, r, now);
      SetIsDrawingKeepsStrokes(s, pinching, i);
      var s2 := s.SetIsDrawing(pinching).SetCursor(position, true);
      AddPointKeepsStrokes(s2, position, now, i);
    } else {
      var s1 := s.SetCursor(Origin, false);
      SetIsDrawingKeepsWf(s1, false);
      SetIsDrawingKeepsStrokes(s1, false, i);
    }
  }

  /** One event keeps both invariants, only grows the strokes, and leaves a sealed stroke sealed and untouched. */
  lemma StepKeepsInvariants(s: State, e: Event, i: int)
    requires s.Wf() && s.OpenIffDrawing() && Admissible(e)
    ensures var t := Step(s, e);
      && t.Wf() && t.OpenIffDrawing()
      && StrokesGrow(s.strokes, t.strokes)
      && (Sealed(s, i) ==> Sealed(t, i) && t.strokes[i] == s.strokes[i])
  {
    match e
    case FrameArrived(r, now) =>
      if !s.viewMode {
        FrameKeepsInvariants(s, r, now, i);
      }
    case ColorPicked(c) =>
      SettersKeepWf(s, Origin, false, c);
    case ViewModeToggled =>
      SettersKeepWf(s, Origin, false, "");
  }

  /**
   * Over any run: the invariants hold throughout, strokes are append-only with
   * fixed id, colour and width, and a sealed stroke is never changed again.
   */
  lemma {:induction false} RunKeepsInvariants(s: State, events: seq<Event>, i: int)
    requires s.Wf() && s.OpenIffDrawing() && AllAdmissible(events)
    decreases |events|
    ensures var t := Run(s, events);
      && t.Wf() && t.OpenIffDrawing()
      && StrokesGrow(s.strokes, t.strokes)
      && (Sealed(s, i) ==> Sealed(t, i) && t.strokes[i] == s.strokes[i])
  {
    if events != [] {
      var s1 := Step(s, events[0]);
      StepKeepsInvariants(s, events[0], i);
      assert AllAdmissible(events[1..]) by {
        forall k | 0 <= k < |events[1..]| ensures Admissible(events[1..][k]) {
          assert events[1..][k] == events[k + 1];
        }
      }
      RunKeepsInvariants(s1, events[1..], i);
      StrokesGrowTransitive(s.strokes, s1.strokes, Run(s1, events[1..]).strokes);
    }
  }

  // ---------------------------------------------------------------------------
  // The application as written
  // ---------------------------------------------------------------------------

  /**
   * The application as written: every frame goes to the handler registered at
   * mount, which tests the mount-time view mode (off), so frames are handled
   * whatever the store's view mode is when they arrive.
   */
  function StepAsWritten(s: State, e: Event): State
    requires Admissible(e)
  {
    match e
    case FrameArrived(r, now) => HandleFrameAsRegistered(Initial, s, r, now)
    case ColorPicked(c) => s.SetColor(c)
    case ViewModeToggled => s.ToggleViewMode()
  }

  function RunAsWritten(s: State, events: seq<Event>): State
    requires AllAdmissible(events)
    decreases |events|
  {
    if events == [] then s else RunAsWritten(StepAsWritten(s, events[0]), events[1..])
  }

  /** Outside view mode the application as written and the corrected one take the same step. */
  lemma StepsAgreeOutsideViewMode(s: State, e: Event)
    requires Admissible(e) && !s.viewMode
    ensures StepAsWritten(s, e) == Step(s, e)
  {
  }

  /** No event of the run presses the mode button. */
  predicate NoToggle(events: seq<Event>)
  {
    forall k :: 0 <= k < |events| ==> !events[k].ViewModeToggled?
  }

  /**
   * A run that starts outside view mode and never presses the mode button is
   * the same in the application as written and in the corrected one.
   */
  lemma {:induction false} RunsAgreeWithoutToggle(s: State, events: seq<Event>)
    requires !s.viewMode && AllAdmissible(events) && NoToggle(events)
    decreases |events|
    ensures RunAsWritten(s, events) == Run(s, events)
  {
    if events != [] {
      StepsAgreeOutsideViewMode(s, events[0]);
      assert !Step(s, events[0]).viewMode;
      assert AllAdmissible(events[1..]) && NoToggle(events[1..]) by {
        forall k | 0 <= k < |events[1..]|
          ensures Admissible(events[1..][k]) && !events[1..][k].ViewModeToggled?
        {
          assert events[1..][k] == events[k + 1];
        }
      }
      RunsAgreeWithoutToggle(Step(s, events[0]), events[1..]);
    }
  }

  /** As written, one event also keeps both invariants, only grows the strokes, and keeps a sealed stroke. */
  lemma StepAsWrittenKeepsInvariants(s: State, e: Event, i: int)
    requires s.Wf() && s.OpenIffDrawing() && Admissible(e)
    ensures var t := StepAsWritten(s, e);
      && t.Wf() && t.OpenIffDrawing()
      && StrokesGrow(s.strokes, t.strokes)
      && (Sealed(s, i) ==> Sealed(t, i) && t.strokes[i] == s.strokes[i])
  {
    match e
    case FrameArrived(r, now) =>
      FrameKeepsInvariants(s, r, now, i);
    case ColorPicked(c) =>
      SettersKeepWf(s, Origin, false, c);
    case ViewModeToggled =>
      SettersKeepWf(s, Origin, false, "");
  }

  /**
   * Over any run of the application as written, view-mode frames included:
   * the invariants hold, strokes are append-only with fixed id, colour and
   * width, and a sealed stroke is never changed again.
   */
  lemma {:induction false} RunAsWrittenKeepsInvariants(s: State, events: seq<Event>, i: int)
    requires s.Wf() && s.OpenIffDrawing() && AllAdmissible(events)
    decreases |events|
    ensures var t := RunAsWritten(s, events);
      && t.Wf() && t.OpenIffDrawing()
      && StrokesGrow(s.strokes, t.strokes)
      && (Sealed(s, i) ==> Sealed(t, i) && t.strokes[i] == s.strokes[i])
  {
    if events != [] {
      var s1 := StepAsWritten(s, events[0]);
      StepAsWrittenKeepsInvariants(s, events[0], i);
      assert AllAdmissible(events[1..]) by {
        forall k | 0 <= k < |events[1..]| ensures Admissible(events[1..][k]) {
          assert events[1..][k] == events[k + 1];
        }
      }
      RunAsWrittenKeepsInvariants(s1, events[1..], i);
      StrokesGrowTransitive(s.strokes, s1.strokes, RunAsWritten(s1, events[1..]).strokes);
    }
  }

  /** A frame without a hand hides the cursor and stops drawing, unless the app is in view mode. */
  lemma NoHandFrameHidesCursor(s: State, r: Results, now: int)
    requires s.OpenIffDrawing() && !s.viewMode && !HandPresent(r)
    ensures CursorView(Step(s, FrameArrived(r, now))).None?
    ensures !Step(s, FrameArrived(r, now)).isDrawing
    ensures Step(s, FrameArrived(r, now)).strokes == s.strokes
  {
  }

  /** In view mode a frame changes nothing, so no stroke can be started or extended. */
  lemma ViewModeFreezesStore(s: State, r: Results, now: int)
    requires s.viewMode && TipsAvailable(r)
    ensures Step(s, FrameArrived(r, now)) == s
  {
  }

  // ---------------------------------------------------------------------------
  // An end-to-end run
  // ---------------------------------------------------------------------------

  /** A run visits the given states when each event takes each state to the next. */
  lemma {:induction false} RunVisits(states: seq<State>, events: seq<Event>)
    requires |states| == |events| + 1 && AllAdmissible(events)
    requires forall k :: 0 <= k < |events| ==> Step(states[k], events[k]) == states[k + 1]
    decreases |events|
    ensures Run(states[0], events) == states[|events|]
  {
    if events != [] {
      assert AllAdmissible(events[1..]) by {
        forall k | 0 <= k < |events[1..]| ensures Admissible(events[1..][k]) {
          assert events[1..][k] == events[k + 1];
        }
      }
      forall k | 0 <= k < |events[1..]|
        ensures Step(states[1..][k], events[1..][k]) == states[1..][k + 1]
      {
        assert Step(states[k + 1], events[k + 1]) == states[k + 2];
      }
      RunVisits(states[1..], events[1..]);
    }
  }

  /** A frame with a hand whose thumb and index tips are pinched, the index tip mapping to `q`. */
  predicate PinchFrame(r: Results, q: Vec3)
  {
    && TipsAvailable(r) && HandPresent(r)
    && IsPinching(r.multiHandLandmarks[0][IndexTip], r.multiHandLandmarks[0][ThumbTip])
    && ToWorld(r.multiHandLandmarks[0][IndexTip]) == q
  }

  /** A frame with a hand that is not pinching. */
  predicate OpenHandFrame(r: Results)
  {
    && TipsAvailable(r) && HandPresent(r)
    && !IsPinching(r.multiHandLandmarks[0][IndexTip], r.multiHandLandmarks[0][ThumbTip])
  }

  /** An open-hand frame while not drawing changes only the cursor and the detected flag. */
  lemma OpenHandWhileIdle(s: State, r: Results, now: int)
    requires s.OpenIffDrawing() && !s.viewMode && !s.isDrawing && OpenHandFrame(r)
    ensures Step(s, FrameArrived(r, now)) ==
            s.(cursorPosition := ToWorld(r.multiHandLandmarks[0][IndexTip]), handDetected := true)
  {
  }

  /** Releasing the pinch seals the open stroke and leaves the strokes as they are. */
  lemma OpenHandWhileDrawing(s: State, r: Results, now: int)
    requires s.isDrawing && !s.viewMode && OpenHandFrame(r)
    ensures Step(s, FrameArrived(r, now)) ==
            s.(cursorPosition := ToWorld(r.multiHandLandmarks[0][IndexTip]), handDetected := true,
               isDrawing := false, currentStrokeId := None)
  {
  }

  /** The first pinching frame appends a stroke holding the index-tip point and opens it. */
  lemma PressStartsStroke(s: State, r: Results, q: Vec3, now: int)
    requires s.Wf() && s.OpenIffDrawing() && !s.viewMode && !s.isDrawing && PinchFrame(r, q)
    ensures var u := Step(s, FrameArrived(r, now));
      && u.strokes == s.strokes + [Stroke(s.nextId, [StrokePoint(q, now)], s.currentColor, s.currentLineWidth)]
      && u.Wf() && u.OpenIffDrawing() && u.isDrawing && !u.viewMode
  {
    FirstPinchPointLandsInNewStroke(s, r, now);
    StepKeepsInvariants(s, FrameArrived(r, now), 0);
    var u := Step(s, FrameArrived(r, now));
    assert u.strokes == u.strokes[..|s.strokes|] + [u.strokes[|s.strokes|]];
  }

  /** A held pinch appends a point far enough from the last one to the open stroke. */
  lemma DragExtendsStroke(s: State, r: Results, q: Vec3, now: int, earlier: seq<Stroke>, open: Stroke)
    requires s.Wf() && s.OpenIffDrawing() && !s.viewMode && s.isDrawing && PinchFrame(r, q)
    requires s.strokes == earlier + [open] && open.points != []
    requires DistSq(open.points[|open.points| - 1].position, q) >= MinPointGap * MinPointGap
    ensures var u := Step(s, FrameArrived(r, now));
      && u.strokes == earlier + [open.(points := open.points + [StrokePoint(q, now)])]
      && u.isDrawing && !u.viewMode && u.currentStrokeId == s.currentStrokeId
  {
    var u := Step(s, FrameArrived(r, now));
    var n := |s.strokes|;
    var position := ToWorld(r.multiHandLandmarks[0][IndexTip]);
    assert u == HandleFrame(s, r, false, now);
    assert |u.strokes| == n && u.strokes[..n - 1] == s.strokes[..n - 1]
        && u.strokes[n - 1] == open.(points := AppendIfFar(open.points, q, now)) by {
      HeldPinchOffersPointToOpenStroke(s, r, now);
    }
    assert u.isDrawing && !u.viewMode && u.currentStrokeId == s.currentStrokeId by {
      HeldPinchOffersPointToOpenStroke(s, r, now);
    }
    assert s.strokes[..n - 1] == earlier;
    assert u.strokes == u.strokes[..n - 1] + [u.strokes[n - 1]];
  }

  /** Running five events is applying them one after another. */
  lemma RunFive(s: State, e0: Event, e1: Event, e2: Event, e3: Event, e4: Event)
    requires Admissible(e0) && Admissible(e1) && Admissible(e2) && Admissible(e3) && Admissible(e4)
    ensures AllAdmissible([e0, e1, e2, e3, e4])
    ensures Run(s, [e0, e1, e2, e3, e4]) == Step(Step(Step(Step(Step(s, e0), e1), e2), e3), e4)
  {
    var events := [e0, e1, e2, e3, e4];
    var s0 := Step(s, e0);
    var s1 := Step(s0, e1);
    var s2 := Step(s1, e2);
    var s3 := Step(s2, e3);
    var s4 := Step(s3, e4);
    RunVisits([s, s0, s1, s2, s3, s4], events);
  }

  /** Open hand then pinch: the new stroke holds the first point and is open. */
  lemma GestureStart(s: State, f0: Results, f1: Results, q1: Vec3, t0: int, t1: int)
    requires s.Wf() && s.OpenIffDrawing() && !s.viewMode && !s.isDrawing
    requires OpenHandFrame(f0) && PinchFrame(f1, q1)
    ensures var u := Step(Step(s, FrameArrived(f0, t0)), FrameArrived(f1, t1));
      && u.strokes == s.strokes + [Stroke(s.nextId, [StrokePoint(q1, t1)], s.currentColor, s.currentLineWidth)]
      && u.Wf() && u.OpenIffDrawing() && u.isDrawing && !u.viewMode
  {
    var s0 := Step(s, FrameArrived(f0, t0));
    OpenHandWhileIdle(s, f0, t0);
    PressStartsStroke(s0, f1, q1, t1);
  }

  /** Two more pinched points, each at least 0.01 from the one before, are both appended to the open stroke. */
  lemma GestureDrags(s: State, earlier: seq<Stroke>, open: Stroke, f2: Results, f3: Results,
                     q2: Vec3, q3: Vec3, t2: int, t3: int)
    requires s.Wf() && s.OpenIffDrawing() && !s.viewMode && s.isDrawing
    requires s.strokes == earlier + [open] && open.points != []
    requires PinchFrame(f2, q2) && PinchFrame(f3, q3)
    requires DistSq(open.points[|open.points| - 1].position, q2) >= MinPointGap * MinPointGap
    requires DistSq(q2, q3) >= MinPointGap * MinPointGap
    ensures var u := Step(Step(s, FrameArrived(f2, t2)), FrameArrived(f3, t3));
      && u.strokes == earlier + [open.(points := open.points + [StrokePoint(q2, t2), StrokePoint(q3, t3)])]
      && u.isDrawing && !u.viewMode
  {
    var s2 := Step(s, FrameArrived(f2, t2));
    var open2 := open.(points := open.points + [StrokePoint(q2, t2)]);
    assert s2.strokes == earlier + [open2] && s2.Wf() && s2.OpenIffDrawing() && s2.isDrawing && !s2.viewMode by {
      DragExtendsStroke(s, f2, q2, t2, earlier, open);
      StepKeepsInvariants(s, FrameArrived(f2, t2), 0);
    }
    assert open2.points[|open2.points| - 1].position == q2;
    var u := Step(s2, FrameArrived(f3, t3));
    assert u.strokes == earlier + [open2.(points := open2.points + [StrokePoint(q3, t3)])] && u.isDrawing && !u.viewMode by {
      DragExtendsStroke(s2, f3, q3, t3, earlier, open2);
    }
    assert open2.points + [StrokePoint(q3, t3)] == open.points + [StrokePoint(q2, t2), StrokePoint(q3, t3)];
  }

  /** The gesture's five frames applied one after another: one stroke appended, holding the three points, sealed. */
  lemma GestureSteps(s: State, f0: Results, f1: Results, f2: Results, f3: Results, f4: Results,
                     q1: Vec3, q2: Vec3, q3: Vec3, t0: int, t1: int, t2: int, t3: int, t4: int)
    requires s.Wf() && s.OpenIffDrawing() && !s.viewMode && !s.isDrawing
    requires OpenHandFrame(f0) && PinchFrame(f1, q1) && PinchFrame(f2, q2) && PinchFrame(f3, q3) && OpenHandFrame(f4)
    requires DistSq(q1, q2) >= MinPointGap * MinPointGap && DistSq(q2, q3) >= MinPointGap * MinPointGap
    ensures var u := Step(Step(Step(Step(Step(s, FrameArrived(f0, t0)), FrameArrived(f1, t1)),
                                         FrameArrived(f2, t2)), FrameArrived(f3, t3)), FrameArrived(f4, t4));
      && u.strokes == s.strokes + [Stroke(s.nextId, [StrokePoint(q1, t1), StrokePoint(q2, t2), StrokePoint(q3, t3)],
                                          s.currentColor, s.currentLineWidth)]
      && u.currentStrokeId == None && !u.isDrawing
  {
    var started := Stroke(s.nextId, [StrokePoint(q1, t1)], s.currentColor, s.currentLineWidth);
    var s1 := Step(Step(s, FrameArrived(f0, t0)), FrameArrived(f1, t1));
    assert s1.strokes == s.strokes + [started] && s1.Wf() && s1.OpenIffDrawing() && s1.isDrawing && !s1.viewMode by {
      GestureStart(s, f0, f1, q1, t0, t1);
    }
    var s3 := Step(Step(s1, FrameArrived(f2, t2)), FrameArrived(f3, t3));
    assert s3.strokes == s.strokes + [started.(points := started.points + [StrokePoint(q2, t2), StrokePoint(q3, t3)])]
        && s3.isDrawing && !s3.viewMode by {
      GestureDrags(s1, s.strokes, started, f2, f3, q2, q3, t2, t3);
    }
    assert started.points + [StrokePoint(q2, t2), StrokePoint(q3, t3)]
        == [StrokePoint(q1, t1), StrokePoint(q2, t2), StrokePoint(q3, t3)];
    var u := Step(s3, FrameArrived(f4, t4));
    assert u.strokes == s3.strokes && u.currentStrokeId == None && !u.isDrawing by {
      OpenHandWhileDrawing(s3, f4, t4);
    }
  }

  /**
   * An open hand, three pinching frames whose index tips map to points at least
   * 0.01 apart, then an open hand: exactly one stroke is appended, sealed,
   * holding the three points in order with the colour and width selected when
   * the pinch began; the earlier strokes are unchanged.
   */
  lemma PinchGestureMakesOneStroke(s: State, f0: Results, f1: Results, f2: Results, f3: Results, f4: Results,
                                   q1: Vec3, q2: Vec3, q3: Vec3, t: seq<int>)
    requires s.Wf() && s.OpenIffDrawing() && !s.viewMode && !s.isDrawing && |t| == 5
    requires OpenHandFrame(f0) && PinchFrame(f1, q1) && PinchFrame(f2, q2) && PinchFrame(f3, q3) && OpenHandFrame(f4)
    requires DistSq(q1, q2) >= MinPointGap * MinPointGap && DistSq(q2, q3) >= MinPointGap * MinPointGap
    ensures var events := [FrameArrived(f0, t[0]), FrameArrived(f1, t[1]), FrameArrived(f2, t[2]),
                           FrameArrived(f3, t[3]), FrameArrived(f4, t[4])];
      && AllAdmissible(events)
      && var u := Run(s, events);
      && |u.strokes| == |s.strokes| + 1
      && u.strokes[..|s.strokes|] == s.strokes
      && u.strokes[|s.strokes|].points == [StrokePoint(q1, t[1]), StrokePoint(q2, t[2]), StrokePoint(q3, t[3])]
      && u.strokes[|s.strokes|].color == s.currentColor
      && u.strokes[|s.strokes|].lineWidth == s.currentLineWidth
      && u.currentStrokeId == None && !u.isDrawing
  {
    RunFive(s, FrameArrived(f0, t[0]), FrameArrived(f1, t[1]), FrameArrived(f2, t[2]),
            FrameArrived(f3, t[3]), FrameArrived(f4, t[4]));
    GestureSteps(s, f0, f1, f2, f3, f4, q1, q2, q3, t[0], t[1], t[2], t[3], t[4]);
  }
}
