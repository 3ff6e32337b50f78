/**
 * The pinch-zoom hook of src/lib/usePinchZoom.js: a gesture record updated
 * by the touch handlers, the clamping of scale and translation, double-tap
 * detection and the resize heuristic that resets the zoom on a rotation.
 *
 * Numbers are reals. Math.sqrt is a function supplied from outside; the
 * lemmas that need it to be a square root say so. Bounding rectangles and
 * timestamps are parameters.
 */
module Zoom {

  /** A touch point in client coordinates. */
  datatype Touch = Touch(clientX: real, clientY: real)

  /** A bounding rectangle as getBoundingClientRect reports it. */
  datatype Rect = Rect(left: real, top: real, width: real, height: real)

  /** The hook's options. */
  datatype Options = Options(minScale: real, maxScale: real, doubleTapToZoom: bool)

  /** The gesture record the touch handlers share and update field by field. */
  datatype Gesture = Gesture(
    isZooming: bool,
    isPanning: bool,
    initialDistance: real,
    initialScale: real,
    lastTap: int,
    lastTapX: real,
    lastTapY: real,
    startX: real,
    startY: real,
    translateX: real,
    translateY: real,
    currentTranslateX: real,
    currentTranslateY: real,
    currentScale: real)

  /** The zoom level the hook reports (`scale`) together with the gesture record. */
  datatype ZoomState = ZoomState(scale: real, gesture: Gesture)

  const DOUBLE_TAP_WINDOW: int := 300
  const DOUBLE_TAP_RADIUS: real := 50.0
  const DOUBLE_TAP_SCALE: real := 2.0
  const ZOOM_OUT_ABOVE: real := 1.1
  const SNAP_MARGIN: real := 0.15
  const ORIENTATION_JUMP: real := 100.0

  const DEFAULT_OPTIONS := Options(1.0, 3.0, true)

  function Min(a: real, b: real): real { if a <= b then a else b }

  function Max(a: real, b: real): real { if a >= b then a else b }

  function Abs(x: real): real { if x < 0.0 then -x else x }

  /** Math.min(Math.max(x, lo), hi). */
  function Clamp(x: real, lo: real, hi: real): real
  {
    Min(Max(x, lo), hi)
  }

  /** How far the content may move along one axis: half its scaled overflow, and never below zero. */
  function MaxTranslate(scaled: real, extent: real): real
  {
    Max(0.0, (scaled - extent) / 2.0)
  }

  /** Content that is not enlarged has nothing to pan: its translation bound is zero. */
  lemma NoPanWhenNotEnlarged(extent: real, scale: real)
    requires 0.0 <= extent && scale <= 1.0
    ensures MaxTranslate(extent * scale, extent) == 0.0
  {
    assert extent * scale <= extent * 1.0 by {
      assert extent * (1.0 - scale) >= 0.0;
    }
  }

  function SquaredDistance(a: Touch, b: Touch): real
  {
    (a.clientX - b.clientX) * (a.clientX - b.clientX) + (a.clientY - b.clientY) * (a.clientY - b.clientY)
  }

  /** `d` is Math.sqrt(q). */
  predicate IsRoot(d: real, q: real)
  {
    d >= 0.0 && d * d == q
  }

  /** The tap radius test on the square root is the same test on the squared distance. */
  lemma WithinTapRadius(d: real, q: real)
    requires IsRoot(d, q)
    ensures d < DOUBLE_TAP_RADIUS <==> q < DOUBLE_TAP_RADIUS * DOUBLE_TAP_RADIUS
  {
    if d < 50.0 {
      assert d * d <= d * 50.0;
      assert d * 50.0 < 2500.0;
    } else {
      assert d * d >= d * 50.0;
      assert d * 50.0 >= 2500.0;
    }
  }

  /** getDistance, with Math.sqrt supplied as `sqrt`. */
  function Distance(sqrt: real -> real, a: Touch, b: Touch): real
  {
    sqrt(SquaredDistance(a, b))
  }

  /**
   * When `sqrt` is a square root where it is used, a tap counts as a double
   * tap exactly when the squared distance to the last tap is below 2500.
   */
  lemma TapRecognition(sqrt: real -> real, enabled: bool, elapsed: int, touch: Touch, last: Touch)
    requires IsRoot(sqrt(SquaredDistance(touch, last)), SquaredDistance(touch, last))
    ensures IsDoubleTap(enabled, elapsed, Distance(sqrt, touch, last))
            <==> enabled && 0 < elapsed < DOUBLE_TAP_WINDOW && SquaredDistance(touch, last) < 2500.0
  {
    WithinTapRadius(sqrt(SquaredDistance(touch, last)), SquaredDistance(touch, last));
  }

  /** The midpoint of two touches. */
  function Center(a: Touch, b: Touch): Touch
  {
    Touch((a.clientX + b.clientX) / 2.0, (a.clientY + b.clientY) / 2.0)
  }

  /** The offset that centres a 2x zoom on a tap at `tap` along an axis of length `extent`. */
  function ZoomInOffset(extent: real, tap: real): real
  {
    (extent / 2.0 - tap) * 0.5
  }

  /** Double-tap recognition: enabled, strictly within 300 ms and closer than 50 px to the last tap. */
  predicate IsDoubleTap(enabled: bool, elapsed: int, distance: real)
  {
    enabled && elapsed < DOUBLE_TAP_WINDOW && elapsed > 0 && distance < DOUBLE_TAP_RADIUS
  }

  /** On the last touch leaving: snap back when within 0.15 of the minimum but not exactly at 1. */
  predicate ShouldSnapBack(scale: real, minScale: real)
  {
    scale < minScale + SNAP_MARGIN && scale != 1.0
  }

  /** Both window dimensions jumped by more than 100 px: taken for a rotation. */
  predicate IsOrientationChange(lastWidth: real, lastHeight: real, width: real, height: real)
  {
    Abs(width - lastWidth) > ORIENTATION_JUMP && Abs(height - lastHeight) > ORIENTATION_JUMP
  }

  /** The state the hook starts in: `scale` from the option, the gesture record at rest with scale 1. */
  function Initial(initialScale: real): ZoomState
  {
    ZoomState(initialScale, Gesture(false, false, 0.0, 1.0, 0, 0.0, 0.0, 0.0, 0.0, 0.0, 0.0, 0.0, 0.0, 1.0))
  }

  /** The scale kept in the gesture record is 1 or lies between the bounds. */
  predicate ScaleInRange(z: ZoomState, o: Options)
  {
    o.minScale <= o.maxScale ==> z.gesture.currentScale == 1.0 || o.minScale <= z.gesture.currentScale <= o.maxScale
  }

  /** The hook's `isZoomed` result: the reported scale is above 1. */
  predicate Zoomed(z: ZoomState)
  {
    z.scale > 1.0
  }

  /** resetZoom. */
  function Reset(z: ZoomState): ZoomState
  {
    ZoomState(1.0, z.gesture.(translateX := 0.0, translateY := 0.0, currentTranslateX := 0.0, currentTranslateY := 0.0,
                              currentScale := 1.0))
  }

  /** applyTransform: clamp the scale, clamp the translation to the bounds at that scale, record both. */
  function Transformed(z: ZoomState, o: Options, newScale: real, tx: real, ty: real,
                       container: Rect, contentHeight: real): ZoomState
  {
    var s := Clamp(newScale, o.minScale, o.maxScale);
    var mx := MaxTranslate(container.width * s, container.width);
    var my := MaxTranslate(contentHeight * s, container.height);
    ZoomState(s, z.gesture.(currentTranslateX := Clamp(tx, -mx, mx), currentTranslateY := Clamp(ty, -my, my),
                            currentScale := s))
  }

  /**
   * Whatever it is asked for, applyTransform records a scale between the
   * bounds (the requested one when it already is) and a translation within
   * the bounds for that scale, which are never negative; the reported
   * scale is the recorded one.
   */
  lemma TransformedWithinBounds(z: ZoomState, o: Options, newScale: real, tx: real, ty: real,
                                container: Rect, contentHeight: real)
    ensures var r := Transformed(z, o, newScale, tx, ty, container, contentHeight);
            var s := r.gesture.currentScale;
            var mx := MaxTranslate(container.width * s, container.width);
            var my := MaxTranslate(contentHeight * s, container.height);
            && r.scale == s
            && (o.minScale <= o.maxScale ==> o.minScale <= s <= o.maxScale)
            && (o.minScale <= newScale <= o.maxScale ==> s == newScale)
            && 0.0 <= mx && -mx <= r.gesture.currentTranslateX <= mx
            && 0.0 <= my && -my <= r.gesture.currentTranslateY <= my
            && ScaleInRange(r, o)
  {
  }

  /**
   * At a recorded scale of at most 1 the content cannot move sideways. It
   * can still move vertically when it is taller than the container at that
   * scale; only content that fits stays put.
   */
  lemma UnenlargedPanLimits(z: ZoomState, o: Options, newScale: real, tx: real, ty: real,
                             container: Rect, contentHeight: real)
    requires 0.0 <= container.width
    requires Clamp(newScale, o.minScale, o.maxScale) <= 1.0
    ensures var r := Transformed(z, o, newScale, tx, ty, container, contentHeight);
            var s := r.gesture.currentScale;
            var my := MaxTranslate(contentHeight * s, container.height);
            && r.gesture.currentTranslateX == 0.0
            && (contentHeight * s <= container.height ==> r.gesture.currentTranslateY == 0.0)
            && (contentHeight * s > container.height && -my <= ty <= my ==> r.gesture.currentTranslateY == ty)
  {
    NoPanWhenNotEnlarged(container.width, Clamp(newScale, o.minScale, o.maxScale));
  }

  /**
   * After applyTransform, `isZoomed` holds exactly when the content can be
   * moved sideways: the horizontal translation bound is positive.
   */
  lemma ZoomedIffPannable(z: ZoomState, o: Options, newScale: real, tx: real, ty: real,
                          container: Rect, contentHeight: real)
    requires 0.0 < container.width
    ensures var r := Transformed(z, o, newScale, tx, ty, container, contentHeight);
            Zoomed(r) <==> MaxTranslate(container.width * r.scale, container.width) > 0.0
  {
    var s := Clamp(newScale, o.minScale, o.maxScale);
    if s > 1.0 {
      assert container.width * s > container.width * 1.0 by {
        assert container.width * (s - 1.0) > 0.0;
      }
    } else {
      NoPanWhenNotEnlarged(container.width, s);
    }
  }

  /** handleTouchStart. */
  function AfterTouchStart(z: ZoomState, o: Options, sqrt: real -> real, touches: seq<Touch>, now: int,
                           container: Rect, contentHeight: real): ZoomState
  {
    var g := z.gesture;
    if |touches| == 2 then
      var c := Center(touches[0], touches[1]);
      z.(gesture := g.(isZooming := true, isPanning := false, initialDistance := Distance(sqrt, touches[0], touches[1]),
                       initialScale := g.currentScale, translateX := g.currentTranslateX,
                       translateY := g.currentTranslateY, startX := c.clientX, startY := c.clientY))
    else if |touches| == 1 then
      var t := touches[0];
      if IsDoubleTap(o.doubleTapToZoom, now - g.lastTap, Distance(sqrt, t, Touch(g.lastTapX, g.lastTapY))) then
        var cleared := z.(gesture := g.(lastTap := 0));
        if g.currentScale > ZOOM_OUT_ABOVE then Reset(cleared)
        else Transformed(cleared, o, DOUBLE_TAP_SCALE,
                         ZoomInOffset(container.width, t.clientX - container.left),
                         ZoomInOffset(container.height, t.clientY - container.top), container, contentHeight)
      else
        var recorded := g.(lastTap := now, lastTapX := t.clientX, lastTapY := t.clientY);
        if g.currentScale > 1.0 then
          z.(gesture := recorded.(isPanning := true, startX := t.clientX, startY := t.clientY,
                                  translateX := g.currentTranslateX, translateY := g.currentTranslateY))
        else z.(gesture := recorded)
    else
      z
  }

  /** The scale a pinch asks for: the starting scale times the ratio of the finger distances. */
  function PinchScale(g: Gesture, distance: real): real
    requires g.initialDistance != 0.0
  {
    g.initialScale * (distance / g.initialDistance)
  }

  /** handleTouchMove; a pinch needs a non-zero starting distance (the hook would divide by zero). */
  function AfterTouchMove(z: ZoomState, o: Options, sqrt: real -> real, touches: seq<Touch>,
                          container: Rect, contentHeight: real): ZoomState
    requires |touches| == 2 && z.gesture.isZooming ==> z.gesture.initialDistance != 0.0
  {
    var g := z.gesture;
    if |touches| == 2 && g.isZooming then
      var c := Center(touches[0], touches[1]);
      Transformed(z, o, PinchScale(g, Distance(sqrt, touches[0], touches[1])),
                  g.translateX + (c.clientX - g.startX), g.translateY + (c.clientY - g.startY),
                  container, contentHeight)
    else if |touches| == 1 && g.currentScale > 1.0 && g.isPanning then
      Transformed(z, o, g.currentScale,
                  g.translateX + (touches[0].clientX - g.startX), g.translateY + (touches[0].clientY - g.startY),
                  container, contentHeight)
    else
      z
  }

  /** handleTouchEnd, given how many touches remain on the screen. */
  function AfterTouchEnd(z: ZoomState, o: Options, remaining: nat): ZoomState
  {
    var notZooming := if remaining < 2 then z.(gesture := z.gesture.(isZooming := false)) else z;
    var settled :=
      if remaining == 0 then
        var released := notZooming.(gesture := notZooming.gesture.(isPanning := false));
        if ShouldSnapBack(z.gesture.currentScale, o.minScale) then Reset(released) else released
      else notZooming;
    settled.(gesture := settled.gesture.(translateX := settled.gesture.currentTranslateX,
                                         translateY := settled.gesture.currentTranslateY))
  }

  /**
   * A recognised double tap zooms out to 1 from above 1.1 and otherwise to
   * the clamped 2x, and clears the last tap so that a third tap (at any
   * real timestamp, 300 ms or more after the epoch) is not a double tap.
   */
  lemma DoubleTapToggles(z: ZoomState, o: Options, sqrt: real -> real, touch: Touch, now: int,
                         container: Rect, contentHeight: real, later: int, laterDistance: real)
    requires IsDoubleTap(o.doubleTapToZoom, now - z.gesture.lastTap,
                         Distance(sqrt, touch, Touch(z.gesture.lastTapX, z.gesture.lastTapY)))
    requires later >= DOUBLE_TAP_WINDOW
    ensures var r := AfterTouchStart(z, o, sqrt, [touch], now, container, contentHeight);
            && r.gesture.lastTap == 0
            && (z.gesture.currentScale > ZOOM_OUT_ABOVE ==> r.gesture.currentScale == 1.0 && r.scale == 1.0)
            && (z.gesture.currentScale <= ZOOM_OUT_ABOVE ==>
                  r.gesture.currentScale == r.scale == Clamp(DOUBLE_TAP_SCALE, o.minScale, o.maxScale))
            && !IsDoubleTap(o.doubleTapToZoom, later - r.gesture.lastTap, laterDistance)
  {
  }

  /** With the default options a double tap below 1.1 zooms to exactly 2x. */
  lemma DefaultDoubleTapZoomsToTwo(z: ZoomState, sqrt: real -> real, touch: Touch, now: int,
                                   container: Rect, contentHeight: real)
    requires IsDoubleTap(true, now - z.gesture.lastTap, Distance(sqrt, touch, Touch(z.gesture.lastTapX, z.gesture.lastTapY)))
    requires z.gesture.currentScale <= ZOOM_OUT_ABOVE
    ensures AfterTouchStart(z, DEFAULT_OPTIONS, sqrt, [touch], now, container, contentHeight).scale == 2.0
  {
  }

  /** A single tap that is not a double tap pans only when zoomed in, and always records itself. */
  lemma SingleTapStartsPanOnlyWhenZoomed(z: ZoomState, o: Options, sqrt: real -> real, touch: Touch, now: int,
                                         container: Rect, contentHeight: real)
    requires !IsDoubleTap(o.doubleTapToZoom, now - z.gesture.lastTap,
                          Distance(sqrt, touch, Touch(z.gesture.lastTapX, z.gesture.lastTapY)))
    ensures var r := AfterTouchStart(z, o, sqrt, [touch], now, container, contentHeight);
            && r.gesture.lastTap == now && r.gesture.lastTapX == touch.clientX && r.gesture.lastTapY == touch.clientY
            && r.gesture.isPanning == (z.gesture.currentScale > 1.0 || z.gesture.isPanning)
            && r.gesture.currentScale == z.gesture.currentScale && r.scale == z.scale
  {
  }

  /** Panning with one finger moves the content but never changes the zoom level. */
  lemma PanKeepsScale(z: ZoomState, o: Options, sqrt: real -> real, touch: Touch, container: Rect, contentHeight: real)
    requires ScaleInRange(z, o) && o.minScale <= o.maxScale
    ensures AfterTouchMove(z, o, sqrt, [touch], container, contentHeight).gesture.currentScale == z.gesture.currentScale
  {
  }

  /**
   * Every handler keeps the recorded scale at 1 or between the bounds:
   * a pinch, a pan and a double tap go through applyTransform's clamp, and
   * everything else either resets to 1 or leaves the scale alone.
   */
  lemma HandlersKeepScaleInRange(z: ZoomState, o: Options, sqrt: real -> real, touches: seq<Touch>,
                                 now: int, remaining: nat, container: Rect, contentHeight: real)
    requires ScaleInRange(z, o)
    ensures ScaleInRange(Reset(z), o)
    ensures ScaleInRange(AfterTouchStart(z, o, sqrt, touches, now, container, contentHeight), o)
    ensures |touches| == 2 && z.gesture.isZooming ==> z.gesture.initialDistance != 0.0 ==>
              ScaleInRange(AfterTouchMove(z, o, sqrt, touches, container, contentHeight), o)
    ensures !(|touches| == 2 && z.gesture.isZooming) ==>
              ScaleInRange(AfterTouchMove(z, o, sqrt, touches, container, contentHeight), o)
    ensures ScaleInRange(AfterTouchEnd(z, o, remaining), o)
  {
  }

  /**
   * When the last finger leaves, no gesture is in progress, the translate
   * baseline equals the recorded translation, and a scale just above the
   * minimum has been snapped back to 1.
   */
  lemma TouchEndAtRest(z: ZoomState, o: Options)
    ensures var r := AfterTouchEnd(z, o, 0);
            && !r.gesture.isZooming && !r.gesture.isPanning
            && r.gesture.translateX == r.gesture.currentTranslateX
            && r.gesture.translateY == r.gesture.currentTranslateY
            && (ShouldSnapBack(z.gesture.currentScale, o.minScale) ==> r.gesture.currentScale == 1.0 && r.scale == 1.0)
            && (!ShouldSnapBack(z.gesture.currentScale, o.minScale) ==>
                  r.gesture.currentScale == z.gesture.currentScale && r.scale == z.scale)
  {
  }

  /** The hook instance: its options, the reported scale, the gesture record and the last window size. */
  class PinchZoom {
    const minScale: real
    const maxScale: real
    const doubleTapToZoom: bool
    /** Math.sqrt, supplied from outside. */
    const sqrt: real -> real

    var scale: real
    var gesture: Gesture
    var lastWidth: real
    var lastHeight: real

    function Opts(): Options
    {
      Options(minScale, maxScale, doubleTapToZoom)
    }

    function State(): ZoomState
      reads this
    {
      ZoomState(scale, gesture)
    }

    /** isZoomed. */
    predicate IsZoomed()
      reads this
    {
      Zoomed(State())
    }

    constructor (minScale: real, maxScale: real, initialScale: real, doubleTapToZoom: bool,
                 sqrt: real -> real, windowWidth: real, windowHeight: real)
      ensures Opts() == Options(minScale, maxScale, doubleTapToZoom) && this.sqrt == sqrt
      ensures State() == Initial(initialScale) && ScaleInRange(State(), Opts())
      ensures lastWidth == windowWidth && lastHeight == windowHeight
    {
      this.minScale := minScale;
      this.maxScale := maxScale;
      this.doubleTapToZoom := doubleTapToZoom;
      this.sqrt := sqrt;
      scale := initialScale;
      gesture := Initial(initialScale).gesture;
      lastWidth, lastHeight := windowWidth, windowHeight;
    }

    /** resetZoom (also what an orientationchange event leads to): scale 1 and no translation. */
    method ResetZoom()
      modifies this`scale, this`gesture
      ensures State() == Reset(old(State()))
    {
      scale := 1.0;
      gesture := gesture.(translateX := 0.0);
      gesture := gesture.(translateY := 0.0);
      gesture := gesture.(currentTranslateX := 0.0);
      gesture := gesture.(currentTranslateY := 0.0);
      gesture := gesture.(currentScale := 1.0);
    }

    /** applyTransform; returns the clamped scale. */
    method ApplyTransform(newScale: real, tx: real, ty: real, container: Rect, contentHeight: real)
      returns (clamped: real)
      modifies this`scale, this`gesture
      ensures State() == Transformed(old(State()), Opts(), newScale, tx, ty, container, contentHeight)
      ensures clamped == scale
    {
      clamped := Min(Max(newScale, minScale), maxScale);
      var scaledWidth := container.width * clamped;
      var scaledHeight := contentHeight * clamped;
      var maxTranslateX := Max(0.0, (scaledWidth - container.width) / 2.0);
      var maxTranslateY := Max(0.0, (scaledHeight - container.height) / 2.0);
      gesture := gesture.(currentTranslateX := Min(Max(tx, -maxTranslateX), maxTranslateX));
      gesture := gesture.(currentTranslateY := Min(Max(ty, -maxTranslateY), maxTranslateY));
      gesture := gesture.(currentScale := clamped);
      scale := clamped;
    }

    /** handleTouchStart: start a pinch with two touches; with one, a double tap toggles the zoom, a tap pans. */
    method TouchStart(touches: seq<Touch>, now: int, container: Rect, contentHeight: real)
      modifies this`scale, this`gesture
      ensures State() == AfterTouchStart(old(State()), Opts(), sqrt, touches, now, container, contentHeight)
    {
      var current := gesture.currentScale;
      if |touches| == 2 {
        gesture := gesture.(isZooming := true);
        gesture := gesture.(isPanning := false);
        gesture := gesture.(initialDistance := Distance(sqrt, touches[0], touches[1]));
        gesture := gesture.(initialScale := current);
        gesture := gesture.(translateX := gesture.currentTranslateX);
        gesture := gesture.(translateY := gesture.currentTranslateY);
        var center := Center(touches[0], touches[1]);
        gesture := gesture.(startX := center.clientX);
        gesture := gesture.(startY := center.clientY);
      } else if |touches| == 1 {
        var touch := touches[0];
        var timeSinceLastTap := now - gesture.lastTap;
        var distance := Distance(sqrt, touch, Touch(gesture.lastTapX, gesture.lastTapY));
        if doubleTapToZoom && timeSinceLastTap < 300 && timeSinceLastTap > 0 && distance < 50.0 {
          gesture := gesture.(lastTap := 0);
          if current > 1.1 {
            ResetZoom();
          } else {
            var tapX := touch.clientX - container.left;
            var tapY := touch.clientY - container.top;
            var offsetX := (container.width / 2.0 - tapX) * 0.5;
            var offsetY := (container.height / 2.0 - tapY) * 0.5;
            var _ := ApplyTransform(2.0, offsetX, offsetY, container, contentHeight);
          }
        } else {
          gesture := gesture.(lastTap := now);
          gesture := gesture.(lastTapX := touch.clientX);
          gesture := gesture.(lastTapY := touch.clientY);
          if current > 1.0 {
            gesture := gesture.(isPanning := true);
            gesture := gesture.(startX := touch.clientX);
            gesture := gesture.(startY := touch.clientY);
            gesture := gesture.(translateX := gesture.currentTranslateX);
            gesture := gesture.(translateY := gesture.currentTranslateY);
          }
        }
      }
    }

    /** handleTouchMove: pinch while zooming with two fingers, pan with one finger while zoomed in. */
    method TouchMove(touches: seq<Touch>, container: Rect, contentHeight: real)
      requires |touches| == 2 && gesture.isZooming ==> gesture.initialDistance != 0.0
      modifies this`scale, this`gesture
      ensures State() == AfterTouchMove(old(State()), Opts(), sqrt, touches, container, contentHeight)
    {
      var current := gesture.currentScale;
      if |touches| == 2 && gesture.isZooming {
        var center := Center(touches[0], touches[1]);
        var _ := ApplyTransform(PinchScale(gesture, Distance(sqrt, touches[0], touches[1])),
                                gesture.translateX + (center.clientX - gesture.startX),
                                gesture.translateY + (center.clientY - gesture.startY),
                                container, contentHeight);
      } else if |touches| == 1 && current > 1.0 && gesture.isPanning {
        var _ := ApplyTransform(current,
                                gesture.translateX + (touches[0].clientX - gesture.startX),
                                gesture.translateY + (touches[0].clientY - gesture.startY),
                                container, contentHeight);
      }
    }

    /** handleTouchEnd (also bound to touchcancel), given how many touches remain. */
    method TouchEnd(remaining: nat)
      modifies this`scale, this`gesture
      ensures State() == AfterTouchEnd(old(State()), Opts(), remaining)
    {
      var current := gesture.currentScale;
      if remaining < 2 {
        gesture := gesture.(isZooming := false);
      }
      if remaining == 0 {
        gesture := gesture.(isPanning := false);
        if current < minScale + 0.15 && current != 1.0 {
          ResetZoom();
        }
      }
      gesture := gesture.(translateX := gesture.currentTranslateX);
      gesture := gesture.(translateY := gesture.currentTranslateY);
    }

    /**
     * handleResize: when both window dimensions jumped by more than 100 px
     * the zoom is reset (the hook does so 100 ms later); the new size is
     * remembered either way.
     */
    method Resize(width: real, height: real) returns (rotated: bool)
      modifies this
      ensures rotated == IsOrientationChange(old(lastWidth), old(lastHeight), width, height)
      ensures State() == (if rotated then Reset(old(State())) else old(State()))
      ensures lastWidth == width && lastHeight == height
    {
      var widthChanged := Abs(width - lastWidth) > 100.0;
      var heightChanged := Abs(height - lastHeight) > 100.0;
      rotated := widthChanged && heightChanged;
      if rotated {
        ResetZoom();
      }
      lastWidth := width;
      lastHeight := height;
    }
  }
}
