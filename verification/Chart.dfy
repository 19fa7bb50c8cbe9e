/**
 The arithmetic of the chart: cursor-anchored zoom over a window of indices, the x scale and
 its inverse, the y scale. Numbers are exact reals, and rounding is floor(x + 1/2).
 */
module Chart {
  import opened Options

  const MIN_ZOOM_POINTS: nat := 10
  const MARGIN_LEFT: real := 44.0
  const MARGIN_TOP: real := 8.0

  function Round(x: real): int {
    (x + 0.5).Floor
  }

  function Min(a: int, b: int): int {
    if a <= b then a else b
  }

  function Max(a: int, b: int): int {
    if a >= b then a else b
  }

  /** Math.max(lo, Math.min(hi, x)) */
  function Clamp(lo: int, hi: int, x: int): int {
    Max(lo, Min(hi, x))
  }

  lemma RoundIsNearest(x: real, k: int)
    ensures -0.5 < Round(x) as real - x <= 0.5
    ensures k as real <= x ==> k <= Round(x)
    ensures x <= k as real ==> Round(x) <= k
  {
  }

  // ---------------------------------------------------------------------------
  // Zoom
  // ---------------------------------------------------------------------------

  /** Visible indices start <= i < end of n points. */
  datatype Window = Window(start: int, end: int)

  predicate ValidWindow(w: Window, n: nat) {
    0 <= w.start && w.start + MIN_ZOOM_POINTS <= w.end <= n
  }

  function Width(w: Window): int {
    w.end - w.start
  }

  function Anchor(mouseX: real, chartW: real): real {
    if chartW > 0.0 then
      (var a := mouseX / chartW; if a < 0.0 then 0.0 else if a > 1.0 then 1.0 else a)
    else 0.5
  }

  /** 1 + 0.15 or 1 - 0.15 */
  function Factor(zoomOut: bool): real {
    if zoomOut then 1.15 else 0.85
  }

  function NewRange(range: int, n: nat, zoomOut: bool): int {
    Clamp(MIN_ZOOM_POINTS, n, Round(range as real * Factor(zoomOut)))
  }

  /** The exact start that keeps the sample under the cursor in place. */
  function ExactStart(w: Window, newRange: int, anchor: real): real {
    w.start as real + (Width(w) - newRange) as real * anchor
  }

  /** Where the window starts before it is clamped into the data. */
  function UnclampedStart(w: Window, newRange: int, anchor: real): int {
    Round(ExactStart(w, newRange, anchor))
  }

  function Zoomed(w: Window, n: nat, anchor: real, zoomOut: bool): Window {
    if n <= MIN_ZOOM_POINTS then w else
      var newRange := NewRange(Width(w), n, zoomOut);
      var start := Clamp(0, n - newRange, UnclampedStart(w, newRange, anchor));
      Window(start, start + newRange)
  }

  predicate Shows(w: Window, i: int) {
    w.start <= i < w.end
  }

  /** The visible slice: the zoom state cut to the data. */
  function Visible(zoomStart: int, zoomEnd: int, n: nat): (w: Window)
    ensures 0 <= w.start <= w.end <= n
    ensures forall i :: Shows(w, i) <==> 0 <= i < n && zoomStart <= i < zoomEnd
  {
    var start := Clamp(0, n, zoomStart);
    Window(start, Max(start, Min(zoomEnd, n)))
  }

  class ChartState {
    var zoomStart: int
    var zoomEnd: int

    constructor (n: nat)
      ensures View(n) == Window(0, n)
    {
      zoomStart, zoomEnd := 0, n;
    }

    function View(n: nat): Window
      reads this
    {
      Visible(zoomStart, zoomEnd, n)
    }

    /** One wheel tick over a chart of n points. */
    method HandleWheel(n: nat, mouseX: real, chartW: real, zoomOut: bool)
      modifies this
      ensures n <= MIN_ZOOM_POINTS ==> zoomStart == old(zoomStart) && zoomEnd == old(zoomEnd)
      ensures n > MIN_ZOOM_POINTS ==> View(n) == Zoomed(old(View(n)), n, Anchor(mouseX, chartW), zoomOut)
      ensures n > MIN_ZOOM_POINTS ==> ValidWindow(View(n), n)
      ensures n > MIN_ZOOM_POINTS && old(ValidWindow(View(n), n)) ==>
                if zoomOut then View(n).start <= old(View(n).start) && old(View(n).end) <= View(n).end
                else old(View(n).start) <= View(n).start && View(n).end <= old(View(n).end)
      ensures n > MIN_ZOOM_POINTS && old(ValidWindow(View(n), n)) ==>
                NearestWidth(Width(View(n)), Width(old(View(n))), n, zoomOut)
      ensures n > MIN_ZOOM_POINTS && old(ValidWindow(View(n), n)) && chartW > 0.0 && 0.0 <= mouseX <= chartW ==>
                CursorKept(old(View(n)), View(n), n, mouseX / chartW)
    {
      if n <= MIN_ZOOM_POINTS {
        return;
      }
      hide Round, NewRange, UnclampedStart, Anchor, NearestWidth, CursorKept;
      ZoomInRange(View(n), n, Anchor(mouseX, chartW), zoomOut);
      if ValidWindow(View(n), n) {
        ZoomLaws(View(n), n, mouseX, chartW, zoomOut);
      }
      var vis := View(n);
      var newRange := NewRange(Width(vis), n, zoomOut);
      var newStart := Clamp(0, n - newRange, UnclampedStart(vis, newRange, Anchor(mouseX, chartW)));
      zoomStart := newStart;
      zoomEnd := newStart + newRange;
    }
  }

  lemma AnchorInRange(mouseX: real, chartW: real)
    ensures 0.0 <= Anchor(mouseX, chartW) <= 1.0
  {
  }

  lemma RangeBounds(range: int, n: nat, zoomOut: bool)
    requires n > MIN_ZOOM_POINTS && MIN_ZOOM_POINTS <= range <= n
    ensures MIN_ZOOM_POINTS <= NewRange(range, n, zoomOut) <= n
    ensures !zoomOut ==> NewRange(range, n, zoomOut) <= range
    ensures zoomOut ==> NewRange(range, n, zoomOut) >= range
    ensures !zoomOut && range > MIN_ZOOM_POINTS ==> NewRange(range, n, zoomOut) < range
    ensures zoomOut && range < n ==> NewRange(range, n, zoomOut) > range
  {
    var x := range as real * Factor(zoomOut);
    RoundIsNearest(x, range - 1);
    RoundIsNearest(x, range + 1);
  }

  /** A product with a factor between 0 and 1 stays between 0 and the other factor. */
  lemma Scaled(d: real, a: real)
    requires 0.0 <= a <= 1.0
    ensures d >= 0.0 ==> 0.0 <= d * a <= d
    ensures d <= 0.0 ==> d <= d * a <= 0.0
  {
    assert d >= 0.0 ==> d * (1.0 - a) >= 0.0;
    assert d <= 0.0 ==> d * (1.0 - a) <= 0.0;
  }

  lemma RoundBetween(x: real, lo: int, hi: int)
    requires lo as real <= x <= hi as real
    ensures lo <= Round(x) <= hi
  {
    RoundIsNearest(x, lo);
    RoundIsNearest(x, hi);
  }

  lemma ExactStartBounds(w: Window, newRange: int, anchor: real)
    requires 0.0 <= anchor <= 1.0
    ensures newRange <= Width(w) ==> w.start as real <= ExactStart(w, newRange, anchor) <= (w.end - newRange) as real
    ensures newRange >= Width(w) ==> (w.end - newRange) as real <= ExactStart(w, newRange, anchor) <= w.start as real
  {
    Scaled((Width(w) - newRange) as real, anchor);
  }

  /** The unclamped start lies between the old start and the start that keeps the old end. */
  lemma StartBounds(w: Window, newRange: int, anchor: real)
    requires 0.0 <= anchor <= 1.0
    ensures var start := UnclampedStart(w, newRange, anchor);
            && (newRange <= Width(w) ==> w.start <= start <= w.end - newRange)
            && (newRange >= Width(w) ==> w.end - newRange <= start <= w.start)
  {
    hide Round, ExactStart;
    ExactStartBounds(w, newRange, anchor);
    if newRange <= Width(w) {
      RoundBetween(ExactStart(w, newRange, anchor), w.start, w.end - newRange);
    }
    if newRange >= Width(w) {
      RoundBetween(ExactStart(w, newRange, anchor), w.end - newRange, w.start);
    }
  }

  /**
   One wheel step from a valid window: the window stays inside the data with at least 10
   points; zooming in nests it in the old one, zooming out contains the old one.
   */
  lemma ZoomNests(w: Window, n: nat, anchor: real, zoomOut: bool)
    requires n > MIN_ZOOM_POINTS && ValidWindow(w, n) && 0.0 <= anchor <= 1.0
    ensures var w' := Zoomed(w, n, anchor, zoomOut);
            && ValidWindow(w', n)
            && (!zoomOut ==> w.start <= w'.start && w'.end <= w.end)
            && (zoomOut ==> w'.start <= w.start && w.end <= w'.end)
  {
    hide Round, UnclampedStart, NewRange;
    RangeBounds(Width(w), n, zoomOut);
    StartBounds(w, NewRange(Width(w), n, zoomOut), anchor);
  }

  /** The (fractional) sample under the cursor, for a cursor at fraction `anchor` of the window. */
  function UnderCursor(start: int, range: int, anchor: real): real {
    start as real + range as real * anchor
  }

  /** Before clamping, the sample under the cursor moves by at most half a sample. */
  lemma CursorStaysPut(w: Window, newRange: int, anchor: real)
    ensures var moved :=
              UnderCursor(UnclampedStart(w, newRange, anchor), newRange, anchor) - UnderCursor(w.start, Width(w), anchor);
            -0.5 <= moved <= 0.5
  {
    RoundIsNearest(ExactStart(w, newRange, anchor), 0);
    assert (Width(w) - newRange) as real * anchor == Width(w) as real * anchor - newRange as real * anchor;
  }

  /**
   The width after a tick: the integer nearest to 1.15 or 0.85 times the old one, a half rounded
   up, or the limit of 10 or n points that lies on the way there.
   */
  ghost predicate NearestWidth(width: int, range: int, n: nat, zoomOut: bool) {
    var exact := range as real * (if zoomOut then 1.15 else 0.85);
    || -0.5 < width as real - exact <= 0.5
    || (width == 10 && exact < 9.5)
    || (width == n && exact >= n as real + 0.5)
  }

  lemma ZoomedWidth(w: Window, n: nat, anchor: real, zoomOut: bool)
    requires n > MIN_ZOOM_POINTS && ValidWindow(w, n)
    ensures NearestWidth(Width(Zoomed(w, n, anchor, zoomOut)), Width(w), n, zoomOut)
  {
    hide Round, UnclampedStart;
    RoundIsNearest(Width(w) as real * Factor(zoomOut), 10);
    RoundIsNearest(Width(w) as real * Factor(zoomOut), n);
  }

  /** Where the sample under the cursor has gone, for a cursor at fraction `anchor` of the window. */
  function Moved(w: Window, w': Window, anchor: real): real {
    (w'.start as real + (w'.end - w'.start) as real * anchor) - (w.start as real + (w.end - w.start) as real * anchor)
  }

  /**
   The sample under the cursor stays within half a sample. A window at the left edge of the data
   can only have moved it to the right beyond that, one at the right edge only to the left.
   */
  ghost predicate CursorKept(w: Window, w': Window, n: nat, anchor: real) {
    && (w'.start > 0 ==> Moved(w, w', anchor) <= 0.5)
    && (w'.end < n ==> -0.5 <= Moved(w, w', anchor))
  }

  /** The zoom keeps the sample under the cursor, up to rounding and the edges of the data. */
  lemma ZoomKeepsCursor(w: Window, n: nat, anchor: real, zoomOut: bool)
    requires n > MIN_ZOOM_POINTS && ValidWindow(w, n)
    ensures CursorKept(w, Zoomed(w, n, anchor, zoomOut), n, anchor)
  {
    hide Round, UnclampedStart;
    var w' := Zoomed(w, n, anchor, zoomOut);
    var newRange := NewRange(Width(w), n, zoomOut);
    RangeBounds(Width(w), n, zoomOut);
    CursorStaysPut(w, newRange, anchor);
    var start := UnclampedStart(w, newRange, anchor);
    assert w'.end - w'.start == newRange;
    assert Moved(w, w', anchor) ==
           (UnderCursor(start, newRange, anchor) - UnderCursor(w.start, Width(w), anchor)) + (w'.start - start) as real;
    assert w'.start > 0 ==> w'.start <= start;
    assert w'.end < n ==> w'.start >= start;
  }

  lemma LessThanOne(t: real, w: real)
    requires w > 0.0 && t < 1.0
    ensures t * w < w
  {
    assert (1.0 - t) * w > 0.0;
  }

  lemma MoreThanZero(t: real, w: real)
    requires w > 0.0 && t > 0.0
    ensures t * w > 0.0
  {
  }

  /** Where x / w lies. */
  lemma RatioBounds(x: real, w: real)
    requires w > 0.0
    ensures x >= w ==> x / w >= 1.0
    ensures x <= w ==> x / w <= 1.0
    ensures x <= 0.0 ==> x / w <= 0.0
    ensures x >= 0.0 ==> x / w >= 0.0
  {
    var t := x / w;
    DivideTimes(x, w);
    if t < 1.0 {
      LessThanOne(t, w);
    }
    if t > 1.0 {
      LessThanOne(2.0 - t, w);
      assert (2.0 - t) * w == 2.0 * w - t * w;
    }
    if t > 0.0 {
      MoreThanZero(t, w);
    }
    if t < 0.0 {
      MoreThanZero(-t, w);
    }
  }

  /** Inside the plot the anchor is the fraction of its width, outside its nearest edge, without a plot the middle. */
  lemma AnchorIs(x: real, w: real)
    ensures w > 0.0 && 0.0 <= x <= w ==> Anchor(x, w) == x / w
    ensures w > 0.0 && x <= 0.0 ==> Anchor(x, w) == 0.0
    ensures w > 0.0 && x >= w ==> Anchor(x, w) == 1.0
    ensures w <= 0.0 ==> Anchor(x, w) == 0.5
  {
    if w > 0.0 {
      RatioBounds(x, w);
    }
  }

  /** One tick from any view leaves a valid window. */
  lemma ZoomInRange(w: Window, n: nat, anchor: real, zoomOut: bool)
    requires n > MIN_ZOOM_POINTS
    ensures ValidWindow(Zoomed(w, n, anchor, zoomOut), n)
  {
    hide Round, UnclampedStart;
  }

  /** All that a tick from a valid window promises, in terms of the mouse position. */
  lemma ZoomLaws(w: Window, n: nat, mouseX: real, chartW: real, zoomOut: bool)
    requires n > MIN_ZOOM_POINTS && ValidWindow(w, n)
    ensures var w' := Zoomed(w, n, Anchor(mouseX, chartW), zoomOut);
            && (if zoomOut then w'.start <= w.start && w.end <= w'.end else w.start <= w'.start && w'.end <= w.end)
            && NearestWidth(Width(w'), Width(w), n, zoomOut)
            && (chartW > 0.0 && 0.0 <= mouseX <= chartW ==> CursorKept(w, w', n, mouseX / chartW))
  {
    hide Zoomed, NearestWidth, CursorKept;
    AnchorInRange(mouseX, chartW);
    AnchorIs(mouseX, chartW);
    hide Anchor;
    ZoomNests(w, n, Anchor(mouseX, chartW), zoomOut);
    ZoomedWidth(w, n, Anchor(mouseX, chartW), zoomOut);
    ZoomKeepsCursor(w, n, Anchor(mouseX, chartW), zoomOut);
  }

  /** Wheel ticks in one direction, each with the cursor wherever it is. */
  function Ticks(w: Window, n: nat, anchors: seq<real>, zoomOut: bool): Window
    decreases |anchors|
  {
    if anchors == [] then w else Ticks(Zoomed(w, n, anchors[0], zoomOut), n, anchors[1..], zoomOut)
  }

  /**
   Repeated ticks in one direction make progress every time until they stop: after k ticks
   the window has lost (or gained) at least k points or has reached 10 (or all n) of them.
   */
  lemma {:induction false} TicksReachTheEnd(w: Window, n: nat, anchors: seq<real>, zoomOut: bool)
    requires n > MIN_ZOOM_POINTS && ValidWindow(w, n)
    requires forall i :: 0 <= i < |anchors| ==> 0.0 <= anchors[i] <= 1.0
    ensures ValidWindow(Ticks(w, n, anchors, zoomOut), n)
    ensures var k := Width(Ticks(w, n, anchors, zoomOut));
            if zoomOut then k == n || k >= Width(w) + |anchors|
            else k == MIN_ZOOM_POINTS || k <= Width(w) - |anchors|
    ensures zoomOut && |anchors| >= n - Width(w) ==> Ticks(w, n, anchors, zoomOut) == Window(0, n)
    ensures !zoomOut && |anchors| >= Width(w) - MIN_ZOOM_POINTS ==>
              Width(Ticks(w, n, anchors, zoomOut)) == MIN_ZOOM_POINTS
    decreases |anchors|
  {
    if anchors != [] {
      var w' := Zoomed(w, n, anchors[0], zoomOut);
      ZoomNests(w, n, anchors[0], zoomOut);
      RangeBounds(Width(w), n, zoomOut);
      TicksReachTheEnd(w', n, anchors[1..], zoomOut);
    }
  }

  // ---------------------------------------------------------------------------
  // The x scale
  // ---------------------------------------------------------------------------

  function ToX(i: int, count: nat, chartW: real): real {
    MARGIN_LEFT + (if count <= 1 then chartW / 2.0 else (i as real / (count - 1) as real) * chartW)
  }

  /** The samples are spread evenly from the left margin to the right end of the plot; a single one is in the middle. */
  lemma SamplesAreSpread(i: int, count: nat, chartW: real)
    ensures count <= 1 ==> ToX(i, count, chartW) == 44.0 + chartW / 2.0
    ensures count >= 2 ==> ToX(0, count, chartW) == 44.0 && ToX(count - 1, count, chartW) == 44.0 + chartW
    ensures count >= 2 ==> (ToX(i + 1, count, chartW) - ToX(i, count, chartW)) * (count - 1) as real == chartW
  {
    if count >= 2 {
      var m := (count - 1) as real;
      assert m / m == 1.0;
      var a, b := i as real / m, (i + 1) as real / m;
      assert a * m == i as real && b * m == (i + 1) as real;
      EvenStep(a, b, chartW, m);
    }
  }

  lemma EvenStep(a: real, b: real, w: real, m: real)
    requires b * m == a * m + 1.0
    ensures ((44.0 + b * w) - (44.0 + a * w)) * m == w
  {
    assert ((44.0 + b * w) - (44.0 + a * w)) * m == (b * m - a * m) * w;
  }

  /** The fractional sample index at coordinate x, left margin included. */
  function IndexAt(x: real, count: nat, chartW: real): real
    requires chartW != 0.0
  {
    ((x - MARGIN_LEFT) / chartW) * (count - 1) as real
  }

  /** The hovered sample for a cursor at x, None when nothing is drawn. */
  function HoverIndex(x: real, count: nat, chartW: real): (r: Option<int>)
    ensures r.None? <==> count == 0 || chartW <= 0.0
    ensures r.Some? ==> 0 <= r.value < count
  {
    if count == 0 || chartW <= 0.0 then None
    else Some(Clamp(0, count - 1, Round(IndexAt(x, count, chartW))))
  }

  function Distance(a: real, b: real): real {
    if a <= b then b - a else a - b
  }

  /** Clamped rounding finds the nearest of the integers 0..m. */
  lemma NearestIndex(u: real, m: nat, j: int)
    requires 0 <= j <= m
    ensures 0 <= Clamp(0, m, Round(u)) <= m
    ensures Distance(Clamp(0, m, Round(u)) as real, u) <= Distance(j as real, u)
  {
    hide Round;
    var r := Round(u);
    RoundIsNearest(u, 0);
    assert -0.5 <= r as real - u <= 0.5;
    if j > r {
      assert j as real - u >= r as real - u + 1.0;
    } else if j < r {
      assert j as real - u <= r as real - u - 1.0;
    }
    if r < 0 {
      assert r as real <= -1.0 && u <= -0.5;
    } else if r > m {
      assert r as real >= m as real + 1.0 && u >= m as real + 0.5;
    }
  }

  /** The x coordinate of sample i lies `scale` times as far from the cursor as i from the index at the cursor. */
  lemma ScaleDistance(i: int, x: real, count: nat, chartW: real)
    requires count >= 2 && chartW > 0.0
    ensures ToX(i, count, chartW) - x == (i as real - IndexAt(x, count, chartW)) * (chartW / (count - 1) as real)
  {
    var m := (count - 1) as real;
    var scale := chartW / m;
    assert IndexAt(x, count, chartW) * scale == x - MARGIN_LEFT;
    assert (i as real / m) * chartW == i as real * scale;
  }

  lemma Monotone(a: real, b: real, scale: real)
    requires 0.0 <= a <= b && scale >= 0.0
    ensures a * scale <= b * scale
  {
  }

  lemma DistanceScales(p: real, x: real, i: real, u: real, scale: real)
    requires p - x == (i - u) * scale && scale > 0.0
    ensures Distance(p, x) == Distance(i, u) * scale
  {
    if i <= u {
      Monotone(0.0, u - i, scale);
      assert x - p == (u - i) * scale;
    } else {
      Monotone(0.0, i - u, scale);
    }
  }

  /** Hovering selects a valid sample, and none is nearer to the cursor. */
  lemma HoverIsNearest(x: real, count: nat, chartW: real, j: int)
    requires count >= 2 && chartW > 0.0
    requires 0 <= j < count
    ensures HoverIndex(x, count, chartW).Some? && 0 <= HoverIndex(x, count, chartW).value < count
    ensures Distance(ToX(HoverIndex(x, count, chartW).value, count, chartW), x) <= Distance(ToX(j, count, chartW), x)
  {
    hide Round, ToX, Distance, IndexAt;
    var u := IndexAt(x, count, chartW);
    var i := Clamp(0, count - 1, Round(u));
    var scale := chartW / (count - 1) as real;
    NearestIndex(u, count - 1, j);
    ScaleDistance(i, x, count, chartW);
    ScaleDistance(j, x, count, chartW);
    DistanceScales(ToX(i, count, chartW), x, i as real, u, scale);
    DistanceScales(ToX(j, count, chartW), x, j as real, u, scale);
    DistanceNonNegative(i as real, u);
    Monotone(Distance(i as real, u), Distance(j as real, u), scale);
  }

  lemma DistanceNonNegative(a: real, b: real)
    ensures Distance(a, b) >= 0.0
  {
  }

  lemma DivideBack(t: real, w: real)
    requires w != 0.0
    ensures (t * w) / w == t
  {
  }

  lemma DivideTimes(p: real, q: real)
    requires q != 0.0
    ensures (p / q) * q == p
  {
  }

  lemma IndexAtToX(i: int, count: nat, chartW: real)
    requires count >= 2 && chartW > 0.0
    ensures IndexAt(ToX(i, count, chartW), count, chartW) == i as real
  {
    var m := (count - 1) as real;
    var t := i as real / m;
    DivideBack(t, chartW);
    assert (ToX(i, count, chartW) - MARGIN_LEFT) / chartW == t;
    DivideTimes(i as real, m);
  }

  /** A cursor exactly on sample i hovers sample i. */
  lemma HoverInvertsToX(i: int, count: nat, chartW: real)
    requires count >= 2 && chartW > 0.0 && 0 <= i < count
    ensures HoverIndex(ToX(i, count, chartW), count, chartW) == Some(i)
  {
    hide Round, IndexAt, ToX;
    IndexAtToX(i, count, chartW);
    RoundIsNearest(i as real, i);
  }

  /** The indices that carry an x label. */
  function LabelIndex(i: int, xCount: nat, count: nat): int
    requires xCount > 1
  {
    Round((i as real / (xCount - 1) as real) * (count - 1) as real)
  }

  /** `index` is the index nearest to the i-th of k evenly spaced positions, a half rounded up. */
  predicate IsLabel(index: int, i: int, k: int, count: int) {
    var off := 2 * (index * (k - 1) - i * (count - 1));
    -(k - 1) < off <= k - 1
  }

  lemma RealProduct(a: int, b: int)
    ensures (a * b) as real == a as real * b as real
  {
  }

  lemma Distribute(a: real, x: real, c: real)
    ensures (a - x) * c == a * c - x * c
  {
  }

  lemma DoubleOff(product: int, y: int, c: int)
    requires -(c as real) < 2.0 * (product as real - y as real) <= c as real
    ensures -c < 2 * (product - y) <= c
  {
    assert (2 * (product - y)) as real == 2.0 * (product as real - y as real);
  }

  lemma OffIs(index: int, x: real, c: int, y: int)
    requires x * c as real == y as real
    ensures (index as real - x) * c as real == (index * c) as real - y as real
  {
    Distribute(index as real, x, c as real);
    RealProduct(index, c);
  }

  lemma ScaledOff(d: real, scale: real, off: real)
    requires scale > 0.0 && -0.5 < d <= 0.5 && d * scale == off
    ensures -scale < 2.0 * off <= scale
  {
    OffBy(d, scale);
  }

  /** A number within a half of x, all scaled by c. */
  lemma ScaledRounding(index: int, x: real, c: int, y: int)
    requires c > 0 && -0.5 < index as real - x <= 0.5 && x * c as real == y as real
    ensures -c < 2 * (index * c - y) <= c
  {
    var product := index * c;
    OffIs(index, x, c, y);
    ScaledOff(index as real - x, c as real, product as real - y as real);
    DoubleOff(product, y, c);
  }

  lemma LabelIsNearest(i: int, k: nat, count: nat)
    requires k > 1 && count > 1
    ensures IsLabel(LabelIndex(i, k, count), i, k, count)
  {
    var c, m := (k - 1) as real, (count - 1) as real;
    var x := (i as real / c) * m;
    RoundIsNearest(x, 0);
    DivideTimes(i as real, c);
    Swap(i as real / c, m, c);
    RealProduct(i, count - 1);
    hide Round;
    ScaledRounding(LabelIndex(i, k, count), x, k - 1, i * (count - 1));
  }

  lemma Swap(a: real, b: real, c: real)
    ensures (a * b) * c == (a * c) * b
  {
  }

  lemma OffBy(d: real, c: real)
    requires -0.5 < d <= 0.5 && c > 0.0
    ensures -c < 2.0 * (d * c) <= c
  {
    assert (d + 0.5) * c > 0.0 && (0.5 - d) * c >= 0.0;
  }

  /** The label indices start at 0, end at the last sample and strictly increase. */
  method XLabelIndices(count: nat) returns (labels: seq<int>)
    ensures count <= 1 ==> labels == []
    ensures count > 1 ==> |labels| == (if count < 6 then count else 6)
    ensures count > 1 ==> labels[0] == 0 && labels[|labels| - 1] == count - 1
    ensures forall i, j :: 0 <= i < j < |labels| ==> labels[i] < labels[j]
    ensures forall i :: 0 <= i < |labels| ==> 0 <= labels[i] < count
    ensures forall i :: 0 <= i < |labels| ==> IsLabel(labels[i], i, |labels|, count)
  {
    hide Round, LabelIndex, IsLabel;
    var xCount := if count < 6 then count else 6;
    labels := [];
    if count > 1 && xCount > 1 {
      for i := 0 to xCount
        invariant |labels| == i
        invariant forall k :: 0 <= k < i ==> labels[k] == LabelIndex(k, xCount, count)
        invariant forall j, k :: 0 <= j < k < i ==> labels[j] < labels[k]
        invariant forall k :: 0 <= k < i ==> IsLabel(labels[k], k, xCount, count)
      {
        LabelIsNearest(i, xCount, count);
        labels := labels + [LabelIndex(i, xCount, count)];
        if i > 0 {
          LabelsIncrease(i - 1, xCount, count);
        }
      }
      LabelEnds(xCount, count);
      assert labels[0] == 0 && labels[xCount - 1] == count - 1;
    }
  }

  lemma LabelsIncrease(i: int, xCount: nat, count: nat)
    requires 1 < xCount <= count && 0 <= i
    ensures LabelIndex(i, xCount, count) < LabelIndex(i + 1, xCount, count)
  {
    var m, c := (count - 1) as real, (xCount - 1) as real;
    var x, y := (i as real / c) * m, ((i + 1) as real / c) * m;
    assert m / c >= 1.0;
    assert x == i as real * (m / c) && y == (i + 1) as real * (m / c);
    assert y == x + m / c;
  }

  lemma LabelEnds(xCount: nat, count: nat)
    requires 1 < xCount <= count
    ensures LabelIndex(0, xCount, count) == 0 && LabelIndex(xCount - 1, xCount, count) == count - 1
  {
    var c := (xCount - 1) as real;
    assert c / c == 1.0;
  }

  // ---------------------------------------------------------------------------
  // The y scale
  // ---------------------------------------------------------------------------

  /** The bounds of the y axis without a fixed domain: 0 is always inside, and the range is positive. */
  method YScale(values: seq<real>) returns (yMin: real, yMax: real)
    ensures yMin < yMax && yMin <= 0.0
    ensures forall i :: 0 <= i < |values| ==> yMin <= values[i] <= yMax
    ensures yMin == 0.0 || yMin in values
    ensures if exists v :: v in values && v > yMin then yMax in values else yMax == yMin + 1.0
  {
    if |values| == 0 {
      return 0.0, 1.0;
    }
    yMin, yMax := 0.0, values[0];
    for i := 0 to |values|
      invariant yMin <= 0.0 && (yMin == 0.0 || yMin in values)
      invariant yMax in values
      invariant forall k :: 0 <= k < i ==> yMin <= values[k] <= yMax
    {
      var v := values[i];
      if v < yMin { yMin := v; }
      if v > yMax { yMax := v; }
    }
    if yMax <= yMin {
      yMax := yMin + 1.0;
    }
  }

  function ToY(v: real, yMin: real, yMax: real, chartH: real): real
    requires yMin < yMax
  {
    MARGIN_TOP + chartH - ((v - yMin) / (yMax - yMin)) * chartH
  }

  /** Equal steps of the value are equal steps on the screen. */
  lemma ToYIsProportional(v: real, w: real, yMin: real, yMax: real, chartH: real)
    requires yMin < yMax
    ensures (ToY(v, yMin, yMax, chartH) - ToY(w, yMin, yMax, chartH)) * (yMax - yMin) == (w - v) * chartH
  {
    var r := yMax - yMin;
    var a, b := (v - yMin) / r, (w - yMin) / r;
    DivideTimes(v - yMin, r);
    DivideTimes(w - yMin, r);
    assert ((b - a) * chartH) * r == (b * r - a * r) * chartH;
    assert ToY(v, yMin, yMax, chartH) - ToY(w, yMin, yMax, chartH) == (b - a) * chartH;
  }

  lemma Fractions(p: real, q: real, r: real)
    requires 0.0 <= p <= q <= r && r > 0.0
    ensures 0.0 <= p / r <= q / r <= 1.0
  {
    assert (p / r) * r == p && (q / r) * r == q;
  }

  /** Every value inside the bounds is drawn inside the plot area, higher values higher up. */
  lemma ToYInsidePlot(v: real, w: real, yMin: real, yMax: real, chartH: real)
    requires yMin < yMax && yMin <= v <= w <= yMax && chartH >= 0.0
    ensures 8.0 <= ToY(w, yMin, yMax, chartH) <= ToY(v, yMin, yMax, chartH) <= 8.0 + chartH
    ensures ToY(yMin, yMin, yMax, chartH) == 8.0 + chartH && ToY(yMax, yMin, yMax, chartH) == 8.0
  {
    var r := yMax - yMin;
    var a, b := (v - yMin) / r, (w - yMin) / r;
    Fractions(v - yMin, w - yMin, r);
    Monotone(0.0, a, chartH);
    Monotone(a, b, chartH);
    Monotone(b, 1.0, chartH);
    DivideBack(1.0, r);
    DivideBack(0.0, r);
  }
}
