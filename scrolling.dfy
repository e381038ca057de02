/** The scrollable content area: mouse-wheel and Linux button scrolling,
    the scrollbar that appears only when the content is taller than the
    canvas, and the chart width that follows the window. */
module Scrolling {
  import opened Wrappers

  function Abs(n: int): nat {
    if n < 0 then -n else n
  }

  /** The wheel delta of one notch. */
  const Notch := 120

  /** Python's `round(delta / 120)`: the nearest whole number of notches,
      halves going to the even neighbour. */
  function RoundNotches(delta: int): int {
    var q, r := delta / Notch, delta % Notch;
    if 2 * r < Notch then q
    else if 2 * r > Notch then q + 1
    else if q % 2 == 0 then q
    else q + 1
  }

  /** The result is a nearest whole number of notches ... */
  lemma RoundNearest(delta: int)
    ensures 2 * Abs(delta - Notch * RoundNotches(delta)) <= Notch
  {
  }

  /** ... the only one, unless the delta is an odd number of half notches ... */
  lemma RoundUnique(delta: int, k: int)
    requires 2 * Abs(delta - Notch * k) < Notch
    ensures RoundNotches(delta) == k
  {
    if delta - Notch * k >= 0 {
      assert delta / Notch == k;
    } else {
      assert delta / Notch == k - 1;
    }
  }

  /** ... and a half goes to the even neighbour. */
  lemma RoundTieEven(delta: int)
    requires 2 * (delta % Notch) == Notch
    ensures RoundNotches(delta) % 2 == 0
    ensures 2 * Abs(delta - Notch * RoundNotches(delta)) == Notch
  {
  }

  /** Rounding commutes with negation, so a wheel turned either way by the
      same amount scrolls the same number of steps. */
  lemma RoundNegate(delta: int)
    ensures RoundNotches(-delta) == -RoundNotches(delta)
  {
    var q, r := delta / Notch, delta % Notch;
    if r == 0 {
      assert (-delta) / Notch == -q && (-delta) % Notch == 0;
    } else {
      assert (-delta) / Notch == -q - 1 && (-delta) % Notch == Notch - r;
    }
  }

  datatype Granularity = Units | Pages

  /** `content_canvas.yview_scroll(steps, granularity)`. */
  datatype Scroll = Scroll(steps: int, unit: Granularity)

  /** `_on_mousewheel(event)` for `event.delta`: `None` when no scroll is
      made. One wheel notch is 120; a movement that rounds to no notch still
      scrolls one unit against its sign; three notches or more scroll by
      pages. */
  function WheelScroll(delta: Option<int>): Option<Scroll> {
    if delta.None? then None
    else
      var d := delta.value;
      var rounded := if d != 0 then -RoundNotches(d) else 0;
      var steps := if rounded != 0 then rounded else if d > 0 then -1 else if d < 0 then 1 else 0;
      if steps == 0 then None
      else Some(Scroll(steps, if Abs(steps) >= 3 then Pages else Units))
  }

  /** Any non-zero delta scrolls, against its sign; a zero or missing one
      does not. */
  lemma WheelDirection(delta: Option<int>)
    ensures WheelScroll(delta).Some? <==> delta.Some? && delta.value != 0
    ensures WheelScroll(delta).Some? ==> (WheelScroll(delta).value.steps < 0 <==> delta.value > 0)
  {
    if delta.Some? && delta.value != 0 {
      var d := delta.value;
      if d > 0 {
        RoundSign(d);
      } else {
        RoundNegate(d);
        RoundSign(-d);
      }
    }
  }

  /** A positive delta never rounds to a negative count. */
  lemma RoundSign(d: int)
    requires d > 0
    ensures RoundNotches(d) >= 0
  {
  }

  /** Whole notches scroll one unit or page per notch. */
  lemma WheelNotches(k: int)
    requires k != 0
    ensures WheelScroll(Some(Notch * k)) == Some(Scroll(-k, if Abs(k) >= 3 then Pages else Units))
  {
    RoundUnique(Notch * k, k);
  }

  /** A movement of at most half a notch scrolls exactly one unit. */
  lemma WheelSmallMovement(d: int)
    requires 0 < Abs(d) <= 60
    ensures WheelScroll(Some(d)) == Some(Scroll(if d > 0 then -1 else 1, Units))
  {
  }

  /** A larger movement scrolls the nearest whole number of notches. */
  lemma WheelNearest(d: int)
    requires Abs(d) > 60
    ensures WheelScroll(Some(d)).Some?
    ensures 2 * Abs(d + Notch * WheelScroll(Some(d)).value.steps) <= Notch
  {
    RoundNearest(d);
  }

  /** Pages are used exactly for deltas beyond two and a half notches: 300
      itself rounds to two. */
  lemma WheelPages(d: int)
    ensures WheelScroll(Some(d)).Some? && WheelScroll(Some(d)).value.unit == Pages <==> Abs(d) > 300
  {
    if d > 300 {
      RoundAtLeastThree(d);
    } else if d < -300 {
      RoundAtLeastThree(-d);
      RoundNegate(-d);
    } else if d >= 0 {
      RoundAtMostTwo(d);
    } else {
      RoundAtMostTwo(-d);
      RoundNegate(-d);
    }
  }

  lemma RoundAtLeastThree(d: int)
    requires d > 300
    ensures RoundNotches(d) >= 3
  {
  }

  lemma RoundAtMostTwo(d: int)
    requires 0 <= d <= 300
    ensures 0 <= RoundNotches(d) <= 2
  {
  }

  /** `_on_mousewheel_linux(event)` for `event.num`: button 4 scrolls one
      unit up, button 5 one unit down, any other button nothing. */
  function LinuxScroll(button: int): (s: Option<Scroll>)
    ensures s.Some? <==> button == 4 || button == 5
    ensures s.Some? ==> s.value.unit == Units && Abs(s.value.steps) == 1 && (s.value.steps < 0 <==> button == 4)
  {
    if button == 4 then Some(Scroll(-1, Units))
    else if button == 5 then Some(Scroll(1, Units))
    else None
  }

  /** A Linux button press scrolls like one wheel notch the same way. */
  lemma LinuxLikeOneNotch()
    ensures LinuxScroll(4) == WheelScroll(Some(120))
    ensures LinuxScroll(5) == WheelScroll(Some(-120))
  {
    WheelNotches(1);
    WheelNotches(-1);
  }

  /** `on_resize`: the hourly chart takes the content width less 24 pixels
      of padding, kept between 260 and 820. */
  function ChartWidth(contentWidth: int): (w: int)
    ensures 260 <= w <= 820
    ensures 284 <= contentWidth <= 844 ==> w == contentWidth - 24
    ensures contentWidth < 284 ==> w == 260
    ensures contentWidth > 844 ==> w == 820
  {
    var inner := if 820 < contentWidth - 24 then 820 else contentWidth - 24;
    if 260 < inner then inner else 260
  }

  /** A wider window never gives a narrower chart. */
  lemma ChartWidthMonotone(a: int, b: int)
    requires a <= b
    ensures ChartWidth(a) <= ChartWidth(b)
  {
  }

  /** `content_canvas.bbox('all')`: the corners of everything on the canvas. */
  datatype BBox = BBox(x1: int, y1: int, x2: int, y2: int)

  /** The scrollbar is needed when the content is more than one pixel taller
      than the canvas; an empty canvas (no bounding box) needs none. */
  predicate NeedScroll(bbox: Option<BBox>, visibleHeight: int) {
    bbox.Some? && bbox.value.y2 - bbox.value.y1 > visibleHeight + 1
  }

  /** The scrollbar's geometry call, if any. */
  datatype Toggle = Show | Hide | Keep

  /** The flag after an update and the call made, given the flag before. */
  function Transition(visible: bool, need: bool): (r: (bool, Toggle))
    ensures r.0 == need
    ensures r.1 == Show <==> need && !visible
    ensures r.1 == Hide <==> !need && visible
    ensures r.1 == Keep <==> need == visible
  {
    if need then (true, if !visible then Show else Keep)
    else (false, if visible then Hide else Keep)
  }

  /** Updating twice with the same geometry makes no call the second time. */
  lemma TransitionIdempotent(visible: bool, need: bool)
    ensures Transition(Transition(visible, need).0, need).1 == Keep
  {
  }

  /** The geometry calls made by a series of updates, `Keep`s left out. */
  function GridCalls(visible: bool, needs: seq<bool>): (calls: seq<Toggle>)
    decreases needs
    ensures forall k | 0 <= k < |calls| :: calls[k] != Keep
  {
    if needs == [] then []
    else
      var t := Transition(visible, needs[0]);
      (if t.1 == Keep then [] else [t.1]) + GridCalls(t.0, needs[1..])
  }

  /** The scrollbar is never shown twice or hidden twice in a row, and the
      first call undoes the starting state. */
  lemma {:induction false} GridCallsAlternate(visible: bool, needs: seq<bool>)
    decreases needs
    ensures var calls := GridCalls(visible, needs);
      && (calls != [] ==> calls[0] == if visible then Hide else Show)
      && forall k | 0 <= k < |calls| - 1 :: calls[k] != calls[k + 1]
  {
    if needs != [] {
      var t := Transition(visible, needs[0]);
      GridCallsAlternate(t.0, needs[1..]);
      var rest := GridCalls(t.0, needs[1..]);
      if t.1 != Keep {
        var calls := [t.1] + rest;
        assert GridCalls(visible, needs) == calls;
        forall k | 0 <= k < |calls| - 1
          ensures calls[k] != calls[k + 1]
        {
          if k > 0 {
            assert calls[k] == rest[k - 1] && calls[k + 1] == rest[k];
          }
        }
      }
    }
  }

  /** The content canvas and its scrollbar: the scroll region and the
      `_visible` flag. */
  class ScrollArea {
    var scrollRegion: Option<BBox>
    var barVisible: bool

    /** The scrollbar starts hidden. */
    constructor ()
      ensures scrollRegion.None? && !barVisible
    {
      scrollRegion := None;
      barVisible := false;
    }

    /** `_update_scroll_metrics()` with the canvas's bounding box and its
        height: the scroll region follows the content (an empty canvas,
        whose box is `None`, leaves the region as it was, since Tk ignores an
        option given as `None`), and the scrollbar is
        shown or hidden, and its flag set, only when that changes. */
    method UpdateScrollMetrics(bbox: Option<BBox>, visibleHeight: int) returns (call: Toggle)
      modifies this
      ensures bbox.Some? ==> scrollRegion == bbox
      ensures bbox.None? ==> scrollRegion == old(scrollRegion)
      ensures barVisible == NeedScroll(bbox, visibleHeight)
      ensures call == Transition(old(barVisible), NeedScroll(bbox, visibleHeight)).1
    {
      if bbox.Some? {
        scrollRegion := bbox;
      }
      var needScroll := false;
      if bbox.Some? {
        var totalHeight := bbox.value.y2 - bbox.value.y1;
        needScroll := totalHeight > visibleHeight + 1;
      }
      call := Keep;
      if needScroll {
        if !barVisible {
          call := Show;
          barVisible := true;
        }
      } else {
        if barVisible {
          call := Hide;
          barVisible := false;
        }
      }
    }
  }
}
