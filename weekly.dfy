/** `render_daily`: the weekly card. A header with the week's range and a
    trend word, and six rows, each with a day name, a min/max bar scaled to
    the week's range, the day's high and low and a small icon. */
module Weekly {
  import opened Wrappers
  import Stats

  datatype Trend = Warming | Cooling | Stable

  /** The day compared with the first one: `min(5, len(tmax) - 1)`. */
  function TrendDay(n: nat): nat
    requires n > 0
  {
    if 5 < n - 1 then 5 else n - 1
  }

  /** The trend word: with at least two daily maxima, the change from the
      first day to day `min(5, n-1)` decides, with a dead band of 2 degrees. */
  function TrendOf(tmax: seq<real>): Trend {
    if |tmax| < 2 then Stable
    else
      var delta := tmax[TrendDay(|tmax|)] - tmax[0];
      if delta > 2.0 then Warming
      else if delta < -2.0 then Cooling
      else Stable
  }

  /** Each word in both directions. */
  lemma TrendWords(tmax: seq<real>)
    ensures TrendOf(tmax) == Warming <==> |tmax| >= 2 && tmax[TrendDay(|tmax|)] - tmax[0] > 2.0
    ensures TrendOf(tmax) == Cooling <==> |tmax| >= 2 && tmax[TrendDay(|tmax|)] - tmax[0] < -2.0
    ensures TrendOf(tmax) == Stable <==>
      |tmax| < 2 || -2.0 <= tmax[TrendDay(|tmax|)] - tmax[0] <= 2.0
  {
  }

  function Opposite(t: Trend): Trend {
    match t
    case Warming => Cooling
    case Cooling => Warming
    case Stable => Stable
  }

  function Negated(s: seq<real>): (r: seq<real>)
    ensures |r| == |s| && forall k | 0 <= k < |s| :: r[k] == -s[k]
  {
    seq(|s|, k requires 0 <= k < |s| => -s[k])
  }

  function Shifted(s: seq<real>, c: real): (r: seq<real>)
    ensures |r| == |s| && forall k | 0 <= k < |s| :: r[k] == s[k] + c
  {
    seq(|s|, k requires 0 <= k < |s| => s[k] + c)
  }

  /** The dead band is symmetric: mirroring every maximum swaps warming and
      cooling. */
  lemma TrendMirror(tmax: seq<real>)
    ensures TrendOf(Negated(tmax)) == Opposite(TrendOf(tmax))
  {
  }

  /** Only a difference matters: shifting every maximum by the same amount
      keeps the trend. */
  lemma TrendShift(tmax: seq<real>, c: real)
    ensures TrendOf(Shifted(tmax, c)) == TrendOf(tmax)
  {
  }

  /** Changing any day but the two compared keeps the trend. */
  lemma TrendComparesTwoDays(a: seq<real>, b: seq<real>)
    requires |a| == |b| >= 2
    requires a[0] == b[0] && a[TrendDay(|a|)] == b[TrendDay(|b|)]
    ensures TrendOf(a) == TrendOf(b)
  {
  }

  /** `scale(v)`: the position of `v` within [lo, hi] as a fraction; 0 when
      the week has no spread. */
  function Scale(v: real, lo: real, hi: real): real {
    if hi == lo then 0.0 else (v - lo) / (hi - lo)
  }

  lemma ScaleFlat(v: real, lo: real)
    ensures Scale(v, lo, lo) == 0.0
  {
  }

  /** On a week with spread, `scale` maps lo to 0 and hi to 1 ... */
  lemma ScaleEnds(lo: real, hi: real)
    requires lo < hi
    ensures Scale(lo, lo, hi) == 0.0 && Scale(hi, lo, hi) == 1.0
  {
    assert (hi - lo) / (hi - lo) == 1.0;
  }

  /** ... keeps order ... */
  lemma ScaleMonotone(a: real, b: real, lo: real, hi: real)
    requires lo < hi && a <= b
    ensures Scale(a, lo, hi) <= Scale(b, lo, hi)
  {
    var d := hi - lo;
    assert Scale(b, lo, hi) - Scale(a, lo, hi) == (b - a) / d;
  }

  /** ... and so sends [lo, hi] into [0, 1]. */
  lemma ScaleUnit(v: real, lo: real, hi: real)
    requires lo <= v <= hi
    ensures 0.0 <= Scale(v, lo, hi) <= 1.0
  {
    if lo < hi {
      ScaleEnds(lo, hi);
      ScaleMonotone(lo, v, lo, hi);
      ScaleMonotone(v, hi, lo, hi);
    }
  }

  /** The small per-day icon: fire at 30 or above, snowflake at 0 or below,
      sun-and-cloud between; a dash before the first render. */
  datatype RowIcon = Dash | Hot | Freezing | Mild

  function DayIcon(high: real): RowIcon {
    if high >= 30.0 then Hot else if high <= 0.0 then Freezing else Mild
  }

  /** The three bands cover every high once; 30 itself is hot, 0 itself
      freezing. */
  lemma DayIconBands(high: real)
    ensures DayIcon(high) == Hot <==> high >= 30.0
    ensures DayIcon(high) == Freezing <==> high <= 0.0
    ensures DayIcon(high) == Mild <==> 0.0 < high < 30.0
  {
  }

  /** The day label: the weekday abbreviation of `iso`, or "D<position>" when
      `iso` is not an ISO date (date formatting is not modelled). */
  datatype DayText = Blank | DayName(iso: string, position: nat)

  /** A bar from `start` to `end`, as fractions of the bar's width. */
  datatype Bar = Bar(start: real, end: real)

  /** What one row shows; `None` is an empty label or an empty bar. Numbers
      are shown rounded, which is not modelled. */
  datatype Row = Row(icon: RowIcon, day: DayText, bar: Option<Bar>, high: Option<real>, low: Option<real>)

  const InitialRow := Row(Dash, Blank, None, None, None)

  /** The card's title. */
  datatype Header =
    | Intro                          // "This Week — Min/Max and Trend"
    | NoData                         // "This Week — No data"
    | Summary(low: real, high: real, trend: Trend)

  /** The branch for a week without maxima or minima blanks the texts and
      the bar of a row but leaves its icon. */
  function Cleared(r: Row): Row {
    r.(day := Blank, bar := None, high := None, low := None)
  }

  /** The row at which the loop raises: its day label is already written
      and its bar deleted when `tmin[idx]` or `tmax[idx]` is read. */
  function Interrupted(r: Row, time: seq<string>, idx: nat): Row
    requires idx < |time|
  {
    r.(day := DayName(time[idx], idx + 1), bar := None)
  }

  /** Row `idx` of a rendered week. */
  function RowFor(time: seq<string>, tmax: seq<real>, tmin: seq<real>, idx: nat): Row
    requires idx < |time| && idx < |tmax| && idx < |tmin|
  {
    var lo := Stats.Min(tmin);
    var hi := Stats.Max(tmax);
    Row(DayIcon(tmax[idx]), DayName(time[idx], idx + 1),
        Some(Bar(Scale(tmin[idx], lo, hi), Scale(tmax[idx], lo, hi))),
        Some(tmax[idx]), Some(tmin[idx]))
  }

  function MinNat(a: nat, b: nat): nat {
    if a <= b then a else b
  }

  /** `min(6, len(time))`: the rows the loop visits. */
  function RowCount(time: seq<string>): nat {
    MinNat(6, |time|)
  }

  /** The rows actually written: the loop stops with an `IndexError` at the
      first row past the end of the maxima or the minima. */
  function Filled(time: seq<string>, tmax: seq<real>, tmin: seq<real>): nat {
    MinNat(RowCount(time), MinNat(|tmax|, |tmin|))
  }

  /** Whether `render_daily` raises `IndexError` (it is not caught there). */
  predicate RenderRaises(time: seq<string>, tmax: seq<real>, tmin: seq<real>) {
    tmax != [] && tmin != [] && RowCount(time) > MinNat(|tmax|, |tmin|)
  }

  /** With aligned series the six-row cap is the only limit. */
  lemma RowsFilledWhenAligned(time: seq<string>, tmax: seq<real>, tmin: seq<real>)
    requires !RenderRaises(time, tmax, tmin) && tmax != [] && tmin != []
    ensures Filled(time, tmax, tmin) == RowCount(time)
    ensures RowCount(time) <= 6 && (|time| <= 6 ==> RowCount(time) == |time|)
  {
  }

  /** The header's range covers every day's high and low. */
  lemma SummaryCoversWeek(tmax: seq<real>, tmin: seq<real>, idx: nat)
    requires idx < |tmax| && idx < |tmin|
    ensures Stats.Min(tmin) <= tmin[idx] && tmax[idx] <= Stats.Max(tmax)
  {
  }

  /** The bar of a day whose low is not above its high starts and ends inside
      the track, in order. */
  lemma BarWithinTrack(time: seq<string>, tmax: seq<real>, tmin: seq<real>, idx: nat)
    requires idx < |time| && idx < |tmax| && idx < |tmin|
    requires tmin[idx] <= tmax[idx]
    ensures var bar := RowFor(time, tmax, tmin, idx).bar.value;
      0.0 <= bar.start <= bar.end <= 1.0
  {
    var lo, hi := Stats.Min(tmin), Stats.Max(tmax);
    assert lo <= tmin[idx] && tmax[idx] <= hi;
    ScaleUnit(tmin[idx], lo, hi);
    ScaleUnit(tmax[idx], lo, hi);
    if lo < hi {
      ScaleMonotone(tmin[idx], tmax[idx], lo, hi);
    }
  }

  /** The weekly card: `daily_label` and the six entries of `daily_rows`. */
  class WeekPanel {
    const rows: array<Row>
    var header: Header

    ghost predicate Valid()
      reads this
    {
      rows.Length == 6
    }

    constructor ()
      ensures Valid() && fresh(rows) && header == Intro
      ensures forall i | 0 <= i < rows.Length :: rows[i] == InitialRow
    {
      rows := new Row[6](_ => InitialRow);
      header := Intro;
    }

    /** `render_daily(bundle)` on the bundle's daily maxima, minima and dates
        (each `[]` when missing). `raised` says whether it stopped with an
        `IndexError`; the rows before that point are already written. */
    method Render(time: seq<string>, tmax: seq<real>, tmin: seq<real>) returns (raised: bool)
      requires Valid()
      modifies this, rows
      ensures Valid()
      ensures tmax == [] || tmin == [] ==>
        && header == NoData && !raised
        && forall i | 0 <= i < rows.Length :: rows[i] == Cleared(old(rows[i]))
      ensures tmax != [] && tmin != [] ==>
        && header == Summary(Stats.Min(tmin), Stats.Max(tmax), TrendOf(tmax))
        && raised == RenderRaises(time, tmax, tmin)
        && forall i | 0 <= i < rows.Length ::
             rows[i] == if i < Filled(time, tmax, tmin) then RowFor(time, tmax, tmin, i)
                        else if raised && i == Filled(time, tmax, tmin) then Interrupted(old(rows[i]), time, i)
                        else old(rows[i])
    {
      raised := false;
      if tmax == [] || tmin == [] {
        Clear();
        header := NoData;
        return;
      }
      header := Summary(Stats.Min(tmin), Stats.Max(tmax), TrendOf(tmax));
      raised := Fill(time, tmax, tmin);
    }

    /** The loop of the no-data branch. */
    method Clear()
      requires Valid()
      modifies rows
      ensures forall i | 0 <= i < rows.Length :: rows[i] == Cleared(old(rows[i]))
    {
      for i := 0 to rows.Length
        invariant forall k | 0 <= k < i :: rows[k] == Cleared(old(rows[k]))
        invariant forall k | i <= k < rows.Length :: rows[k] == old(rows[k])
      {
        rows[i] := Cleared(rows[i]);
      }
    }

    /** The loop over `range(min(6, len(time)))`, stopped by the first
        `IndexError`; the row being written when it raises keeps only its
        new day label and loses its bar. */
    method Fill(time: seq<string>, tmax: seq<real>, tmin: seq<real>) returns (raised: bool)
      requires Valid() && tmax != [] && tmin != []
      modifies rows
      ensures raised == RenderRaises(time, tmax, tmin)
      ensures forall i | 0 <= i < rows.Length ::
        rows[i] == if i < Filled(time, tmax, tmin) then RowFor(time, tmax, tmin, i)
                   else if raised && i == Filled(time, tmax, tmin) then Interrupted(old(rows[i]), time, i)
                   else old(rows[i])
    {
      raised := false;
      var count := RowCount(time);
      var idx := 0;
      while idx < count
        invariant 0 <= idx <= count <= 6
        invariant idx <= |tmax| && idx <= |tmin|
        invariant forall k | 0 <= k < idx :: rows[k] == RowFor(time, tmax, tmin, k)
        invariant forall k | idx <= k < rows.Length :: rows[k] == old(rows[k])
      {
        if idx >= |tmax| || idx >= |tmin| {
          rows[idx] := Interrupted(rows[idx], time, idx);
          raised := true;
          break;
        }
        rows[idx] := RowFor(time, tmax, tmin, idx);
        idx := idx + 1;
      }
      assert idx == Filled(time, tmax, tmin);
    }
  }
}
