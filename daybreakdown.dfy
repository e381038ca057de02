/** The click handler of a weekly row: a popup with the day's high and low
    and, from the hourly series, the day's hourly minimum, maximum and
    average and the average of the morning (06-12), afternoon (12-18) and
    evening (18-24). */
module DayBreakdown {
  import opened Wrappers
  import opened Json
  import PyText
  import Stats

  /** `isinstance(t, str) and t.startswith(iso)`. */
  predicate OnDay(t: Value, iso: string) {
    t.Str? && PyText.StartsWith(t.s, iso)
  }

  /** The indices below `n` of the timestamps on the day, in order. */
  function DayIndices(times: seq<Value>, iso: string, n: nat): (idx: seq<nat>)
    requires n <= |times|
    ensures forall k | 0 <= k < |idx| :: idx[k] < n && OnDay(times[idx[k]], iso)
    ensures forall i | 0 <= i < n && OnDay(times[i], iso) :: i in idx
    ensures forall a, b | 0 <= a < b < |idx| :: idx[a] < idx[b]
  {
    if n == 0 then []
    else DayIndices(times, iso, n - 1) + (if OnDay(times[n - 1], iso) then [n - 1] else [])
  }

  /** `day_idx`: every index whose timestamp is a string starting with the
      day's ISO date, and no other, in increasing order. */
  function DaySelection(times: seq<Value>, iso: string): seq<nat> {
    DayIndices(times, iso, |times|)
  }

  lemma DaySelectionExact(times: seq<Value>, iso: string, i: nat)
    ensures i in DaySelection(times, iso) <==> i < |times| && OnDay(times[i], iso)
  {
  }

  /** `int(t[11:13])` for a string timestamp; `None` when `int` raises. */
  function Hour(t: Value): Option<int> {
    if t.Str? then PyText.PyInt(PyText.Slice(t.s, 11, 13)) else None
  }

  /** A timestamp of the form `YYYY-MM-DDTHH:MM` has the hour `HH`. */
  lemma HourOfIsoTimestamp(s: string)
    requires |s| >= 13 && PyText.IsDigit(s[11]) && PyText.IsDigit(s[12])
    ensures Hour(Str(s)) == Some(10 * ((s[11] as int) - 48) + ((s[12] as int) - 48))
  {
    assert Hour(Str(s)) == PyText.PyInt(PyText.Slice(s, 11, 13));
    PyText.PyIntDigitField(s, 11);
  }

  /** The hour of every hourly timestamp, computed once. */
  function HourList(times: seq<Value>): (hours: seq<Option<int>>)
    ensures |hours| == |times| && forall i | 0 <= i < |times| :: hours[i] == Hour(times[i])
  {
    seq(|times|, i requires 0 <= i < |times| => Hour(times[i]))
  }

  predicate InPeriod(h: Option<int>, start: int, end: int) {
    h.Some? && start <= h.value < end
  }

  /** Whether `int()` accepts the hour of every timestamp of `idx`. */
  predicate HoursKnown(hours: seq<Option<int>>, idx: seq<nat>)
    requires forall k | 0 <= k < |idx| :: idx[k] < |hours|
  {
    idx == [] || (hours[idx[0]].Some? && HoursKnown(hours, idx[1..]))
  }

  lemma {:induction false} HoursKnownEverywhere(hours: seq<Option<int>>, idx: seq<nat>)
    requires forall k | 0 <= k < |idx| :: idx[k] < |hours|
    ensures HoursKnown(hours, idx) <==> forall k | 0 <= k < |idx| :: hours[idx[k]].Some?
  {
    if idx != [] {
      HoursKnownEverywhere(hours, idx[1..]);
      assert forall k | 0 <= k < |idx| - 1 :: idx[1..][k] == idx[k + 1];
    }
  }

  /** The indices of `bucket_range(start, end)`: those of `idx` whose hour
      lies in [start, end), in order. `None` when the hour of some index of
      `idx` does not parse: `int()` raises before the bucket is complete. */
  function PeriodIndices(hours: seq<Option<int>>, idx: seq<nat>, start: int, end: int): (r: Option<seq<nat>>)
    requires forall k | 0 <= k < |idx| :: idx[k] < |hours|
    ensures r.Some? <==> HoursKnown(hours, idx)
    ensures r.Some? ==> |r.value| <= |idx| && forall k | 0 <= k < |r.value| :: r.value[k] < |hours|
    ensures r.Some? ==> forall k | 0 <= k < |r.value| :: r.value[k] in idx
  {
    if idx == [] then Some([])
    else
      match hours[idx[0]]
      case None => None
      case Some(h) =>
        match PeriodIndices(hours, idx[1..], start, end)
        case None => None
        case Some(rest) => Some(if start <= h < end then [idx[0]] + rest else rest)
  }

  /** The bucket holds exactly the day's indices whose hour lies in
      [start, end). */
  lemma {:induction false} PeriodMembers(hours: seq<Option<int>>, idx: seq<nat>, start: int, end: int, i: nat)
    requires forall k | 0 <= k < |idx| :: idx[k] < |hours|
    requires PeriodIndices(hours, idx, start, end).Some?
    ensures i in PeriodIndices(hours, idx, start, end).value <==>
      i in idx && i < |hours| && InPeriod(hours[i], start, end)
  {
    if idx != [] {
      PeriodMembers(hours, idx[1..], start, end, i);
      assert i in idx <==> i == idx[0] || i in idx[1..];
    }
  }

  /** Adjacent periods add up: a sample lies in [start, end) exactly when it
      lies in [start, mid) or in [mid, end). */
  lemma {:induction false} PeriodSplit(hours: seq<Option<int>>, idx: seq<nat>, start: int, mid: int, end: int)
    requires forall k | 0 <= k < |idx| :: idx[k] < |hours|
    requires start <= mid <= end
    requires PeriodIndices(hours, idx, start, end).Some?
    ensures PeriodIndices(hours, idx, start, mid).Some? && PeriodIndices(hours, idx, mid, end).Some?
    ensures |PeriodIndices(hours, idx, start, mid).value| + |PeriodIndices(hours, idx, mid, end).value|
         == |PeriodIndices(hours, idx, start, end).value|
  {
    if idx != [] {
      PeriodSplit(hours, idx[1..], start, mid, end);
    }
  }

  /** `[h_t[i] for i in idx]`. */
  function Values(temps: seq<real>, idx: seq<nat>): (vals: seq<real>)
    requires forall k | 0 <= k < |idx| :: idx[k] < |temps|
    ensures |vals| == |idx| && forall k | 0 <= k < |idx| :: vals[k] == temps[idx[k]]
  {
    seq(|idx|, k requires 0 <= k < |idx| => temps[idx[k]])
  }

  /** The shown average of a period, or `None` for the placeholder dash. */
  function PeriodAverage(temps: seq<real>, bucket: seq<nat>): (avg: Option<real>)
    requires forall k | 0 <= k < |bucket| :: bucket[k] < |temps|
    ensures avg.None? <==> bucket == []
  {
    if bucket == [] then None else Some(Stats.Mean(Values(temps, bucket)))
  }

  /** The lines of `details_lines`. Numbers are shown rounded, which is not
      modelled. */
  datatype Line =
    | HourlyMinMax(low: real, high: real)
    | HourlyAverage(avg: real)
    | PeriodAverages(morning: Option<real>, afternoon: Option<real>, evening: Option<real>)
    | NoBreakdown            // "No hourly breakdown available for this day."

  /** The guard `iso and h_times and h_t and len(h_times) == len(h_t)`. */
  predicate HasHourly(iso: Option<string>, times: seq<Value>, temps: seq<real>) {
    iso.Some? && iso.value != "" && times != [] && temps != [] && |times| == |temps|
  }

  /** The three period averages of the day, for when all hours parse. */
  function Periods(hours: seq<Option<int>>, temps: seq<real>, idx: seq<nat>): Line
    requires |hours| == |temps|
    requires forall k | 0 <= k < |idx| :: idx[k] < |hours|
    requires HoursKnown(hours, idx)
  {
    var m := PeriodIndices(hours, idx, 6, 12).value;
    var a := PeriodIndices(hours, idx, 12, 18).value;
    var e := PeriodIndices(hours, idx, 18, 24).value;
    PeriodAverages(PeriodAverage(temps, m), PeriodAverage(temps, a), PeriodAverage(temps, e))
  }

  /** The lines for a day with samples: min/max, average, then the period
      line, or, when an hour field does not parse, the "no breakdown" line
      after the two already added. */
  function DayLinesOf(hours: seq<Option<int>>, temps: seq<real>, idx: seq<nat>): seq<Line>
    requires |hours| == |temps| && idx != []
    requires forall k | 0 <= k < |idx| :: idx[k] < |hours|
  {
    var vals := Values(temps, idx);
    [HourlyMinMax(Stats.Min(vals), Stats.Max(vals)),
     HourlyAverage(Stats.Mean(vals)),
     if HoursKnown(hours, idx) then Periods(hours, temps, idx) else NoBreakdown]
  }

  /** `details_lines` once the `try` block is done: without hourly data for
      the day it says so; with data but no sample on the day it is empty. */
  function DetailLines(iso: Option<string>, times: seq<Value>, temps: seq<real>): seq<Line> {
    if !HasHourly(iso, times, temps) then [NoBreakdown]
    else
      var idx := DaySelection(times, iso.value);
      if idx == [] then [] else DayLinesOf(HourList(times), temps, idx)
  }

  /** The shapes `details_lines` can take. With samples there are always
      three lines, the average lies between the minimum and the maximum, and
      the period line gives way to "no breakdown" exactly when some hour of
      the day does not parse. */
  lemma DetailLinesShape(iso: Option<string>, times: seq<Value>, temps: seq<real>)
    ensures var lines := DetailLines(iso, times, temps);
      && (!HasHourly(iso, times, temps) ==> lines == [NoBreakdown])
      && (HasHourly(iso, times, temps) && DaySelection(times, iso.value) == [] ==> lines == [])
      && (HasHourly(iso, times, temps) && DaySelection(times, iso.value) != [] ==>
            && |lines| == 3 && lines[0].HourlyMinMax? && lines[1].HourlyAverage?
            && lines[0].low <= lines[1].avg <= lines[0].high
            && (lines[2] == NoBreakdown <==> !HoursKnown(HourList(times), DaySelection(times, iso.value))))
  {
    if HasHourly(iso, times, temps) && DaySelection(times, iso.value) != [] {
      var idx := DaySelection(times, iso.value);
      Stats.MeanBetween(Values(temps, idx));
    }
  }

  /** A period shows the dash exactly when none of the day's samples has its
      hour in that period. */
  lemma PeriodDash(hours: seq<Option<int>>, temps: seq<real>, idx: seq<nat>, start: int, end: int)
    requires |hours| == |temps|
    requires forall k | 0 <= k < |idx| :: idx[k] < |hours|
    requires HoursKnown(hours, idx)
    ensures PeriodAverage(temps, PeriodIndices(hours, idx, start, end).value).None? <==>
      forall i | i in idx :: !InPeriod(hours[i], start, end)
  {
    var bucket := PeriodIndices(hours, idx, start, end).value;
    if bucket == [] {
      forall i | i in idx
        ensures !InPeriod(hours[i], start, end)
      {
        PeriodMembers(hours, idx, start, end, i);
      }
    } else {
      PeriodMembers(hours, idx, start, end, bucket[0]);
    }
  }

  /** `DayLinesOf`, written by appending to `details_lines`. */
  method DayLines(hours: seq<Option<int>>, temps: seq<real>, idx: seq<nat>) returns (lines: seq<Line>)
    requires |hours| == |temps| && idx != []
    requires forall k | 0 <= k < |idx| :: idx[k] < |hours|
    ensures lines == DayLinesOf(hours, temps, idx)
  {
    var vals := Values(temps, idx);
    lines := [HourlyMinMax(Stats.Min(vals), Stats.Max(vals))];
    lines := lines + [HourlyAverage(Stats.Mean(vals))];
    var morning := PeriodIndices(hours, idx, 6, 12);
    if morning.None? {
      lines := lines + [NoBreakdown];
      return;
    }
    PeriodSplit(hours, idx, 6, 12, 24);
    PeriodSplit(hours, idx, 12, 18, 24);
    var afternoon := PeriodIndices(hours, idx, 12, 18).value;
    var evening := PeriodIndices(hours, idx, 18, 24).value;
    lines := lines + [PeriodAverages(PeriodAverage(temps, morning.value),
                                     PeriodAverage(temps, afternoon),
                                     PeriodAverage(temps, evening))];
  }

  /** The `try` block that fills `details_lines`. */
  method Details(iso: Option<string>, times: seq<Value>, temps: seq<real>) returns (lines: seq<Line>)
    ensures lines == DetailLines(iso, times, temps)
  {
    if !HasHourly(iso, times, temps) {
      lines := [NoBreakdown];
      return;
    }
    var dayIdx := DaySelection(times, iso.value);
    if dayIdx == [] {
      lines := [];
      return;
    }
    lines := DayLines(HourList(times), temps, dayIdx);
  }

  /** What the popup shows: the day's date (formatted as a title, which is
      not modelled), its high and low (`None` for the dash), the detail
      lines with the grid row of each, and the row of the Close button. */
  datatype Popup = Popup(
    iso: Option<string>, high: Option<real>, low: Option<real>,
    lines: seq<Line>, lineRows: seq<int>, closeRow: int)

  function At<T>(s: seq<T>, index: int): Option<T> {
    if 0 <= index < |s| then Some(s[index]) else None
  }

  /** `handler()` for row `index`, given the last bundle's daily dates,
      maxima and minima and hourly timestamps and temperatures (each `[]`
      when missing). The header takes grid rows 0 to 2; each detail line
      gets the next row, and the Close button the row after the last. */
  method ShowDay(index: int, dates: seq<string>, tmax: seq<real>, tmin: seq<real>,
                 times: seq<Value>, temps: seq<real>) returns (p: Popup)
    ensures p.iso == At(dates, index) && p.high == At(tmax, index) && p.low == At(tmin, index)
    ensures p.lines == DetailLines(p.iso, times, temps)
    ensures |p.lineRows| == |p.lines| && forall k | 0 <= k < |p.lines| :: p.lineRows[k] == 3 + k
    ensures p.closeRow == 3 + |p.lines|
  {
    var iso := At(dates, index);
    var lines := Details(iso, times, temps);
    var rowI := 3;
    var lineRows: seq<int> := [];
    for k := 0 to |lines|
      invariant rowI == 3 + k
      invariant |lineRows| == k && forall j | 0 <= j < k :: lineRows[j] == 3 + j
    {
      lineRows := lineRows + [rowI];
      rowI := rowI + 1;
    }
    p := Popup(iso, At(tmax, index), At(tmin, index), lines, lineRows, rowI);
  }
}
