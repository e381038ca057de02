# JWeather decision rules in Dafny

JWeather is a Tk desktop window that looks up the weather for a pair of
coordinates, shows the current conditions, an hourly chart and a weekly
card, and on start-up guesses the user's location from several
IP-geolocation providers. This project models the decision rules in
`main.py` and proves what they promise. Widgets, HTTP calls and threads are
not modelled: what they deliver becomes a parameter.

The rules modelled here:

- **Coordinate validation and the forecast bundle** (`Forecast`).
  `fetch_weather` checks the latitude and then the longitude. A request goes
  out only for a valid pair, and missing response sections become `{}`.
  `perform_fetch` replaces the last bundle only after a fully rendered
  fetch.
- **The current-conditions glyph** (`Conditions`). `icon_for` picks snow
  before rain before cloud cover; a cover below 20 shows sun or moon. Its
  `TypeError` on a non-numeric snowfall or rain is modelled as `None`.
- **The weekly card** (`Weekly`). `render_daily` covers the trend word with
  its 2-degree dead band, the `scale` of each min/max bar and the number of
  rows written. It also covers the `IndexError` raised when the loop over
  the first min(6, len(time)) rows runs past the shorter of the maximum and
  minimum lists. `WeekPanel` is the six rows and the
  header, updated in place.
- **The day popup** (`DayBreakdown`). The click handler selects the hourly
  samples of the day and computes their minimum, maximum and average, then
  the averages over 06-12, 12-18 and 18-24. It numbers the grid rows of the
  popup.
- **Auto-locate** (`AutoLocate`).
  - `normalize_ip_info`: the field fall-backs, stripping, and both
    coordinates dropped when one conversion fails.
  - `call`: the `loc` rewrite, the `success` rejection and the shared
    first-claim slot. The slot is the `Race` class; `RunRace` folds
    completions in the order they finish.
- **Scrolling and layout** (`Scrolling`).
  - `_on_mousewheel`: Python's round-half-even of `delta / 120`, the
    one-step fallback and pages from three notches.
  - The Linux buttons 4 and 5; the `on_resize` clamp of the chart width.
  - `_update_scroll_metrics`: the scrollbar is shown exactly while the
    content is more than one pixel taller than the canvas.

Support modules: `Json` holds decoded JSON values and Python truthiness, `or`,
`dict.get`, `in` and `float()` on them. `PyText` holds `str.strip`,
`startswith`, slicing, `split(',')` and `int()` on the hour field. `Stats`
holds `min`, `max`, `sum` and the average. `Wrappers` holds `Option` and
`Result`.

Two behaviours of the code are worth stating outright:

- In `call`, a `loc` whose first part converts but whose second does not
  still writes `latitude`. The assignment runs before the second `float()`
  raises (`main.py:720-722`), so `info` is left partly rewritten.
- The test of `done_flag` and the append that follows it are not atomic.
  The model takes completions one at a time; see "Left out".

## Model

| member | source | states |
|---|---|---|
| Forecast.ValidateAccepts | main.py:8-19 | validation succeeds exactly for numeric latitude in [-90, 90] and numeric longitude in [-180, 180], and an accepted pair is returned unchanged |
| Forecast.ValidateLatitudeFirst | main.py:8-13 | a bad latitude is reported (as not-a-number or out-of-range) whatever the longitude is |
| Forecast.ValidateLongitudeError | main.py:14-19 | a longitude error is reported exactly when the latitude is valid and the longitude is missing or out of range |
| Forecast.FetchSendsOnlyValidated | main.py:6-53 | no request is made for rejected input and the validation error is returned; otherwise the request carries exactly the validated pair |
| Forecast.FetchBundleCarriesRequest | main.py:47-64 | a successful fetch returns the requested coordinates and the six sections of the response (data and units) as received, each `{}` when absent |
| Forecast.AppState.constructor | main.py:617-619 | nothing has been fetched at first, and the status line shows the prompt it is created with at main.py:281 |
| Forecast.AppState.PerformFetch | main.py:621-633 | an error is shown and keeps the last bundle; a render that raises leaves "Fetching" and the last bundle; otherwise the new bundle replaces the last one wholesale |
| Conditions.SnowfallFirst | main.py:467-474 | positive snowfall shows snow whatever else is reported |
| Conditions.RainSecond | main.py:467-476 | without positive snowfall, positive rain shows rain |
| Conditions.CloudCoverBands | main.py:468-486 | without precipitation: absent or under-20 cover shows sun by day and moon by night (missing flag = day), 20 to 60 partly cloudy, 60 and above cloudy |
| Conditions.IconForRaises | main.py:469-476 | `icon_for` fails exactly when the snowfall is a non-empty string, list or dict, or when the snowfall is neither that nor positive and the rain is a non-empty string, list or dict |
| Conditions.IconForReading | main.py:467-486 | on numeric readings `icon_for` never fails and agrees with the snow-rain-cloud rule stated over numbers |
| Weekly.TrendWords | main.py:575-584 | "warming" exactly when day min(5, n-1) is more than 2 degrees above day 0, "cooling" when more than 2 below, "stable" otherwise or with fewer than two days |
| Weekly.TrendMirror | main.py:578-582 | mirroring all maxima swaps warming and cooling |
| Weekly.TrendShift | main.py:578-582 | shifting all maxima by one amount keeps the trend |
| Weekly.TrendComparesTwoDays | main.py:578 | only day 0 and day min(5, n-1) decide the trend |
| Weekly.ScaleFlat | main.py:588-590 | a week without spread places every value at 0 |
| Weekly.ScaleEnds | main.py:588-591 | the week's minimum maps to 0 and its maximum to 1 |
| Weekly.ScaleMonotone | main.py:588-591 | `scale` keeps order |
| Weekly.ScaleUnit | main.py:588-591 | values within the week's range map into [0, 1] |
| Weekly.DayIconBands | main.py:612 | fire from 30 up, snowflake from 0 down, sun-and-cloud strictly between |
| Weekly.RowsFilledWhenAligned | main.py:592 | when the loop does not raise, min(6, len(time)) rows are written |
| Weekly.SummaryCoversWeek | main.py:572-573 | the header's range contains every day's high and low |
| Weekly.BarWithinTrack | main.py:588-605 | a day whose low is not above its high gets a bar that starts and ends inside the track, in order |
| Weekly.WeekPanel.constructor | main.py:356-369 | six rows showing a dash and empty texts, and the intro header |
| Weekly.WeekPanel.Render | main.py:559-612 | with no maxima or no minima: "No data", texts and bars cleared, icons kept; otherwise: the summary header, the first rows written, and the row at which an `IndexError` stops the loop with only its label updated and its bar deleted |
| Weekly.WeekPanel.Clear | main.py:564-569 | every row loses its texts and bar and keeps its icon |
| Weekly.WeekPanel.Fill | main.py:592-612 | rows before the stop are fully written, the stopping row is partly written, the rest are left; raises exactly when a row's maximum or minimum is missing |
| DayBreakdown.DayIndices | main.py:410 | the selected indices are exactly the string timestamps starting with the day's date, in increasing order |
| DayBreakdown.DaySelectionExact | main.py:410 | an index is selected if and only if its timestamp is a string on that day |
| DayBreakdown.HourOfIsoTimestamp | main.py:421 | `int(t[11:13])` of an ISO timestamp is its hour |
| DayBreakdown.HourList | main.py:421 | one hour reading per hourly timestamp |
| DayBreakdown.HoursKnownEverywhere | main.py:421 | the parse check holds exactly when every selected timestamp has a readable hour |
| DayBreakdown.PeriodIndices | main.py:420-422 | a period bucket exists exactly when every selected hour parses, and holds only selected indices |
| DayBreakdown.PeriodMembers | main.py:421 | a sample is in a period's bucket exactly when it is one of the day's samples and its hour lies in [start, end) |
| DayBreakdown.PeriodSplit | main.py:420-425 | two adjacent periods' buckets add up to the bucket of their union |
| DayBreakdown.Values | main.py:411 | the day's values are the temperatures at the selected indices |
| DayBreakdown.PeriodAverage | main.py:422 | a period shows the dash exactly when its bucket is empty |
| DayBreakdown.PeriodDash | main.py:420-426 | the dash shows exactly when no sample of the day has its hour in the period |
| DayBreakdown.DetailLinesShape | main.py:404-430 | no hourly data gives only "no breakdown"; no sample on the day gives no line; otherwise three lines, with min ≤ average ≤ max, and the last is "no breakdown" exactly when some hour does not parse |
| DayBreakdown.DayLines | main.py:414-426 | appends the min/max, the average and the period line (or "no breakdown" when an hour raises) |
| DayBreakdown.Details | main.py:404-430 | fills `details_lines` as the rule above describes |
| DayBreakdown.ShowDay | main.py:371-436 | the popup shows the clicked day's date, high and low when present, the detail lines on rows 3, 4, ... and the Close button on the row after the last line |
| Stats.Min | main.py:414 | `min` is an element no larger than any other |
| Stats.Max | main.py:414 | `max` is an element no smaller than any other |
| Stats.MeanBetween | main.py:414-415 | the average lies between the minimum and the maximum |
| PyText.Strip | main.py:692 | `strip` returns the middle of the string with only whitespace cut from either end, and no whitespace left at either end |
| PyText.StripIdempotent | main.py:692 | stripping twice is stripping once |
| PyText.TrimLeftRemovesSpace | main.py:692 | what is stripped at the front is whitespace |
| PyText.TrimRightRemovesSpace | main.py:692 | what is stripped at the back is whitespace |
| PyText.Split | main.py:719 | `split(',')` gives one part more than there are commas, none containing a comma |
| PyText.SplitJoin | main.py:719 | joining the parts with ',' gives the string back |
| PyText.Slice | main.py:421 | slicing inside the string is the plain subsequence |
| PyText.PyIntDigitField | main.py:421 | a two-digit field reads as its decimal value |
| AutoLocate.CityFirst | main.py:692 | a non-empty string `city` is used, stripped |
| AutoLocate.CityNameSecond | main.py:692 | a false-y `city` falls back to `city_name`, stripped |
| AutoLocate.CityDefaultsEmpty | main.py:692 | with neither name the city is "" |
| AutoLocate.NormalizeRaises | main.py:692 | normalisation fails exactly when the chosen city value is not a string |
| AutoLocate.ZeroLatitudeFallsThrough | main.py:693 | a latitude of exactly 0 is treated as missing and `lat` is used instead |
| AutoLocate.ZeroLongitudeFallsThrough | main.py:694 | a longitude of exactly 0 is treated as missing and `lon` is used instead |
| AutoLocate.NumericCoordinates | main.py:693-699 | non-zero numeric `latitude`/`longitude` are returned as they are |
| AutoLocate.ConversionFailureDropsBoth | main.py:696-700 | if either conversion fails both coordinates are dropped; otherwise both are kept |
| AutoLocate.NormalizeCarriesCoordinates | main.py:691-701 | the returned guess carries those coordinates |
| AutoLocate.DeclaredFailureRejected | main.py:725-726 | an answer with a false-y `success` is never taken |
| AutoLocate.LocIgnoredWithCoordinates | main.py:717 | with true-y latitude and longitude, `loc` is ignored and the answer is taken as sent |
| AutoLocate.LocOverwritesBoth | main.py:717-722 | a `loc` "a,b" with two numbers overwrites both coordinates and nothing else |
| AutoLocate.LocPartialWrite | main.py:718-724 | a `loc` whose second part does not convert writes the latitude alone |
| AutoLocate.LocNeedsTwoParts | main.py:719-720 | a `loc` without exactly one comma changes nothing |
| AutoLocate.LocAnswerOffered | main.py:714-729 | a `loc`-only answer is taken with both coordinates written from `loc` |
| AutoLocate.LocFeedsNormalize | main.py:691-729 | a `loc`-only answer normalises to exactly the two numbers of `loc` |
| AutoLocate.Race.constructor | main.py:746-747 | the slot starts empty and open |
| AutoLocate.Race.Call | main.py:711-731 | the first usable answer is appended and closes the slot; every later call changes nothing |
| AutoLocate.FirstOfferIsFirst | main.py:727-729 | the accepted answer is that of the earliest completion that offers one, all earlier ones offering none; there is none exactly when no completion offers |
| AutoLocate.FirstOfferAppend | main.py:727-729 | completions after the claim do not change the accepted answer |
| AutoLocate.EarlierAnswerWins | main.py:727-729 | of two usable answers the first to finish is taken and the later one discarded |
| AutoLocate.RunRace | main.py:703-740 | after all completions `results` holds exactly the first offered answer, or nothing |
| Scrolling.RoundNearest | main.py:179 | `round(delta / 120)` is a nearest whole number of notches |
| Scrolling.RoundUnique | main.py:179 | it is the only nearest one away from halves |
| Scrolling.RoundTieEven | main.py:179 | halves go to the even neighbour |
| Scrolling.RoundNegate | main.py:179 | rounding commutes with negation |
| Scrolling.WheelDirection | main.py:171-191 | any non-zero delta scrolls, against its sign; a zero or missing delta does not |
| Scrolling.WheelNotches | main.py:178-190 | k whole notches scroll -k steps, by pages from three notches |
| Scrolling.WheelSmallMovement | main.py:178-185 | a movement of at most half a notch scrolls one unit against its sign |
| Scrolling.WheelNearest | main.py:178-180 | a larger movement scrolls the nearest number of notches |
| Scrolling.WheelPages | main.py:186-190 | pages are used exactly for deltas beyond 300 (2.5 notches; 300 rounds to 2) |
| Scrolling.LinuxScroll | main.py:196-203 | button 4 scrolls one unit up, button 5 one unit down, others nothing |
| Scrolling.LinuxLikeOneNotch | main.py:171-203 | a Linux button press scrolls like one wheel notch the same way |
| Scrolling.ChartWidth | main.py:454-458 | the chart width lies in [260, 820], is content width - 24 in between, and is clamped outside |
| Scrolling.ChartWidthMonotone | main.py:456 | a wider window never gives a narrower chart |
| Scrolling.Transition | main.py:139-147 | afterwards the flag equals the need; the bar is shown exactly when needed and hidden, hidden exactly when not needed and shown |
| Scrolling.TransitionIdempotent | main.py:139-147 | a second update with the same geometry makes no call |
| Scrolling.GridCalls | main.py:139-147 | a series of updates makes only real show or hide calls, no empty ones |
| Scrolling.GridCallsAlternate | main.py:139-147 | over any series of updates the scrollbar is never shown twice or hidden twice in a row |
| Scrolling.ScrollArea.constructor | main.py:125 | the scrollbar starts hidden |
| Scrolling.ScrollArea.UpdateScrollMetrics | main.py:128-149 | the scroll region follows a non-empty bounding box and is left as it was for an empty canvas; the scrollbar is visible exactly when the content is more than one pixel taller than the canvas, and is shown or hidden only on a change |

## Left out

- HTTP requests, Tk widgets, timers and threads are not modelled. What
  they deliver is a parameter: the decoded forecast response, each
  provider's `Completion`, the canvas bounding box and height, the content
  width, and the wheel delta or button number.
- `float()` on strings is the parameter `parse`. Python's accepted spellings
  are not modelled. NaN and infinity have no `real` counterpart, so their
  behaviour in the range checks is not modelled.
- Numbers shown rounded (`round(x)`, four decimals in the status line) are
  kept exact. Dates formatted with `fromisoformat`/`strftime` are kept as
  the ISO text plus the row position (`DayName`).
- The pixel width of a weekly bar (`max(60, width or 420)`) is a scaling
  step; bars are modelled as fractions of the track.
- These are not part of this model:
  - `render_current`, `render_hourly` and the city geocoding (`on_fetch_city`);
  - the auto-locate worker's choice between coordinates and a city name.
- Forecast.AppState.PerformFetch: whether the three render calls raise is
  the parameter `rendersOk`, because two of those renderers are not
  modelled. `Weekly.RenderRaises` gives one cause.
- Forecast.FetchWeather: a forecast body that decodes to something other
  than a JSON object is not modelled. There `data.get` raises outside the
  `try`.
- The daily and hourly series are typed sequences: reals for temperatures
  and strings for dates. A `null` or non-numeric entry would make `min`,
  `round` or the subtraction raise, and that is not modelled.
- AutoLocate.RunRace: completions are taken one at a time, in the order
  they finish. The code's test of `done_flag` followed by the append is not
  atomic: two threads could both append. The worker reads `results` once an
  answer claims the slot, or after 4 seconds at most; the model takes the
  completions that arrive before that read as its input.
- `<thread>.start()` ordering, daemon threads and `window.after` marshalling
  are concurrency and are not modelled.
- PyText.PyIntDigitField: `int()` also accepts non-ASCII decimal digits and
  `_` separators; `ReadInt` accepts ASCII digits only. Neither case can form
  a valid two-character hour field of an ASCII timestamp.
- Scrolling.WheelScroll: `delta / 120` is floating-point division.
  Rounding is modelled on the exact quotient, which is the same for every
  delta below 2^53.
- Exceptions swallowed by the handlers' `except Exception: pass` are not
  modelled. Besides the Tk calls, the daily click handler's outer `except`
  (`main.py:437-438`) also swallows an `AttributeError` from a `daily`
  section that is not a dict (`main.py:378-380`) or a `daily_units` section
  that is not a dict (`main.py:399-400`), and a `TypeError` from
  `round(hi_val)` or `round(lo_val)` on a non-number (`main.py:401-402`).
  Its inner `except` (`main.py:429-430`) turns the same error from a
  non-dict `hourly` or `hourly_units` section into the "no breakdown" line.
  The model takes every section as a dict and the temperatures as reals,
  so it does not reach these cases.
