/** The start-up auto-locate race: several IP-geolocation providers are
    asked at once, the first usable answer claims a shared slot, and its
    fields are normalised into a city name and coordinates. Completions are
    taken one at a time in the order they finish. */
module AutoLocate {
  import opened Wrappers
  import opened Json
  import PyText

  /** What `normalize_ip_info` returns: `(city, lat, lon)`. */
  datatype IpGuess = IpGuess(city: string, lat: Option<real>, lon: Option<real>)

  /** `info.get(primary) or info.get(fallback)`. */
  function CoordField(info: map<string, Value>, primary: string, fallback: string): Value {
    Or(Get(info, primary), Get(info, fallback))
  }

  /** `float(x) if x is not None else None`, with `None` in the outer option
      when `float` raises. */
  function OptFloat(x: Value, parse: string -> Option<real>): Option<Option<real>> {
    if x == Null then Some(None)
    else
      match PyFloat(x, parse)
      case None => None
      case Some(r) => Some(Some(r))
  }

  /** The coordinates `normalize_ip_info` returns: taken from
      `latitude`/`longitude`, falling back to `lat`/`lon` when the first is
      false-y; if either conversion raises, both are dropped. */
  function Coordinates(info: map<string, Value>, parse: string -> Option<real>): (Option<real>, Option<real>) {
    var lat := OptFloat(CoordField(info, "latitude", "lat"), parse);
    var lon := OptFloat(CoordField(info, "longitude", "lon"), parse);
    if lat.None? || lon.None? then (None, None) else (lat.value, lon.value)
  }

  /** `normalize_ip_info(info)`. The city is the stripped `city`, else
      `city_name`, else "". `None` means the call raises: a true-y
      non-string city has no `.strip()`. */
  function NormalizeIpInfo(info: map<string, Value>, parse: string -> Option<real>): Option<IpGuess> {
    var cityValue := Or(Or(Get(info, "city"), Get(info, "city_name")), Str(""));
    if !cityValue.Str? then None
    else
      var coords := Coordinates(info, parse);
      Some(IpGuess(PyText.Strip(cityValue.s), coords.0, coords.1))
  }

  /** The city is `city` when that is a non-empty string, stripped. */
  lemma CityFirst(info: map<string, Value>, parse: string -> Option<real>)
    requires "city" in info && info["city"].Str? && info["city"].s != ""
    ensures NormalizeIpInfo(info, parse).Some?
    ensures NormalizeIpInfo(info, parse).value.city == PyText.Strip(info["city"].s)
  {
    assert Or(Get(info, "city"), Get(info, "city_name")) == info["city"];
  }

  /** A false-y `city` falls back to `city_name`, stripped. */
  lemma CityNameSecond(info: map<string, Value>, parse: string -> Option<real>)
    requires !Truthy(Get(info, "city")) && "city_name" in info && info["city_name"].Str?
    ensures NormalizeIpInfo(info, parse).Some?
    ensures NormalizeIpInfo(info, parse).value.city == PyText.Strip(info["city_name"].s)
  {
    var pick := Or(Get(info, "city"), Get(info, "city_name"));
    assert pick == info["city_name"];
    assert Or(pick, Str("")).Str? && Or(pick, Str("")).s == info["city_name"].s;
  }

  /** With neither name the city is empty. */
  lemma CityDefaultsEmpty(info: map<string, Value>, parse: string -> Option<real>)
    requires !Truthy(Get(info, "city")) && !Truthy(Get(info, "city_name"))
    ensures NormalizeIpInfo(info, parse).Some?
    ensures NormalizeIpInfo(info, parse).value.city == ""
  {
    assert Or(Or(Get(info, "city"), Get(info, "city_name")), Str("")) == Str("");
    assert PyText.Strip("") == "";
  }

  /** `normalize_ip_info` raises exactly when the chosen city is not a string. */
  lemma NormalizeRaises(info: map<string, Value>, parse: string -> Option<real>)
    ensures NormalizeIpInfo(info, parse).None? <==> !Or(Or(Get(info, "city"), Get(info, "city_name")), Str("")).Str?
  {
  }

  /** A latitude of exactly 0 is false-y, so `lat` is used instead, and a
      missing `lat` then gives no latitude at all. */
  lemma ZeroLatitudeFallsThrough(info: map<string, Value>, parse: string -> Option<real>)
    requires "latitude" in info && info["latitude"] == Num(0.0)
    ensures "lat" !in info ==> Coordinates(info, parse).0.None?
    ensures "lat" in info && info["lat"].Num? && OptFloat(CoordField(info, "longitude", "lon"), parse).Some? ==>
      Coordinates(info, parse).0 == Some(info["lat"].r)
  {
    assert CoordField(info, "latitude", "lat") == Get(info, "lat");
  }

  /** A longitude of exactly 0 falls through to `lon` in the same way. */
  lemma ZeroLongitudeFallsThrough(info: map<string, Value>, parse: string -> Option<real>)
    requires "longitude" in info && info["longitude"] == Num(0.0)
    ensures "lon" !in info ==> Coordinates(info, parse).1.None?
    ensures "lon" in info && info["lon"].Num? && OptFloat(CoordField(info, "latitude", "lat"), parse).Some? ==>
      Coordinates(info, parse).1 == Some(info["lon"].r)
  {
    assert CoordField(info, "longitude", "lon") == Get(info, "lon");
  }

  /** Non-zero numeric fields are taken as they are. */
  lemma NumericCoordinates(info: map<string, Value>, parse: string -> Option<real>, a: real, b: real)
    requires a != 0.0 && b != 0.0
    requires "latitude" in info && info["latitude"] == Num(a)
    requires "longitude" in info && info["longitude"] == Num(b)
    ensures Coordinates(info, parse) == (Some(a), Some(b))
  {
    assert CoordField(info, "latitude", "lat") == Num(a);
    assert CoordField(info, "longitude", "lon") == Num(b);
  }

  /** A field that cannot be converted drops both coordinates; otherwise
      both conversions are kept. */
  lemma ConversionFailureDropsBoth(info: map<string, Value>, parse: string -> Option<real>)
    ensures var lat := OptFloat(CoordField(info, "latitude", "lat"), parse);
      var lon := OptFloat(CoordField(info, "longitude", "lon"), parse);
      && (lat.None? || lon.None? ==> Coordinates(info, parse) == (None, None))
      && (lat.Some? && lon.Some? ==> Coordinates(info, parse) == (lat.value, lon.value))
  {
  }

  /** What `normalize_ip_info` returns, when it returns, carries those
      coordinates. */
  lemma NormalizeCarriesCoordinates(info: map<string, Value>, parse: string -> Option<real>)
    requires NormalizeIpInfo(info, parse).Some?
    ensures (NormalizeIpInfo(info, parse).value.lat, NormalizeIpInfo(info, parse).value.lon) == Coordinates(info, parse)
  {
  }

  /** How one provider call ended: `Raised` when `requests` raised (timeout,
      no connection) or the body was not JSON; otherwise the status code and
      the decoded body. */
  datatype Completion = Raised | Answered(status: int, body: Value)

  /** `'loc' in info and (not info.get('latitude') or not info.get('longitude'))`. */
  predicate UsesLoc(info: map<string, Value>) {
    "loc" in info && (!Truthy(Get(info, "latitude")) || !Truthy(Get(info, "longitude")))
  }

  /** The `loc` step for a dict: a string `loc` that splits on ',' into
      exactly two parts writes `latitude` from the first part and then
      `longitude` from the second, each only once its part converts; so a
      first part that converts followed by one that does not leaves
      `latitude` written alone. Any other `loc` leaves the dict as it is
      (`str()` of a number, boolean or null has no comma, and that of a list
      or dict starts with a bracket no float parses). */
  function ApplyLoc(info: map<string, Value>, parse: string -> Option<real>): map<string, Value>
    requires "loc" in info
  {
    var loc := info["loc"];
    if !loc.Str? then info
    else
      var parts := PyText.Split(loc.s, ',');
      if |parts| != 2 then info
      else
        match parse(parts[0])
        case None => info
        case Some(a) =>
          var first := info["latitude" := Num(a)];
          match parse(parts[1])
          case None => first
          case Some(b) => first["longitude" := Num(b)]
  }

  /** `'success' in info and not info.get('success', True)`. */
  predicate DeclaresFailure(info: map<string, Value>) {
    "success" in info && !Truthy(info["success"])
  }

  /** What one completed provider call offers for the slot: the (possibly
      rewritten) `info`, or `None` when the call returns without appending
      (not status 200, an exception, or a declared failure). A body that is
      not a dict is offered only when neither `'loc'` nor `'success'` is in
      it: otherwise `info.get` raises. */
  function Offer(c: Completion, parse: string -> Option<real>): Option<Value> {
    match c
    case Raised => None
    case Answered(status, body) =>
      if status != 200 then None
      else
        var info := Or(body, Obj(map[]));
        match info
        case Obj(m) =>
          var m' := if UsesLoc(m) then ApplyLoc(m, parse) else m;
          if DeclaresFailure(m') then None else Some(Obj(m'))
        case _ =>
          if Contains(info, "loc") != Some(false) then None
          else if Contains(info, "success") != Some(false) then None
          else Some(info)
  }

  /** A provider that says `success: false` (or any false-y value) is never
      taken, whatever else it sends. */
  lemma DeclaredFailureRejected(m: map<string, Value>, parse: string -> Option<real>)
    requires "success" in m && !Truthy(m["success"])
    ensures Offer(Answered(200, Obj(m)), parse).None?
  {
    if UsesLoc(m) {
      assert "success" in ApplyLoc(m, parse) && ApplyLoc(m, parse)["success"] == m["success"];
    }
  }

  /** With true-y `latitude` and `longitude`, `loc` is ignored and the body
      is offered as it came. */
  lemma LocIgnoredWithCoordinates(m: map<string, Value>, parse: string -> Option<real>)
    requires m != map[] && Truthy(Get(m, "latitude")) && Truthy(Get(m, "longitude"))
    requires !DeclaresFailure(m)
    ensures Offer(Answered(200, Obj(m)), parse) == Some(Obj(m))
  {
  }

  /** A `loc` of the form "a,b" with two convertible parts overwrites both
      coordinates and nothing else. */
  lemma LocOverwritesBoth(m: map<string, Value>, s: string, parse: string -> Option<real>, a: real, b: real)
    requires "loc" in m && m["loc"] == Str(s) && UsesLoc(m)
    requires var parts := PyText.Split(s, ','); |parts| == 2 && parse(parts[0]) == Some(a) && parse(parts[1]) == Some(b)
    ensures ApplyLoc(m, parse) == m["latitude" := Num(a)]["longitude" := Num(b)]
  {
  }

  /** A `loc` whose first part converts but whose second does not writes the
      latitude alone: `float(parts[1])` raises after the first assignment. */
  lemma LocPartialWrite(m: map<string, Value>, s: string, parse: string -> Option<real>, a: real)
    requires "loc" in m && m["loc"] == Str(s)
    requires var parts := PyText.Split(s, ','); |parts| == 2 && parse(parts[0]) == Some(a) && parse(parts[1]).None?
    ensures ApplyLoc(m, parse) == m["latitude" := Num(a)]
  {
  }

  /** A `loc` that does not split into exactly two parts leaves the dict alone. */
  lemma LocNeedsTwoParts(m: map<string, Value>, s: string, parse: string -> Option<real>)
    requires "loc" in m && m["loc"] == Str(s) && PyText.Count(s, ',') != 1
    ensures ApplyLoc(m, parse) == m
  {
  }

  /** An answer carrying `loc` but no coordinates and no `success` field is
      offered with both coordinates written from it. */
  lemma LocAnswerOffered(m: map<string, Value>, s: string, parse: string -> Option<real>, a: real, b: real)
    requires "loc" in m && m["loc"] == Str(s)
    requires "latitude" !in m && "longitude" !in m && "success" !in m
    requires var parts := PyText.Split(s, ','); |parts| == 2 && parse(parts[0]) == Some(a) && parse(parts[1]) == Some(b)
    ensures Offer(Answered(200, Obj(m)), parse) == Some(Obj(m["latitude" := Num(a)]["longitude" := Num(b)]))
  {
    assert UsesLoc(m);
    LocOverwritesBoth(m, s, parse, a, b);
    var m' := m["latitude" := Num(a)]["longitude" := Num(b)];
    assert "success" !in m';
  }

  /** End to end: an answer carrying only `loc` with two non-zero numbers is
      offered, and normalising the offered info gives those numbers and no
      city. */
  lemma LocFeedsNormalize(m: map<string, Value>, s: string, parse: string -> Option<real>, a: real, b: real)
    requires "loc" in m && m["loc"] == Str(s)
    requires "latitude" !in m && "longitude" !in m && "success" !in m
    requires "city" !in m && "city_name" !in m
    requires var parts := PyText.Split(s, ','); |parts| == 2 && parse(parts[0]) == Some(a) && parse(parts[1]) == Some(b)
    requires a != 0.0 && b != 0.0
    ensures var offered := Offer(Answered(200, Obj(m)), parse);
      && offered.Some? && offered.value.Obj?
      && NormalizeIpInfo(offered.value.fields, parse) == Some(IpGuess("", Some(a), Some(b)))
  {
    LocAnswerOffered(m, s, parse, a, b);
    var m' := m["latitude" := Num(a)]["longitude" := Num(b)];
    NumericCoordinates(m', parse, a, b);
    assert Get(m', "city") == Null && Get(m', "city_name") == Null;
    CityDefaultsEmpty(m', parse);
    NormalizeCarriesCoordinates(m', parse);
  }

  /** The shared state of one race: the `results` list and `done_flag`. */
  class Race {
    var results: seq<Value>
    var done: bool

    ghost predicate Valid()
      reads this
    {
      |results| <= 1 && (done <==> |results| == 1)
    }

    constructor ()
      ensures Valid() && results == [] && !done
    {
      results := [];
      done := false;
    }

    /** `call(url)` once the provider has answered with `c`: the body is
        rewritten by the `loc` rule in place, a declared failure returns,
        and otherwise the info is appended and the slot closed, unless the
        slot is already closed. */
    method Call(c: Completion, parse: string -> Option<real>)
      requires Valid()
      modifies this
      ensures Valid()
      ensures results == if !old(done) && Offer(c, parse).Some? then [Offer(c, parse).value] else old(results)
    {
      if !c.Answered? || c.status != 200 {
        return;
      }
      var info := Or(c.body, Obj(map[]));
      if info.Obj? {
        var fields := info.fields;
        if UsesLoc(fields) {
          var loc := fields["loc"];
          if loc.Str? {
            var parts := PyText.Split(loc.s, ',');
            if |parts| == 2 {
              var a := parse(parts[0]);
              if a.Some? {
                fields := fields["latitude" := Num(a.value)];
                var b := parse(parts[1]);
                if b.Some? {
                  fields := fields["longitude" := Num(b.value)];
                }
              }
            }
          }
        }
        if DeclaresFailure(fields) {
          return;
        }
        info := Obj(fields);
      } else if Contains(info, "loc") != Some(false) || Contains(info, "success") != Some(false) {
        return;
      }
      if !done {
        results := results + [info];
        done := true;
      }
    }
  }

  /** The info that claims the slot when the completions arrive in the
      order given: the first offer, if any. */
  function FirstOffer(cs: seq<Completion>, parse: string -> Option<real>): Option<Value> {
    if cs == [] then None
    else if Offer(cs[0], parse).Some? then Offer(cs[0], parse)
    else FirstOffer(cs[1..], parse)
  }

  /** The winner is the first completion that offers, and every earlier one
      offered nothing; without a winner no completion offered. */
  lemma {:induction false} FirstOfferIsFirst(cs: seq<Completion>, parse: string -> Option<real>)
    ensures FirstOffer(cs, parse).None? <==> forall k | 0 <= k < |cs| :: Offer(cs[k], parse).None?
    ensures FirstOffer(cs, parse).Some? ==>
      exists w | 0 <= w < |cs| :: Offer(cs[w], parse) == FirstOffer(cs, parse)
        && forall j | 0 <= j < w :: Offer(cs[j], parse).None?
  {
    if cs != [] {
      FirstOfferIsFirst(cs[1..], parse);
      if Offer(cs[0], parse).None? && FirstOffer(cs, parse).Some? {
        var w :| 0 <= w < |cs| - 1 && Offer(cs[1..][w], parse) == FirstOffer(cs[1..], parse)
          && forall j | 0 <= j < w :: Offer(cs[1..][j], parse).None?;
        assert Offer(cs[w + 1], parse) == FirstOffer(cs, parse);
        assert forall j | 0 <= j < w + 1 :: Offer(cs[j], parse).None? by {
          forall j | 0 <= j < w + 1 ensures Offer(cs[j], parse).None? {
            if j > 0 { assert cs[j] == cs[1..][j - 1]; }
          }
        }
      }
    }
  }

  /** Once the slot is claimed nothing later matters. */
  lemma {:induction false} FirstOfferAppend(a: seq<Completion>, b: seq<Completion>, parse: string -> Option<real>)
    ensures FirstOffer(a + b, parse) == if FirstOffer(a, parse).Some? then FirstOffer(a, parse) else FirstOffer(b, parse)
  {
    if a != [] {
      assert (a + b)[1..] == a[1..] + b;
      FirstOfferAppend(a[1..], b, parse);
    } else {
      assert a + b == b;
    }
  }

  /** Two usable answers: the one that finished first wins, and the later
      one is discarded although it was usable too. */
  lemma EarlierAnswerWins(first: Completion, second: Completion, parse: string -> Option<real>)
    requires Offer(first, parse).Some? && Offer(second, parse).Some?
    ensures FirstOffer([first, second], parse) == Offer(first, parse)
  {
  }

  /** `ip_provider_calls` run sequentially: each completion, in the order
      they finish, goes through `call`. At most one result is kept, and it
      is the first offer. */
  method RunRace(cs: seq<Completion>, parse: string -> Option<real>) returns (results: seq<Value>)
    ensures results == if FirstOffer(cs, parse).Some? then [FirstOffer(cs, parse).value] else []
  {
    var race := new Race();
    for k := 0 to |cs|
      invariant race.Valid()
      invariant race.results == if FirstOffer(cs[..k], parse).Some? then [FirstOffer(cs[..k], parse).value] else []
    {
      FirstOfferAppend(cs[..k], [cs[k]], parse);
      assert cs[..k + 1] == cs[..k] + [cs[k]];
      race.Call(cs[k], parse);
    }
    assert cs[..|cs|] == cs;
    results := race.results;
  }
}
