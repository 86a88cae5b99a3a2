/** What `geocodeORS` and `orsRouteKmMin` (api/calcular-entrega.js) do with
    the OpenRouteService answers: the cache around geocoding, the choice of the
    first feature, the `[lng, lat]` swap, and the conversion of a route segment
    into kilometres and whole minutes. Each network exchange is an input: the
    outcome of the `fetch` and of reading its JSON body. */
module Ors {
  import opened Wrappers
  import opened Js
  import opened Memo

  /** `{ lat, lng }`. */
  datatype Coord = Coord(lat: real, lng: real)

  /** A geocoding feature; `coordinates` is GeoJSON's `[lng, lat]`. */
  datatype GeoFeature = GeoFeature(coordinates: (real, real))

  /** The geocoding answer: its optional `features` array. */
  datatype GeoData = GeoData(features: Option<seq<GeoFeature>>)

  /** A route segment; a field is None when it is absent or not a number. */
  datatype Segment = Segment(distance: Option<real>, duration: Option<real>)
  datatype RouteProps = RouteProps(segments: Option<seq<Segment>>)
  datatype RouteFeature = RouteFeature(properties: Option<RouteProps>)

  /** The directions answer: `features[].properties.segments[]`, each level optional. */
  datatype RouteData = RouteData(features: Option<seq<RouteFeature>>)

  /** How one request to the provider ended: the `fetch` or the JSON reading
      threw, the status was not 2xx (with the response text), or the body
      parsed. */
  datatype Fetch<T> = Rejected(message: string) | NotOk(status: int, text: string) | Json(data: T)

  /** The errors the two functions throw, one variant per message prefix. */
  datatype Err =
    | ConfigError                         // "CONFIG: ..."
    | GeocodeFail(status: int, text: string)
    | GeocodeEmpty
    | RouteFail(status: int, text: string)
    | RouteEmpty
    | Thrown(message: string)             // a rejected fetch or unreadable JSON

  /** What `orsRouteKmMin` returns. */
  datatype Leg = Leg(km: real, min: int)

  /** The result of a geocoding call and the cache afterwards. */
  datatype GeoOutcome = GeoOutcome(result: Result<Coord, Err>, mem: map<string, Entry<Coord>>)

  // ----------------------------------------------------------------- geocode

  /** The cache key `"geo:" + text.toLowerCase()`. */
  function GeoKey(text: string): (k: string)
    ensures |k| == |text| + 4 && k[..4] == "geo:" && k[4..] == Lower(text)
  {
    "geo:" + Lower(text)
  }

  /** The body of `geocodeORS` after the fetch: a non-2xx status and a missing
      first feature are errors; otherwise the first feature's `[lng, lat]`
      becomes `{ lat, lng }`. */
  function ParseGeocode(fetch: Fetch<GeoData>): (r: Result<Coord, Err>)
    ensures fetch.Rejected? ==> r == Failure(Thrown(fetch.message))
    ensures fetch.NotOk? ==> r == Failure(GeocodeFail(fetch.status, fetch.text))
    ensures fetch.Json? ==>
      var fs := fetch.data.features;
      if fs.Some? && |fs.value| > 0
      then r == Success(Coord(fs.value[0].coordinates.1, fs.value[0].coordinates.0))
      else r == Failure(GeocodeEmpty)
  {
    match fetch
    case Rejected(msg) => Failure(Thrown(msg))
    case NotOk(status, text) => Failure(GeocodeFail(status, text))
    case Json(data) =>
      if data.features.None? || |data.features.value| == 0 then Failure(GeocodeEmpty)
      else
        var (lng, lat) := data.features.value[0].coordinates;
        Success(Coord(lat, lng))
  }

  /** `geocodeORS(text)` at time `now` against cache contents `mem`: a missing
      key is a configuration error; a fresh cache entry is returned without
      using the fetch; otherwise the fetch is parsed and a success is stored.
      Every success leaves its coordinates in the cache under the text's key,
      and no other key is touched. */
  function GeocodeSpec(mem: map<string, Entry<Coord>>, apiKey: Option<string>, text: string,
                       now: int, fetch: Fetch<GeoData>): (o: GeoOutcome)
    ensures !Truthy(apiKey) ==> o.result == Failure(ConfigError) && o.mem == mem
    ensures o.result.Success? ==>
      GeoKey(text) in o.mem && o.mem[GeoKey(text)].v == o.result.value
    ensures forall k :: k != GeoKey(text) ==>
      (k in o.mem <==> k in mem) && (k in o.mem ==> o.mem[k] == mem[k])
  {
    if !Truthy(apiKey) then GeoOutcome(Failure(ConfigError), mem)
    else
      var key := GeoKey(text);
      match Lookup(mem, key, DefaultTtl, now)
      case Some(c) => GeoOutcome(Success(c), mem)
      case None =>
        var m := AfterLookup(mem, key, DefaultTtl, now);
        match ParseGeocode(fetch)
        case Failure(e) => GeoOutcome(Failure(e), m)
        case Success(c) => GeoOutcome(Success(c), m[key := Entry(c, now)])
  }

  /** `geocodeORS`, run against the shared cache. */
  method GeocodeOrs(cache: MemoCache<Coord>, apiKey: Option<string>, text: string,
                    now: int, fetch: Fetch<GeoData>) returns (r: Result<Coord, Err>)
    modifies cache
    ensures GeoOutcome(r, cache.mem) == GeocodeSpec(old(cache.mem), apiKey, text, now, fetch)
  {
    if !Truthy(apiKey) {
      return Failure(ConfigError);
    }
    var cacheKey := GeoKey(text);
    var c := cache.GetMemo(cacheKey, DefaultTtl, now);
    if c.Some? {
      return Success(c.value);
    }
    var parsed := ParseGeocode(fetch);
    if parsed.Failure? {
      return parsed;
    }
    var stored := cache.Memo(cacheKey, parsed.value, now);
    r := Success(stored);
  }

  /** Without an API key geocoding fails with the configuration error and
      leaves the cache alone. */
  lemma GeocodeNeedsKey(mem: map<string, Entry<Coord>>, apiKey: Option<string>, text: string,
                        now: int, fetch: Fetch<GeoData>)
    requires !Truthy(apiKey)
    ensures GeocodeSpec(mem, apiKey, text, now, fetch) == GeoOutcome(Failure(ConfigError), mem)
  {
  }

  /** A fresh entry under the lower-cased text answers the call: the fetch is
      not used and the cache does not change. */
  lemma GeocodeCacheHit(mem: map<string, Entry<Coord>>, apiKey: Option<string>, text: string,
                        now: int, fetch1: Fetch<GeoData>, fetch2: Fetch<GeoData>)
    requires Truthy(apiKey)
    requires GeoKey(text) in mem && now - mem[GeoKey(text)].t <= DefaultTtl
    ensures GeocodeSpec(mem, apiKey, text, now, fetch1) == GeocodeSpec(mem, apiKey, text, now, fetch2)
    ensures GeocodeSpec(mem, apiKey, text, now, fetch1) == GeoOutcome(Success(mem[GeoKey(text)].v), mem)
  {
  }

  /** On a miss the answer is the parsed fetch; only a success is stored, under
      the key, stamped `now`; a failure leaves no entry under the key; every
      other key keeps its entry. */
  lemma GeocodeMiss(mem: map<string, Entry<Coord>>, apiKey: Option<string>, text: string,
                    now: int, fetch: Fetch<GeoData>)
    requires Truthy(apiKey)
    requires Lookup(mem, GeoKey(text), DefaultTtl, now).None?
    ensures var o := GeocodeSpec(mem, apiKey, text, now, fetch);
      o.result == ParseGeocode(fetch) &&
      (o.result.Success? ==> GeoKey(text) in o.mem && o.mem[GeoKey(text)] == Entry(o.result.value, now)) &&
      (o.result.Failure? ==> GeoKey(text) !in o.mem) &&
      (forall k :: k != GeoKey(text) ==> (k in o.mem <==> k in mem) && (k in mem ==> o.mem[k] == mem[k]))
  {
  }

  /** A successful fetch is remembered: asking again, for any text with the
      same lower-case form, within 30 minutes gives the same coordinates
      whatever the network would answer. (An answer served from the cache is
      not re-stamped, so it is only good until its original entry expires.) */
  lemma GeocodeRepeatHits(mem: map<string, Entry<Coord>>, apiKey: Option<string>, text1: string, text2: string,
                          now1: int, now2: int, fetch1: Fetch<GeoData>, fetch2: Fetch<GeoData>)
    requires Lower(text1) == Lower(text2)
    requires now1 <= now2 <= now1 + DefaultTtl
    requires Lookup(mem, GeoKey(text1), DefaultTtl, now1).None?
    requires GeocodeSpec(mem, apiKey, text1, now1, fetch1).result.Success?
    ensures var o1 := GeocodeSpec(mem, apiKey, text1, now1, fetch1);
      GeocodeSpec(o1.mem, apiKey, text2, now2, fetch2).result == o1.result
  {
    var o1 := GeocodeSpec(mem, apiKey, text1, now1, fetch1);
    assert GeoKey(text1) == GeoKey(text2);
    assert GeoKey(text1) in o1.mem && now2 - o1.mem[GeoKey(text1)].t <= DefaultTtl;
  }

  /** Example: the first feature's `[lng, lat]` comes back as `{ lat, lng }`;
      an answer without features is GEOCODE_EMPTY. */
  lemma ParseGeocodeExample(rest: seq<GeoFeature>)
    ensures ParseGeocode(Json(GeoData(Some([GeoFeature((-51.2, -30.0))] + rest)))) == Success(Coord(-30.0, -51.2))
    ensures ParseGeocode(Json(GeoData(Some([])))) == Failure(GeocodeEmpty)
    ensures ParseGeocode(Json(GeoData(None))) == Failure(GeocodeEmpty)
  {
  }

  // ------------------------------------------------------------------- route

  /** `Math.ceil`. */
  function Ceil(x: real): (n: int)
    ensures x <= n as real < x + 1.0
  {
    -((-x).Floor)
  }

  /** `Math.max(1, Math.ceil(seconds / 60))`: the least whole number of minutes,
      and at least one, that covers the duration. */
  function Minutes(seconds: real): (m: int)
    ensures m >= 1
    ensures seconds <= 60.0 * m as real
    ensures m == 1 || 60.0 * (m - 1) as real < seconds
  {
    var c := Ceil(seconds / 60.0);
    if c > 1 then c else 1
  }

  /** `data?.features?.[0]?.properties?.segments?.[0]`. */
  function FirstSegment(data: RouteData): (s: Option<Segment>)
    ensures s.Some? <==>
      data.features.Some? && |data.features.value| > 0 &&
      data.features.value[0].properties.Some? &&
      data.features.value[0].properties.value.segments.Some? &&
      |data.features.value[0].properties.value.segments.value| > 0
    ensures s.Some? ==> s.value == data.features.value[0].properties.value.segments.value[0]
  {
    match data.features
    case None => None
    case Some(fs) =>
      if |fs| == 0 then None
      else match fs[0].properties
        case None => None
        case Some(p) =>
          match p.segments
          case None => None
          case Some(segs) => if |segs| == 0 then None else Some(segs[0])
  }

  /** `orsRouteKmMin` after its fetch: both the distance (metres) and the
      duration (seconds) of the first segment must be numbers, and they
      become kilometres and whole minutes. */
  function OrsRouteKmMin(apiKey: Option<string>, fetch: Fetch<RouteData>): (r: Result<Leg, Err>)
    ensures !Truthy(apiKey) ==> r == Failure(ConfigError)
    ensures Truthy(apiKey) && fetch.Rejected? ==> r == Failure(Thrown(fetch.message))
    ensures Truthy(apiKey) && fetch.NotOk? ==> r == Failure(RouteFail(fetch.status, fetch.text))
    ensures Truthy(apiKey) && fetch.Json? ==>
      var seg := FirstSegment(fetch.data);
      if seg.Some? && seg.value.distance.Some? && seg.value.duration.Some?
      then r.Success? && r.value.km * 1000.0 == seg.value.distance.value &&
           r.value.min == Minutes(seg.value.duration.value)
      else r == Failure(RouteEmpty)
  {
    if !Truthy(apiKey) then Failure(ConfigError)
    else match fetch
      case Rejected(msg) => Failure(Thrown(msg))
      case NotOk(status, text) => Failure(RouteFail(status, text))
      case Json(data) =>
        var seg := FirstSegment(data);
        if seg.None? || seg.value.distance.None? || seg.value.duration.None? then Failure(RouteEmpty)
        else Success(Leg(seg.value.distance.value / 1000.0, Minutes(seg.value.duration.value)))
  }

  /** Every route that comes back takes at least one whole minute and at
      least as many minutes as its duration in seconds requires. */
  lemma RouteMinutesBounds(apiKey: Option<string>, fetch: Fetch<RouteData>)
    requires OrsRouteKmMin(apiKey, fetch).Success?
    ensures var leg := OrsRouteKmMin(apiKey, fetch).value;
      var seg := FirstSegment(fetch.data).value;
      leg.min >= 1 && seg.duration.value <= 60.0 * leg.min as real &&
      (leg.min == 1 || 60.0 * (leg.min - 1) as real < seg.duration.value)
  {
  }

  /** Examples: a 30-second route takes one minute; zero and negative
      durations also give one minute; 61 seconds give two. */
  lemma MinutesExamples()
    ensures Minutes(30.0) == 1 && Minutes(0.0) == 1 && Minutes(-5.0) == 1
    ensures Minutes(61.0) == 2 && Minutes(600.0) == 10
  {
  }
}
