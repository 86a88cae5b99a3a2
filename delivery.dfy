/** The HTTP `handler` of api/calcular-entrega.js: a fixed sequence of guards
    and steps, each with its own exit. The process environment is the
    configuration `Config`, the clock is `now`, and the three requests to the
    provider are the fetch outcomes `originFetch`, `destFetch` and
    `routeFetch` (a fetch the handler does not reach, or that the cache
    answers, is never used). */
module Delivery {
  import opened Wrappers
  import opened Js
  import opened Memo
  import opened Pricing
  import opened Waiver
  import opened Address
  import opened Ors

  /** The two fields the handler reads from the request body. */
  datatype Fields = Fields(enderecoTexto: Option<string>, totalItens: JsNumber)

  /** `req.method` and the body. A string body that `JSON.parse` rejects, or
      that parses to `null` (so that reading its fields throws), is the thrown
      error's message; a missing body reads as `{}`, i.e. both fields absent. */
  datatype Request = Request(verb: string, body: Result<Fields, string>)

  /** The environment variables the handler and the ORS calls read. */
  datatype Config = Config(
    orsApiKey: Option<string>,       // ORS_API_KEY
    useProvider: Option<string>,     // USE_PROVIDER
    originAddress: Option<string>,   // ORIGIN_ADDRESS
    isencaoNivel: Option<JsNumber>)  // Number(ISENCAO_NIVEL), None when unset or empty

  datatype Step = GeocodeOrigin | GeocodeDest | Route

  /** The JSON the handler answers with. */
  datatype Body =
    | NoBody                                          // OPTIONS preflight
    | ClientError(error: string)                      // { error }
    | StepFailed(step: Step, cause: Err)              // { status: "ERRO", step, error }
    | ServerError(error: string)                      // { status: "ERRO", error }
    | Priced(km: real, min: int, valorBase: Option<real>, valorCobravel: Option<real>,
             isento: bool, tier: string)              // { status: "OK", ... }

  datatype Response = Response(status: int, body: Body)

  /** A response together with the cache it leaves behind. */
  datatype Outcome = Outcome(response: Response, mem: map<string, Entry<Coord>>)

  const UsePost: string := "Use POST"
  const EnderecoObrigatorio: string := "enderecoTexto obrigatório"
  const ApenasOrs: string := "Apenas ORS habilitado. Defina USE_PROVIDER=ors"

  /** `(process.env.USE_PROVIDER || "ors").toLowerCase() === "ors"`: an unset
      or empty variable selects ORS, and a set one selects it exactly when it
      spells "ors" in any ASCII case. */
  predicate ProviderIsOrs(cfg: Config)
    ensures !Truthy(cfg.useProvider) ==> ProviderIsOrs(cfg)
    ensures Truthy(cfg.useProvider) ==>
      (ProviderIsOrs(cfg) <==> CiEqual(cfg.useProvider.value, "ors"))
  {
    var u := OrDefault(cfg.useProvider, "ors");
    LowerOrs(u);
    Lower(u) == "ors"
  }

  /** A text lowers to "ors" exactly when it is "ors" up to ASCII case. */
  lemma LowerOrs(u: string)
    ensures Lower(u) == "ors" <==> CiEqual(u, "ors")
  {
    if Lower(u) == "ors" {
      assert forall k :: 0 <= k < 3 ==> LowerChar(u[k]) == "ors"[k];
    }
    if CiEqual(u, "ors") {
      assert forall k :: 0 <= k < 3 ==> LowerChar(u[k]) == "ors"[k];
      assert Lower(u) == "ors";
    }
  }

  /** `process.env.ORIGIN_ADDRESS || "Porto Alegre - RS, Brasil"`. */
  function OriginAddress(cfg: Config): (a: string)
    ensures !Truthy(cfg.originAddress) ==> a == DefaultAddress
    ensures Truthy(cfg.originAddress) ==> a == cfg.originAddress.value
  {
    OrDefault(cfg.originAddress, DefaultAddress)
  }

  /** The success body: the table's fee and tier for the leg, and the waiver
      decided by the configured level and the order's item total. */
  function PriceLeg(leg: Leg, cfg: Config, totalItens: JsNumber): (b: Body)
    ensures b.Priced? && b.km == leg.km && b.min == leg.min
    ensures var q := AplicaTabela(leg.km, leg.min as real);
      b.valorBase == q.valorBase && b.tier == q.tier &&
      b.isento == Isento(Nivel(cfg.isencaoNivel), totalItens) &&
      b.valorCobravel == (if b.isento then Some(0.0) else q.valorBase)
  {
    var q := AplicaTabela(leg.km, leg.min as real);
    var isento := Isento(Nivel(cfg.isencaoNivel), totalItens);
    Priced(leg.km, leg.min, q.valorBase, ValorCobravel(isento, q.valorBase), isento, q.tier)
  }

  /** What the handler answers, and the cache afterwards. Every answer is 200,
      400, 405 or 500, and it is 200 only for an OPTIONS request or with a
      priced body; a request stopped by a guard leaves the cache as it was. */
  function Handle(req: Request, cfg: Config, mem: map<string, Entry<Coord>>, now: int,
                  originFetch: Fetch<GeoData>, destFetch: Fetch<GeoData>,
                  routeFetch: Fetch<RouteData>): (out: Outcome)
    ensures out.response.status in {200, 400, 405, 500}
    ensures out.response.status == 200 <==> req.verb == "OPTIONS" || out.response.body.Priced?
    ensures req.verb != "POST" || req.body.Failure? || !Truthy(req.body.value.enderecoTexto) ||
            !ProviderIsOrs(cfg)
            ==> out.mem == mem
  {
    if req.verb == "OPTIONS" then Outcome(Response(200, NoBody), mem)
    else if req.verb != "POST" then Outcome(Response(405, ClientError(UsePost)), mem)
    else match req.body
      case Failure(msg) => Outcome(Response(500, ServerError(msg)), mem)
      case Success(fields) =>
        if !Truthy(fields.enderecoTexto) then Outcome(Response(400, ClientError(EnderecoObrigatorio)), mem)
        else if !ProviderIsOrs(cfg) then Outcome(Response(400, ClientError(ApenasOrs)), mem)
        else
          var destino := NormalizaEnderecoComCidade(fields.enderecoTexto.value);
          var o := GeocodeSpec(mem, cfg.orsApiKey, OriginAddress(cfg), now, originFetch);
          if o.result.Failure? then Outcome(Response(500, StepFailed(GeocodeOrigin, o.result.error)), o.mem)
          else
            var d := GeocodeSpec(o.mem, cfg.orsApiKey, destino, now, destFetch);
            if d.result.Failure? then Outcome(Response(500, StepFailed(GeocodeDest, d.result.error)), d.mem)
            else
              var rota := OrsRouteKmMin(cfg.orsApiKey, routeFetch);
              if rota.Failure? then Outcome(Response(500, StepFailed(Route, rota.error)), d.mem)
              else Outcome(Response(200, PriceLeg(rota.value, cfg, fields.totalItens)), d.mem)
  }

  /** The handler, step by step, against the shared cache. */
  method Handler(cache: MemoCache<Coord>, req: Request, cfg: Config, now: int,
                 originFetch: Fetch<GeoData>, destFetch: Fetch<GeoData>,
                 routeFetch: Fetch<RouteData>) returns (resp: Response)
    modifies cache
    ensures Outcome(resp, cache.mem) ==
      Handle(req, cfg, old(cache.mem), now, originFetch, destFetch, routeFetch)
  {
    if req.verb == "OPTIONS" {
      return Response(200, NoBody);
    }
    if req.verb != "POST" {
      return Response(405, ClientError(UsePost));
    }
    if req.body.Failure? {
      return Response(500, ServerError(req.body.error));
    }
    var fields := req.body.value;
    if !Truthy(fields.enderecoTexto) {
      return Response(400, ClientError(EnderecoObrigatorio));
    }
    if !ProviderIsOrs(cfg) {
      return Response(400, ClientError(ApenasOrs));
    }
    var enderecoNormalizado := NormalizaEnderecoComCidade(fields.enderecoTexto.value);
    var originAddress := OriginAddress(cfg);

    var origin := GeocodeOrs(cache, cfg.orsApiKey, originAddress, now, originFetch);
    if origin.Failure? {
      return Response(500, StepFailed(GeocodeOrigin, origin.error));
    }
    var dest := GeocodeOrs(cache, cfg.orsApiKey, enderecoNormalizado, now, destFetch);
    if dest.Failure? {
      return Response(500, StepFailed(GeocodeDest, dest.error));
    }
    var rota := OrsRouteKmMin(cfg.orsApiKey, routeFetch);
    if rota.Failure? {
      return Response(500, StepFailed(Route, rota.error));
    }
    resp := Response(200, PriceLeg(rota.value, cfg, fields.totalItens));
  }

  // ------------------------------------------------------------------ lemmas

  /** The guards, in order: OPTIONS answers 200 and any other non-POST 405;
      an unreadable body is a server error; a missing address is a 400 even
      when the provider is also wrong; then a provider other than "ors" is a
      400. None of them touches the cache. */
  lemma HandleGuards(req: Request, cfg: Config, mem: map<string, Entry<Coord>>, now: int,
                     originFetch: Fetch<GeoData>, destFetch: Fetch<GeoData>, routeFetch: Fetch<RouteData>)
    ensures var out := Handle(req, cfg, mem, now, originFetch, destFetch, routeFetch);
      (req.verb == "OPTIONS" ==> out == Outcome(Response(200, NoBody), mem)) &&
      (req.verb != "OPTIONS" && req.verb != "POST" ==> out == Outcome(Response(405, ClientError(UsePost)), mem)) &&
      (req.verb == "POST" && req.body.Failure? ==> out == Outcome(Response(500, ServerError(req.body.error)), mem)) &&
      (req.verb == "POST" && req.body.Success? && !Truthy(req.body.value.enderecoTexto) ==>
         out == Outcome(Response(400, ClientError(EnderecoObrigatorio)), mem)) &&
      (req.verb == "POST" && req.body.Success? && Truthy(req.body.value.enderecoTexto) && !ProviderIsOrs(cfg) ==>
         out == Outcome(Response(400, ClientError(ApenasOrs)), mem))
  {
  }

  /** Past the guards: the origin is geocoded first and, when that fails, the
      answer is a 500 at step `geocode_origin` whatever the destination and
      route requests would have returned; likewise a failed destination
      geocode ends at `geocode_dest` whatever the route request would return. */
  lemma HandleStopsAtFirstFailure(req: Request, cfg: Config, mem: map<string, Entry<Coord>>, now: int,
                                  originFetch: Fetch<GeoData>, destFetch1: Fetch<GeoData>, destFetch2: Fetch<GeoData>,
                                  routeFetch1: Fetch<RouteData>, routeFetch2: Fetch<RouteData>)
    requires req.verb == "POST" && req.body.Success? && Truthy(req.body.value.enderecoTexto) && ProviderIsOrs(cfg)
    ensures var o := GeocodeSpec(mem, cfg.orsApiKey, OriginAddress(cfg), now, originFetch);
      o.result.Failure? ==>
        Handle(req, cfg, mem, now, originFetch, destFetch1, routeFetch1) ==
        Handle(req, cfg, mem, now, originFetch, destFetch2, routeFetch2) ==
        Outcome(Response(500, StepFailed(GeocodeOrigin, o.result.error)), o.mem)
    ensures var o := GeocodeSpec(mem, cfg.orsApiKey, OriginAddress(cfg), now, originFetch);
      var d := GeocodeSpec(o.mem, cfg.orsApiKey, NormalizaEnderecoComCidade(req.body.value.enderecoTexto.value), now, destFetch1);
      o.result.Success? && d.result.Failure? ==>
        Handle(req, cfg, mem, now, originFetch, destFetch1, routeFetch1) ==
        Handle(req, cfg, mem, now, originFetch, destFetch1, routeFetch2) ==
        Outcome(Response(500, StepFailed(GeocodeDest, d.result.error)), d.mem)
  {
  }

  /** Without an API key every request that passes the guards fails at the
      first step, `geocode_origin`, with the configuration error. */
  lemma HandleMissingKey(req: Request, cfg: Config, mem: map<string, Entry<Coord>>, now: int,
                         originFetch: Fetch<GeoData>, destFetch: Fetch<GeoData>, routeFetch: Fetch<RouteData>)
    requires req.verb == "POST" && req.body.Success? && Truthy(req.body.value.enderecoTexto) && ProviderIsOrs(cfg)
    requires !Truthy(cfg.orsApiKey)
    ensures Handle(req, cfg, mem, now, originFetch, destFetch, routeFetch) ==
      Outcome(Response(500, StepFailed(GeocodeOrigin, ConfigError)), mem)
  {
  }

  /** The body is priced exactly when the request is a POST that passes the
      guards and whose three steps all succeed; it then prices the route's
      leg (out of area included). */
  lemma {:induction false} HandleOk(req: Request, cfg: Config, mem: map<string, Entry<Coord>>, now: int,
                                    originFetch: Fetch<GeoData>, destFetch: Fetch<GeoData>, routeFetch: Fetch<RouteData>)
    ensures var out := Handle(req, cfg, mem, now, originFetch, destFetch, routeFetch);
      out.response.body.Priced? <==>
        req.verb == "POST" && req.body.Success? && Truthy(req.body.value.enderecoTexto) && ProviderIsOrs(cfg) &&
        var o := GeocodeSpec(mem, cfg.orsApiKey, OriginAddress(cfg), now, originFetch);
        var d := GeocodeSpec(o.mem, cfg.orsApiKey, NormalizaEnderecoComCidade(req.body.value.enderecoTexto.value), now, destFetch);
        var rota := OrsRouteKmMin(cfg.orsApiKey, routeFetch);
        o.result.Success? && d.result.Success? && rota.Success? &&
        out == Outcome(Response(200, PriceLeg(rota.value, cfg, req.body.value.totalItens)), d.mem)
  {
    var out := Handle(req, cfg, mem, now, originFetch, destFetch, routeFetch);
    if req.verb == "POST" && req.body.Success? && Truthy(req.body.value.enderecoTexto) && ProviderIsOrs(cfg) {
      var destino := NormalizaEnderecoComCidade(req.body.value.enderecoTexto.value);
      var o := GeocodeSpec(mem, cfg.orsApiKey, OriginAddress(cfg), now, originFetch);
      if o.result.Success? {
        var d := GeocodeSpec(o.mem, cfg.orsApiKey, destino, now, destFetch);
        if d.result.Success? {
          var rota := OrsRouteKmMin(cfg.orsApiKey, routeFetch);
          if rota.Success? {
            assert out == Outcome(Response(200, PriceLeg(rota.value, cfg, req.body.value.totalItens)), d.mem);
          } else {
            assert out.response.body == StepFailed(Route, rota.error);
          }
        } else {
          assert out.response.body == StepFailed(GeocodeDest, d.result.error);
        }
      } else {
        assert out.response.body == StepFailed(GeocodeOrigin, o.result.error);
      }
    }
  }

  /** A route beyond 15 km or 90 minutes is still a 200 answer: the fee is
      null with tier FORA_DA_AREA, and a waived order pays 0 all the same. */
  lemma HandleOutOfArea(leg: Leg, cfg: Config, totalItens: JsNumber)
    requires leg.km > 15.0 || leg.min > 90
    ensures var b := PriceLeg(leg, cfg, totalItens);
      b.valorBase.None? && b.tier == OutOfArea &&
      b.valorCobravel == (if b.isento then Some(0.0) else None)
  {
    OutOfAreaIff(leg.km, leg.min as real);
  }
}
