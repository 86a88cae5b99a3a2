# Delivery fee calculator — a verified model

This project models the fee logic of the delivery endpoint `api/calcular-entrega.js`. Given a free-text delivery address and the order's item total, the endpoint:

- completes the address with a city: the default, Porto Alegre;
- geocodes the store's address and the customer's through OpenRouteService (ORS), with a 30-minute in-process cache;
- asks ORS for the driving route between them;
- converts the route into kilometres and whole minutes;
- prices the trip with an ordered first-match table (`PRICE_RULES`);
- waives the fee when the item total reaches the threshold of the configured waiver level (`ISENCAO_NIVEIS`).

The model has one module per concern:

| module | file | what it holds |
|---|---|---|
| `Wrappers` | wrappers.dfy | `Option`, `Result` |
| `Js` | js.dfy | JavaScript numbers (NaN, ±Infinity, finite), truthiness and `||` on optional strings, the `\s` whitespace class, `toLowerCase`, case-insensitive matching with the `i` flag against a pattern of ASCII letters, as here, where only ASCII letters match case-insensitively |
| `Pricing` | pricing.dfy | `PRICE_RULES`, `aplicaTabela` as a recursive first-fit over the table |
| `Waiver` | waiver.dfy | `ISENCAO_NIVEIS`, the level lookup, `isento`, `valorCobravel` |
| `Memo` | memo.dfy | the cache `mem` as class `MemoCache` with a map field; `memo` and `getMemo` as methods taking the clock `now` |
| `Address` | address.dfy | `normalizaEnderecoComCidade`: trim, whitespace collapsing, each regular expression as a predicate over the characters |
| `Ors` | ors.dfy | `geocodeORS` against the cache, and the post-processing of `orsRouteKmMin` |
| `Delivery` | delivery.dfy | `handler`, as a specification function `Handle` and an imperative method `Handler` proved equal to it |

Every network exchange is an input: a `Fetch` value says whether the request was rejected, came back with a non-2xx status, or produced a JSON body. The environment variables are a `Config` value. The clock is an integer `now` in milliseconds.

## Model

| member | source | states |
|---|---|---|
| Js.OrDefault | api/calcular-entrega.js:130 | `s || d` on an optional string: the string when it is present and non-empty, otherwise the default |
| Js.AtLeast | api/calcular-entrega.js:154 | `x >= y` against a finite threshold: false for NaN and −Infinity, true for +Infinity |
| Js.IsSpace | api/calcular-entrega.js:41-44 | space, tab, line feed and carriage return are whitespace, and no whitespace lies strictly between U+0020 and U+00A0 |
| Js.LowerChar | api/calcular-entrega.js:64 | upper-case ASCII letters and the Latin-1 capitals U+00C0–U+00DE (except ×, U+00D7) map 32 code points up; every other character is unchanged; no result is an upper-case ASCII letter |
| Js.Lower | api/calcular-entrega.js:64 | the model's lowering keeps the length and lowers character by character |
| Js.CiEq | api/calcular-entrega.js:47-48 | against a lower-case ASCII pattern letter, a character matches iff it is that letter or its upper-case form; against a non-letter, only the character itself matches |
| Js.AsciiFold | api/calcular-entrega.js:47-48 | upper-case ASCII letters map 32 code points up, every other character is unchanged, and no result is an upper-case ASCII letter |
| Pricing.FirstFitQuote | api/calcular-entrega.js:113-116 | no fee and tier FORA_DA_AREA exactly when no rule fits; otherwise the fee and label of the first fitting rule in table order |
| Pricing.PriceRulesAscending | api/calcular-entrega.js:5-12 | in the table `PRICE_RULES`, km ceilings, minute ceilings and fees all strictly increase down the table |
| Pricing.AplicaTabela | api/calcular-entrega.js:113-116 | over `PRICE_RULES`: a fee is found iff some rule covers (km, min); it is then the first such rule's fee and label; otherwise the tier is FORA_DA_AREA |
| Pricing.OutOfAreaIff | api/calcular-entrega.js:5-12 | out of area iff km > 15 or min > 90 |
| Pricing.FirstFitMonotone | api/calcular-entrega.js:113-116 | on any table with ascending columns, a longer trip that is priced implies the shorter one is priced no higher |
| Pricing.AplicaTabelaMonotone | api/calcular-entrega.js:5-12 | the fee never decreases as km or minutes grow, and a shorter trip is never out of area when a longer one is priced |
| Pricing.AplicaTabelaExamples | api/calcular-entrega.js:5-12 | (2 km, 15 min) costs 20 in tier "1.501–3.0km / até 20min"; (20, 100) is out of area; (1 km, 50 min) costs 50 |
| Waiver.Nivel | api/calcular-entrega.js:152 | an unset level is 1; a set one is its number as given |
| Waiver.IsencaoMin | api/calcular-entrega.js:153 | a threshold exists iff the level is exactly an integral key of `ISENCAO_NIVEIS` whose entry is not null; it is that entry, between 250 and 500 |
| Waiver.Isento | api/calcular-entrega.js:154 | a waived order's level has a threshold, and its total is +Infinity or a number of at least 250 |
| Waiver.ValorCobravel | api/calcular-entrega.js:155 | 0 when waived, otherwise the table fee (null out of area) |
| Waiver.IsentoIff | api/calcular-entrega.js:152-154 | waived iff the level is one of 1..6 and the total is at least that level's threshold |
| Waiver.NoWaiverCases | api/calcular-entrega.js:14-15 | level 7, levels outside the table and a NaN total never waive; the default level's threshold is 250 |
| Waiver.IsentoMonotone | api/calcular-entrega.js:154 | for a fixed level, raising the total never switches the waiver off |
| Waiver.WaiverExample | api/calcular-entrega.js:154-155 | level 1 with total 300 is waived and pays 0, whatever the base fee |
| Memo.Lookup | api/calcular-entrega.js:27-30 | a value is returned iff the key has an entry at most `ttl` old, and it is the stored value |
| Memo.AfterLookup | api/calcular-entrega.js:29 | a read deletes the key's entry exactly when it is stale, and changes no other entry |
| Memo.MemoCache.constructor | api/calcular-entrega.js:25 | the cache starts empty |
| Memo.MemoCache.Memo | api/calcular-entrega.js:26 | stores the value under the key stamped `now`, returns it, and leaves every other key alone |
| Memo.MemoCache.GetMemo | api/calcular-entrega.js:27-31 | returns what `Lookup` finds and leaves the map `AfterLookup` describes; a stale entry is removed and reported absent |
| Memo.MemoThenLookup | api/calcular-entrega.js:26-30 | a value stored at t0 is read back iff now − t0 ≤ ttl (an entry exactly ttl old is still fresh); storing under one key changes no read of another |
| Memo.AfterLookupOnlyEvictsStale | api/calcular-entrega.js:28-30 | a read removes at most the key it reads, never a fresh entry, and a missed key is absent afterwards |
| Ors.GeoKey | api/calcular-entrega.js:64 | the cache key is "geo:" followed by the lower-cased text |
| Ors.ParseGeocode | api/calcular-entrega.js:71-76 | a non-2xx status is GEOCODE_FAIL with status and text; no first feature is GEOCODE_EMPTY; otherwise the first feature's [lng, lat] becomes {lat, lng} |
| Ors.GeocodeSpec | api/calcular-entrega.js:61-77 | without an API key: the configuration error and the cache unchanged; a success leaves its coordinates in the cache under the text's key; no other key gains, loses or changes an entry |
| Ors.GeocodeOrs | api/calcular-entrega.js:61-77 | the geocoding call against the shared cache has exactly the result and the new cache contents of `GeocodeSpec` |
| Ors.GeocodeNeedsKey | api/calcular-entrega.js:62-63 | without an API key geocoding fails with the configuration error and leaves the cache alone |
| Ors.GeocodeCacheHit | api/calcular-entrega.js:64-65 | a fresh entry under the key answers the call whatever the network would return, and the cache is unchanged |
| Ors.GeocodeMiss | api/calcular-entrega.js:71-76 | on a miss the result is the parsed answer; only a success is stored, under the key, stamped `now`; every other key keeps its entry |
| Ors.GeocodeRepeatHits | api/calcular-entrega.js:64-76 | after a successful fetch, a request for any text with the same lower-case form within 30 minutes returns the same coordinates whatever the network answers |
| Ors.ParseGeocodeExample | api/calcular-entrega.js:73-75 | [-51.2, -30.0] becomes {lat: -30.0, lng: -51.2}; an empty or missing feature list is GEOCODE_EMPTY |
| Ors.Ceil | api/calcular-entrega.js:107 | `Math.ceil`: the least integer not below x |
| Ors.Minutes | api/calcular-entrega.js:107 | at least 1 and covers the duration (60·m ≥ seconds); unless it is 1, one minute less would not cover it |
| Ors.FirstSegment | api/calcular-entrega.js:100 | a segment is found iff every step of the optional path exists and both lists are non-empty, and it is then `features[0].properties.segments[0]` |
| Ors.OrsRouteKmMin | api/calcular-entrega.js:85-110 | no key is a configuration error; a non-2xx status is ROUTE_FAIL; a first segment without numeric distance and duration is ROUTE_EMPTY; otherwise km·1000 is the distance and min is `Minutes(duration)` |
| Ors.RouteMinutesBounds | api/calcular-entrega.js:106-107 | every returned route has min ≥ 1 and 60·min ≥ duration; unless min is 1, one minute less would not cover the duration |
| Ors.MinutesExamples | api/calcular-entrega.js:107 | 30 s, 0 s and negative durations give 1 minute; 61 s gives 2; 600 s gives 10 |
| Address.SkipSpaces | api/calcular-entrega.js:41 | the end of the whitespace run starting at i: everything before it is whitespace and the character at it is not |
| Address.BackSpaces | api/calcular-entrega.js:41 | the start of the whitespace run ending at j: everything after it is whitespace and the character before it is not |
| Address.Trim | api/calcular-entrega.js:41-42 | the trimmed text is a slice of the input with only whitespace cut off before and after it; it has no whitespace at either end, and is empty exactly when the input is all whitespace |
| Address.TrimFixed | api/calcular-entrega.js:41 | trimming a text with no edge whitespace changes nothing |
| Address.Collapse | api/calcular-entrega.js:44 | `replace(/\s+/g, " ")` never lengthens the text, and the result is empty only for empty input |
| Address.CollapseShape | api/calcular-entrega.js:44 | after `replace(/\s+/g, " ")` every whitespace is a single plain space, and the result has whitespace at an end exactly when the input has |
| Address.CollapseConsWord | api/calcular-entrega.js:44 | a non-whitespace character is kept in front of the collapsed rest |
| Address.CollapseConsDrop | api/calcular-entrega.js:44 | a whitespace character followed by more whitespace contributes nothing of its own: the run is collapsed from its second character |
| Address.CollapseConsSpace | api/calcular-entrega.js:44 | the last whitespace character of a run becomes exactly one space in front of the collapsed rest; with the two rules above and `Collapse("") == ""` this determines the result of `replace(/\s+/g, " ")` on every text |
| Address.CollapseRun | api/calcular-entrega.js:44 | a non-empty all-whitespace text collapses to exactly one space |
| Address.CollapseConcat | api/calcular-entrega.js:44 | collapsing a join that does not split a whitespace run is joining the two collapsed parts |
| Address.CollapseBetweenWords | api/calcular-entrega.js:44 | between two words, a whitespace run of any length becomes exactly one space: it is neither kept nor removed |
| Address.CollapseExample | api/calcular-entrega.js:44 | "a  b" collapses to "a b" |
| Address.CollapseSqueeze | api/calcular-entrega.js:44 | collapsing keeps every non-whitespace character, in order |
| Address.CollapseFixed | api/calcular-entrega.js:44 | collapsing a single-spaced text changes nothing |
| Address.MentionsPortoAlegre | api/calcular-entrega.js:47 | a consequence of `/porto\s*alegre/i`, not its meaning (the body is the pattern; see MentionsPrefix, MentionsSuffix, CityNameFacts): only a text of at least 11 characters matches |
| Address.MentionsRs | api/calcular-entrega.js:48 | a consequence of the state pattern ("RS" or "Rio Grande do Sul", any case), not its meaning (the body is the pattern; see StateCountryFacts, NormalizeRsInsideWord): only a text of at least 2 characters matches |
| Address.IsCityChar | api/calcular-entrega.js:53 | the class `[A-Za-zÀ-ÿ'.\-\s]` admits every whitespace and never a comma |
| Address.OptBrasil | api/calcular-entrega.js:53 | a tail matching `(?:\s*,\s*Brasil)?\s*$` that starts with a non-whitespace character starts with a comma and has at least 7 characters |
| Address.TemCidade | api/calcular-entrega.js:53 | a consequence of `TEM_CIDADE`, not its meaning (the body is the pattern; TemCidadeLastComma states what it matches): a matching text has at least 3 characters and contains a comma |
| Address.Complete | api/calcular-entrega.js:46-57 | naming Porto Alegre and the state: the text itself; Porto Alegre without the state: the text + ", RS, Brasil"; no Porto Alegre but `TEM_CIDADE`: the text itself; otherwise the text + ", Porto Alegre - RS, Brasil" |
| Address.MentionsPrefix | api/calcular-entrega.js:47-48 | text appended after a mention of Porto Alegre or of the state leaves the mention in place |
| Address.MentionsSuffix | api/calcular-entrega.js:47-48 | text prepended before a mention of Porto Alegre or of the state leaves the mention in place |
| Address.CityNameFacts | api/calcular-entrega.js:42 | "Porto Alegre" satisfies `/porto\s*alegre/i` and is single-spaced with no edge whitespace |
| Address.StateCountryFacts | api/calcular-entrega.js:48 | "RS, Brasil" satisfies `/(RS|Rio Grande do Sul)/i` and is single-spaced with no edge whitespace |
| Address.RsSuffixMentionsRs | api/calcular-entrega.js:48 | appending ", RS, Brasil" makes any text mention the state |
| Address.DefaultAddressMentions | api/calcular-entrega.js:42 | the default address mentions both Porto Alegre and the state |
| Address.PoaSuffixMentionsCityAndState | api/calcular-entrega.js:57 | appending ", Porto Alegre - RS, Brasil" makes any text mention both |
| Address.DefaultAddressSpacing | api/calcular-entrega.js:42 | the default address is single-spaced with no edge whitespace |
| Address.SuffixesShape | api/calcular-entrega.js:48-57 | both appended suffixes are single-spaced with no edge whitespace |
| Address.CompleteShape | api/calcular-entrega.js:46-57 | on a single-spaced text with no edge whitespace every branch gives a non-empty such text that extends the input |
| Address.NormalizaEnderecoComCidade | api/calcular-entrega.js:40-58 | every result is non-empty; all-whitespace input gives exactly "Porto Alegre - RS, Brasil"; otherwise the trimmed, collapsed input is a prefix of the result |
| Address.NormalizeShape | api/calcular-entrega.js:40-58 | every result is single-spaced, with no whitespace at either end |
| Address.NormalizeKeeps | api/calcular-entrega.js:46-54 | a text in output shape that names Porto Alegre and the state, or names no Porto Alegre but ends in a comma and a city, is returned unchanged |
| Address.CompleteIdempotent | api/calcular-entrega.js:46-57 | whichever branch is taken, normalising its result returns it unchanged |
| Address.NormalizeIdempotent | api/calcular-entrega.js:40-58 | normalising twice is normalising once |
| Address.NormalizeNamesCity | api/calcular-entrega.js:40-58 | every result mentions Porto Alegre or ends in an explicit city after a comma |
| Address.BrasilTailIsCityRun | api/calcular-entrega.js:53 | after a comma, whitespace + "Brasil" + whitespace is itself a run of city characters |
| Address.TemCidadeLastComma | api/calcular-entrega.js:53 | `TEM_CIDADE` holds iff the text after some comma is two or more city characters: the optional ", Brasil" group adds no match |
| Address.NoPNoPortoAlegre | api/calcular-entrega.js:47 | a text with no "p" in either case cannot match `/porto\s*alegre/i` |
| Address.NormalizeNoComma | api/calcular-entrega.js:54-57 | a text in output shape with no comma that does not name Porto Alegre gets ", Porto Alegre - RS, Brasil" appended |
| Address.NormalizeBareCity | api/calcular-entrega.js:51-57 | a bare "Canoas" becomes "Canoas, Porto Alegre - RS, Brasil" |
| Address.NormalizeCityAfterComma | api/calcular-entrega.js:51-54 | "Centro, Canoas" is kept as written |
| Address.NormalizeRsInsideWord | api/calcular-entrega.js:48 | the state test is a substring search: "Av. Universidade, Porto Alegre" counts as naming the state and is returned without ", RS, Brasil" |
| Delivery.ProviderIsOrs | api/calcular-entrega.js:130-131 | an unset or empty USE_PROVIDER selects ORS; a set one selects it exactly when it is "ors" in any ASCII case ("ORS", "Ors" accepted, "osm" refused) |
| Delivery.LowerOrs | api/calcular-entrega.js:130 | a text lowers to "ors" exactly when it equals "ors" up to ASCII case |
| Delivery.OriginAddress | api/calcular-entrega.js:137 | an unset or empty ORIGIN_ADDRESS gives "Porto Alegre - RS, Brasil"; a set, non-empty one is used as written |
| Delivery.PriceLeg | api/calcular-entrega.js:149-155 | the success body carries the route's km and min, the table's fee and tier for them, the waiver decided by the level and total, and 0 or the fee to pay |
| Delivery.Handler | api/calcular-entrega.js:119-173 | the step-by-step handler returns exactly the response, and leaves exactly the cache, that `Handle` specifies |
| Delivery.HandleGuards | api/calcular-entrega.js:121-131 | OPTIONS gives 200; another non-POST gives 405; an unreadable body gives 500; a missing address gives 400 before the provider is checked; a provider other than "ors" gives 400; no guard touches the cache |
| Delivery.HandleStopsAtFirstFailure | api/calcular-entrega.js:139-147 | a failed origin geocode ends at step geocode_origin whatever the later requests would return; a failed destination geocode ends at geocode_dest whatever the route would return |
| Delivery.HandleMissingKey | api/calcular-entrega.js:140-141 | without an API key every request past the guards fails at geocode_origin with the configuration error |
| Delivery.Handle | api/calcular-entrega.js:119-173 | the status is always 200, 400, 405 or 500, and 200 only for OPTIONS or a priced body; a request stopped by a guard leaves the cache as it was |
| Delivery.HandleOk | api/calcular-entrega.js:146-167 | the body is priced iff the request passes the guards and all three steps succeed, and it then prices the route's leg with the cache left by the two geocodes |
| Delivery.HandleOutOfArea | api/calcular-entrega.js:150-155 | a route beyond 15 km or 90 minutes is still priced (status OK) with no fee and tier FORA_DA_AREA; a waived order pays 0, any other pays null |

## Left out

- The requests themselves are not modelled: `fetch`, URLs, headers, request bodies and `encodeURIComponent` (api/calcular-entrega.js:67-70, :88-96). Their outcomes are the `Fetch` parameters, so TRANSPORT_PROFILE, which only enters the route URL, does not appear.
- `cors` and the response headers; `console.error` in the outer catch.
- The text of the error messages (`"GEOCODE_FAIL: " + status + " " + text`, …) is not rendered. Each error is a constructor of `Ors.Err` carrying the same data, and the step-failure body carries that error.
- The body of the outer `catch` is reached only through a request body that cannot be read. That path is modelled as a 500 with the thrown message (`Request.body` is a `Failure`). `JSON.parse` itself is not modelled.
- Fields of the request body are taken as already converted. `enderecoTexto` is an optional string, and the `String(...)` coercion of a non-string value is not modelled. `totalItens` is the result of `Number(...)`.
- Delivery.PriceLeg: km is kept unrounded. `+km.toFixed(2)` and `Math.round(min)` in the response, and the `labelIsencao` text built with `toFixed(2)`, are number rendering and are not modelled. `Math.round(min)` changes nothing, because min is already whole.
- Js.Lower: `toLowerCase` is modelled for ASCII and the Latin-1 upper-case letters only. Other scripts keep their case in the model. So two geocoding texts that differ only in, say, Greek letter case get different cache keys here, and the same key in the source.
- Each request uses one clock reading `now`. The source reads `Date.now()` separately in each cache call. Within one request the difference is not modelled.
- JSON numbers are finite reals. A coordinate or a duration that overflows to Infinity is not modelled. A geocoding feature is assumed to carry a two-element `geometry.coordinates`: a feature whose geometry is missing makes the source throw a TypeError, which is not modelled.
- Concurrency: several requests interleaving on the shared cache are not modelled. Each `Handler` call runs to completion.
- `sw.js` (the browser service worker) is not part of this model: it consists of Cache Storage and `fetch` event plumbing.
- The handler has one provider path, ORS. Out of area is answered with HTTP 200, `status: "OK"` and tier FORA_DA_AREA.
