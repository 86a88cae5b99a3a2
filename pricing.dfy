/** The price table `PRICE_RULES` and its first-match lookup `aplicaTabela`
    (api/calcular-entrega.js). Distances are kilometres, durations minutes,
    fees reais; all are exact reals. */
module Pricing {
  import opened Wrappers

  /** One row of the table: the ceilings on distance and duration, the fee and
      the tier's label. */
  datatype Rule = Rule(kmMax: real, minMax: real, preco: real, nome: string)

  /** What `aplicaTabela` returns: `valorBase` is `null` (None) out of area. */
  datatype Quote = Quote(valorBase: Option<real>, tier: string)

  const OutOfArea: string := "FORA_DA_AREA"

  const PriceRules: seq<Rule> := [
    Rule(1.5, 10.0, 15.0, "0–1.5km / até 10min"),
    Rule(3.0, 20.0, 20.0, "1.501–3.0km / até 20min"),
    Rule(4.5, 30.0, 30.0, "3.01–4.5km / até 30min"),
    Rule(6.99, 45.0, 40.0, "4.5–6.99km / até 45min"),
    Rule(9.99, 60.0, 50.0, "7–9.99km / até 60min"),
    Rule(15.0, 90.0, 60.0, "10–15km / até 90min")
  ]

  /** A rule covers a trip when both ceilings are respected (inclusive). */
  predicate Fits(r: Rule, km: real, min: real)
  {
    km <= r.kmMax && min <= r.minMax
  }

  /** `i` is the first rule of `rules`, in table order, that covers the trip. */
  ghost predicate IsFirstFit(rules: seq<Rule>, km: real, min: real, i: int)
  {
    0 <= i < |rules| && Fits(rules[i], km, min) &&
    forall j :: 0 <= j < i ==> !Fits(rules[j], km, min)
  }

  /** Every column of the table strictly increases from one row to the next. */
  ghost predicate StrictlyAscending(rules: seq<Rule>)
  {
    forall i, j :: 0 <= i < j < |rules| ==>
      rules[i].kmMax < rules[j].kmMax &&
      rules[i].minMax < rules[j].minMax &&
      rules[i].preco < rules[j].preco
  }

  /** The loop of `aplicaTabela` over an arbitrary table: the first covering rule
      gives fee and label; when none covers the trip, the fee is null and the
      tier is FORA_DA_AREA. */
  function FirstFitQuote(rules: seq<Rule>, km: real, min: real): (q: Quote)
    ensures q.valorBase.None? ==>
      q.tier == OutOfArea && forall j :: 0 <= j < |rules| ==> !Fits(rules[j], km, min)
    ensures q.valorBase.Some? ==>
      exists i :: IsFirstFit(rules, km, min, i) && q == Quote(Some(rules[i].preco), rules[i].nome)
  {
    if rules == [] then Quote(None, OutOfArea)
    else if Fits(rules[0], km, min) then
      assert IsFirstFit(rules, km, min, 0);
      Quote(Some(rules[0].preco), rules[0].nome)
    else
      var q := FirstFitQuote(rules[1..], km, min);
      if q.valorBase.Some? then
        assert forall i :: IsFirstFit(rules[1..], km, min, i) ==> IsFirstFit(rules, km, min, i + 1);
        q
      else
        assert forall j :: 1 <= j < |rules| ==> rules[j] == rules[1..][j - 1];
        q
  }

  /** `aplicaTabela(km, min)` over the fixed table `PRICE_RULES`: a fee is found
      exactly when some rule covers the trip, and it is then the first such
      rule's fee and label; otherwise the tier is FORA_DA_AREA. */
  function AplicaTabela(km: real, min: real): (q: Quote)
    ensures q.valorBase.Some? <==>
      exists i :: 0 <= i < |PriceRules| && Fits(PriceRules[i], km, min)
    ensures q.valorBase.None? ==> q.tier == OutOfArea
    ensures q.valorBase.Some? ==>
      exists i :: IsFirstFit(PriceRules, km, min, i) &&
        q == Quote(Some(PriceRules[i].preco), PriceRules[i].nome)
  {
    FirstFitQuote(PriceRules, km, min)
  }

  lemma PriceRulesAscending()
    ensures StrictlyAscending(PriceRules)
  {
  }

  /** With the table's ceilings, a trip is out of area exactly when it exceeds
      15 km or 90 minutes. */
  lemma {:induction false} OutOfAreaIff(km: real, min: real)
    ensures AplicaTabela(km, min).valorBase.None? <==> km > 15.0 || min > 90.0
  {
    if km <= 15.0 && min <= 90.0 {
      assert Fits(PriceRules[5], km, min);
    } else {
      PriceRulesAscending();
      forall j | 0 <= j < |PriceRules|
        ensures !Fits(PriceRules[j], km, min)
      {
        assert j < 5 ==> PriceRules[j].kmMax < PriceRules[5].kmMax;
      }
    }
  }

  /** In a table whose columns ascend, the first match moves down the table (and
      the fee up) as the distance or the duration grows, and once out of area a
      longer trip stays out of area. */
  lemma {:induction false} FirstFitMonotone(rules: seq<Rule>, km1: real, min1: real, km2: real, min2: real)
    requires StrictlyAscending(rules)
    requires km1 <= km2 && min1 <= min2
    ensures FirstFitQuote(rules, km2, min2).valorBase.Some? ==>
      FirstFitQuote(rules, km1, min1).valorBase.Some? &&
      FirstFitQuote(rules, km1, min1).valorBase.value <= FirstFitQuote(rules, km2, min2).valorBase.value
  {
    var q1, q2 := FirstFitQuote(rules, km1, min1), FirstFitQuote(rules, km2, min2);
    if q2.valorBase.Some? {
      var i2 :| IsFirstFit(rules, km2, min2, i2) && q2 == Quote(Some(rules[i2].preco), rules[i2].nome);
      assert Fits(rules[i2], km1, min1);
      var i1 :| IsFirstFit(rules, km1, min1, i1) && q1 == Quote(Some(rules[i1].preco), rules[i1].nome);
      assert i1 <= i2;
      assert i1 < i2 ==> rules[i1].preco < rules[i2].preco;
    }
  }

  /** `aplicaTabela`'s fee never decreases as km or minutes grow. */
  lemma AplicaTabelaMonotone(km1: real, min1: real, km2: real, min2: real)
    requires km1 <= km2 && min1 <= min2
    ensures AplicaTabela(km2, min2).valorBase.Some? ==>
      AplicaTabela(km1, min1).valorBase.Some? &&
      AplicaTabela(km1, min1).valorBase.value <= AplicaTabela(km2, min2).valorBase.value
  {
    PriceRulesAscending();
    FirstFitMonotone(PriceRules, km1, min1, km2, min2);
  }

  /** Worked examples: a 2 km, 15 minute trip costs 20 in the second tier; a
      20 km, 100 minute trip is out of area; 1 km but 50 minutes costs 50. */
  lemma AplicaTabelaExamples()
    ensures AplicaTabela(2.0, 15.0) == Quote(Some(20.0), "1.501–3.0km / até 20min")
    ensures AplicaTabela(20.0, 100.0) == Quote(None, "FORA_DA_AREA")
    ensures AplicaTabela(1.0, 50.0) == Quote(Some(50.0), "7–9.99km / até 60min")
  {
    assert !Fits(PriceRules[0], 2.0, 15.0);
    assert PriceRules[1..][0] == PriceRules[1];
    OutOfAreaIff(20.0, 100.0);
    assert PriceRules[1..][1..][1..][1..] == PriceRules[4..];
  }
}
