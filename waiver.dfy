/** The fee waiver: `ISENCAO_NIVEIS` and the lines of the handler that decide
    `isento` and `valorCobravel` (api/calcular-entrega.js). */
module Waiver {
  import opened Wrappers
  import opened Js

  /** Waiver level to minimum item total; level 7 means "no waiver" (null). */
  const IsencaoNiveis: map<int, Option<real>> := map[
    1 := Some(250.0), 2 := Some(250.0), 3 := Some(300.0), 4 := Some(400.0),
    5 := Some(500.0), 6 := Some(500.0), 7 := None
  ]

  /** `Number(process.env.ISENCAO_NIVEL || "1")`: `env` is the variable already
      converted to a number, None when it is unset or empty. */
  function Nivel(env: Option<JsNumber>): (n: JsNumber)
    ensures env.None? ==> n == Finite(1.0)
    ensures env.Some? ==> n == env.value
  {
    match env
    case None => Finite(1.0)
    case Some(v) => v
  }

  /** `ISENCAO_NIVEIS[nivel] ?? null`: only a number whose property key names a
      table entry finds one, i.e. an integral value from 1 to 7. */
  function IsencaoMin(nivel: JsNumber): (t: Option<real>)
    ensures t.Some? <==>
      exists k :: k in IsencaoNiveis && IsencaoNiveis[k].Some? && nivel == Finite(k as real)
    ensures t.Some? ==> nivel.Finite? && IsencaoNiveis[nivel.value.Floor] == t
    ensures t.Some? ==> 250.0 <= t.value <= 500.0
  {
    if nivel.Finite? && nivel.value.Floor as real == nivel.value && nivel.value.Floor in IsencaoNiveis
    then IsencaoNiveis[nivel.value.Floor]
    else None
  }

  /** `isento`: the level has a threshold and the item total reaches it; so a
      waived order always has at least R$ 250 of items (or an infinite total). */
  predicate Isento(nivel: JsNumber, totalItens: JsNumber)
    ensures Isento(nivel, totalItens) ==> IsencaoMin(nivel).Some?
    ensures Isento(nivel, totalItens) ==>
      totalItens.PosInf? || (totalItens.Finite? && totalItens.value >= 250.0)
  {
    var t := IsencaoMin(nivel);
    t.Some? && AtLeast(totalItens, t.value)
  }

  /** `valorCobravel`: nothing to pay when waived, otherwise the table's fee
      (which is null out of area). */
  function ValorCobravel(isento: bool, valorBase: Option<real>): (v: Option<real>)
    ensures v.Some? <==> isento || valorBase.Some?
    ensures v.Some? ==> v.value == (if isento then 0.0 else valorBase.value)
  {
    if isento then Some(0.0) else valorBase
  }

  /** The waiver holds exactly when the configured level is one of 1..6 and the
      total is at least that level's threshold. */
  lemma IsentoIff(nivel: JsNumber, totalItens: JsNumber)
    ensures Isento(nivel, totalItens) <==>
      exists k :: 1 <= k <= 6 && nivel == Finite(k as real) &&
        AtLeast(totalItens, IsencaoNiveis[k].value)
  {
    if Isento(nivel, totalItens) {
      var k := nivel.value.Floor;
      assert 1 <= k <= 6 && nivel == Finite(k as real);
    }
  }

  /** Level 7, levels missing from the table and a NaN total never waive; the
      default level is 1, whose threshold is 250. */
  lemma NoWaiverCases(nivel: JsNumber, totalItens: JsNumber)
    ensures nivel == Finite(7.0) ==> !Isento(nivel, totalItens)
    ensures !(nivel.Finite? && nivel.value in {1.0, 2.0, 3.0, 4.0, 5.0, 6.0}) ==> !Isento(nivel, totalItens)
    ensures totalItens == NaN ==> !Isento(nivel, totalItens)
    ensures IsencaoMin(Nivel(None)) == Some(250.0)
  {
    if Isento(nivel, totalItens) {
      IsentoIff(nivel, totalItens);
    }
  }

  /** For a fixed level, raising the total never switches the waiver off. */
  lemma IsentoMonotone(nivel: JsNumber, total1: JsNumber, total2: JsNumber)
    requires LessEq(total1, total2)
    ensures Isento(nivel, total1) ==> Isento(nivel, total2)
  {
  }

  /** Threshold 250 (level 1) and a total of 300: waived, nothing to pay. */
  lemma WaiverExample(valorBase: Option<real>)
    ensures Isento(Finite(1.0), Finite(300.0))
    ensures ValorCobravel(Isento(Finite(1.0), Finite(300.0)), valorBase) == Some(0.0)
  {
  }
}
