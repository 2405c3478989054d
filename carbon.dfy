/** `CarbonCalculatorService`: two activities converted to kilograms of
    CO2 by fixed factors, summed, and described by a message that rates the
    total in one of four tiers. Numbers are exact reals; `Math.Round(x, 2)`
    and the "F2" formatting are function parameters. */
module Carbon {
  import opened Wrappers
  import Models

  /** kg of CO2 per km flown and per kg of red meat. */
  const AirTravelFactor: real := 0.115
  const RedMeatFactor: real := 27.0

  /** The two per-activity amounts. */
  datatype Footprint = Footprint(airTravelCO2: real, redMeatCO2: real) {
    function Total(): real {
      airTravelCO2 + redMeatCO2
    }
  }

  function Emissions(airTravelKm: real, redMeatKg: real): Footprint {
    Footprint(airTravelKm * AirTravelFactor, redMeatKg * RedMeatFactor)
  }

  /** With the non-negative inputs the request accepts, each amount is
      non-negative and at most the total, and the total is zero exactly
      when both inputs are. */
  lemma EmissionsNonNegative(airTravelKm: real, redMeatKg: real)
    requires airTravelKm >= 0.0 && redMeatKg >= 0.0
    ensures var f := Emissions(airTravelKm, redMeatKg);
      && 0.0 <= f.airTravelCO2 <= f.Total()
      && 0.0 <= f.redMeatCO2 <= f.Total()
      && (f.Total() == 0.0 <==> airTravelKm == 0.0 && redMeatKg == 0.0)
  {
  }

  /** More of either activity never lowers the total, and strictly more of
      one with no less of the other raises it. */
  lemma EmissionsMonotone(air1: real, meat1: real, air2: real, meat2: real)
    requires 0.0 <= air1 <= air2 && 0.0 <= meat1 <= meat2
    ensures Emissions(air1, meat1).Total() <= Emissions(air2, meat2).Total()
    ensures (air1 < air2 || meat1 < meat2) ==> Emissions(air1, meat1).Total() < Emissions(air2, meat2).Total()
  {
  }

  /** The conversion is additive: two requests together emit what they
      emit apart. */
  lemma EmissionsAdditive(air1: real, meat1: real, air2: real, meat2: real)
    ensures Emissions(air1 + air2, meat1 + meat2).Total() == Emissions(air1, meat1).Total() + Emissions(air2, meat2).Total()
  {
  }

  // ---------------------------------------------------------------------
  // Tiers
  // ---------------------------------------------------------------------

  datatype Tier = Low | Moderate | Significant | High

  function TierOf(total: real): Tier {
    if total < 10.0 then Low
    else if total < 50.0 then Moderate
    else if total < 100.0 then Significant
    else High
  }

  function TierRank(t: Tier): nat {
    match t
    case Low => 0
    case Moderate => 1
    case Significant => 2
    case High => 3
  }

  /** Each tier is the half-open band below its upper bound, so 10, 50 and
      100 belong to the higher tier. */
  lemma TierBands(total: real)
    ensures TierOf(total) == Low <==> total < 10.0
    ensures TierOf(total) == Moderate <==> 10.0 <= total < 50.0
    ensures TierOf(total) == Significant <==> 50.0 <= total < 100.0
    ensures TierOf(total) == High <==> 100.0 <= total
  {
  }

  /** A larger total never gets a lower tier. */
  lemma TierMonotone(x: real, y: real)
    requires x <= y
    ensures TierRank(TierOf(x)) <= TierRank(TierOf(y))
  {
  }

  // ---------------------------------------------------------------------
  // The message
  // ---------------------------------------------------------------------

  /** The whole message for a zero total, in its two sentences. */
  const ZeroMessage := "No carbon emissions calculated. " + "Great job on having zero footprint!"
  const Opening := "Your activities generated "

  /** How the tier rates the footprint. */
  function Rating(t: Tier): string {
    match t
    case Low => "relatively low"
    case Moderate => "moderate"
    case Significant => "significant"
    case High => "high"
  }

  function Advice(t: Tier): string {
    match t
    case Low => "Keep up the eco-friendly choices!"
    case Moderate => "Consider reducing air travel or meat consumption to lower your impact."
    case Significant => "You might want to explore more sustainable alternatives."
    case High => "Consider making substantial changes to reduce your environmental impact."
  }

  /** The closing assessment of a non-zero message. */
  function TierSentence(t: Tier): string {
    "This is a " + Rating(t) + " carbon footprint. " + Advice(t)
  }

  function Breakdown(airTravelCO2: real, redMeatCO2: real, format: real -> string): string {
    "Air travel contributed " + format(airTravelCO2) + " kg and red meat consumption contributed " + format(redMeatCO2) + " kg. "
  }

  /** `GenerateMessage`: for a zero total the zero-footprint message alone;
      otherwise the total, the breakdown and the tier's sentence. */
  function GenerateMessage(totalCO2: real, airTravelCO2: real, redMeatCO2: real, format: real -> string): (m: string)
    ensures m == ZeroMessage <==> totalCO2 == 0.0
    ensures totalCO2 != 0.0 ==> EndsWith(m, TierSentence(TierOf(totalCO2)))
  {
    if totalCO2 == 0.0 then ZeroMessage
    else
      var head := Opening + format(totalCO2);
      var closing := TierSentence(TierOf(totalCO2));
      Parts(head, " kg of CO2 emissions. ", Breakdown(airTravelCO2, redMeatCO2, format), closing);
      FirstOf(Opening, format(totalCO2));
      FirstOf("No carbon emissions calculated. ", "Great job on having zero footprint!");
      head + " kg of CO2 emissions. " + Breakdown(airTravelCO2, redMeatCO2, format) + closing
  }

  /** Where the rating sits in an assessment sentence: right after
      "This is a ". */
  lemma RatingAt(t: Tier)
    ensures |TierSentence(t)| > 10 && TierSentence(t)[10] == Rating(t)[0]
  {
    var lead := "This is a ";
    assert |lead| == 10;
    FirstAfter(lead, Rating(t), " carbon footprint. " + Advice(t));
  }

  /** No two tiers share an assessment sentence: the ratings already
      differ in their first letter. */
  lemma TierSentenceInjective(t1: Tier, t2: Tier)
    requires TierSentence(t1) == TierSentence(t2)
    ensures t1 == t2
  {
    RatingAt(t1);
    RatingAt(t2);
  }

  lemma FirstOf(a: string, b: string)
    requires |a| > 0
    ensures (a + b)[0] == a[0]
  {
  }

  lemma FirstAfter(a: string, b: string, c: string)
    requires |b| > 0
    ensures |a + b + c| > |a| && (a + b + c)[|a|] == b[0]
  {
  }

  predicate EndsWith(s: string, suffix: string) {
    |suffix| <= |s| && s[|s| - |suffix|..] == suffix
  }

  /** Where the three parts of a message sit. */
  lemma Parts(head: string, rest: string, breakdown: string, closing: string)
    ensures var m := head + rest + breakdown + closing;
      && m[..|head|] == head
      && m[|head| + |rest|..|head| + |rest| + |breakdown|] == breakdown
      && EndsWith(m, closing)
  {
    var m := head + rest + breakdown + closing;
    assert m[|m| - |closing|..] == closing;
  }

  /** Every other message opens with the total and follows it with the
      breakdown. */
  lemma MessageShape(totalCO2: real, airTravelCO2: real, redMeatCO2: real, format: real -> string)
    requires totalCO2 != 0.0
    ensures var m := GenerateMessage(totalCO2, airTravelCO2, redMeatCO2, format);
      var head := Opening + format(totalCO2);
      var b := Breakdown(airTravelCO2, redMeatCO2, format);
      && m[..|head|] == head
      && m[|head| + 22..|head| + 22 + |b|] == b
  {
    var rest := " kg of CO2 emissions. ";
    assert |rest| == 22;
    Parts(Opening + format(totalCO2), rest, Breakdown(airTravelCO2, redMeatCO2, format), TierSentence(TierOf(totalCO2)));
  }

  /** `CalculateCO2`: the rounded total and the message built from the
      unrounded amounts. */
  function CalculateCO2(airTravelKm: real, redMeatKg: real, round: real -> real, format: real -> string): (r: Models.CarbonCalculationResponse)
    ensures var total := airTravelKm * AirTravelFactor + redMeatKg * RedMeatFactor;
      && r.totalCO2 == round(total)
      && (r.message == ZeroMessage <==> total == 0.0)
      && (total != 0.0 ==> EndsWith(r.message, TierSentence(TierOf(total))))
  {
    var f := Emissions(airTravelKm, redMeatKg);
    Models.CarbonCalculationResponse(round(f.Total()), GenerateMessage(f.Total(), f.airTravelCO2, f.redMeatCO2, format))
  }

  /** For a valid request the response reports the rounded sum of the two
      conversions, and its message is the zero-footprint one exactly when
      nothing was flown or eaten, otherwise one that announces the tier of
      the unrounded total. */
  lemma CalculateCO2Reports(airTravelKm: real, redMeatKg: real, round: real -> real, format: real -> string)
    requires airTravelKm >= 0.0 && redMeatKg >= 0.0
    ensures var r := CalculateCO2(airTravelKm, redMeatKg, round, format);
      var total := airTravelKm * AirTravelFactor + redMeatKg * RedMeatFactor;
      && r.totalCO2 == round(total)
      && (r.message == ZeroMessage <==> airTravelKm == 0.0 && redMeatKg == 0.0)
      && (total != 0.0 ==> EndsWith(r.message, TierSentence(TierOf(total))))
  {
    var f := Emissions(airTravelKm, redMeatKg);
    var total := f.Total();
    assert total == airTravelKm * AirTravelFactor + redMeatKg * RedMeatFactor;
    EmissionsNonNegative(airTravelKm, redMeatKg);
  }
}
