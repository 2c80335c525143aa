/** The maritime classifiers of api/weather.js (formatMaritimeWeather and the
    helpers it calls, lines 63-131).  A reading that is absent, or that is 0
    and so falsy in JavaScript, is None. */
module Weather {
  import opened Wrappers

  /** The logical-or fallback to the N/A placeholder: an absent reading and a
      reading equal to zero are both missing; any other reading passes through. */
  function OrMissing<T(==)>(raw: Option<T>, zero: T): (r: Option<T>)
    ensures r.None? <==> raw.None? || raw == Some(zero)
    ensures r.Some? ==> r == raw
  {
    match raw
    case Some(v) => if v == zero then None else raw
    case None => None
  }

  // ---------------------------------------------------------------- sea state

  datatype SeaState = SeaUnknown | Calm | Light | Moderate | Choppy | Rough | VeryRough

  function SeaStateText(s: SeaState): string {
    match s
    case SeaUnknown => "Unknown"
    case Calm => "Calm (0-1 ft)"
    case Light => "Light (1-2 ft)"
    case Moderate => "Moderate (2-3 ft)"
    case Choppy => "Choppy (3-5 ft)"
    case Rough => "Rough (5-8 ft)"
    case VeryRough => "Very Rough (8+ ft)"
  }

  /** Position of a known sea state on the scale from calm to very rough. */
  function Severity(s: SeaState): int {
    match s
    case SeaUnknown => -1
    case Calm => 0
    case Light => 1
    case Moderate => 2
    case Choppy => 3
    case Rough => 4
    case VeryRough => 5
  }

  /** estimateSeaState: the band of a wind speed in whole knots. */
  function EstimateSeaState(windKnots: Option<int>): (r: SeaState)
    ensures r == SeaUnknown <==> windKnots.None?
    ensures r == Calm <==> windKnots.Some? && windKnots.value < 4
    ensures r == Light <==> windKnots.Some? && 4 <= windKnots.value < 7
    ensures r == Moderate <==> windKnots.Some? && 7 <= windKnots.value < 11
    ensures r == Choppy <==> windKnots.Some? && 11 <= windKnots.value < 17
    ensures r == Rough <==> windKnots.Some? && 17 <= windKnots.value < 22
    ensures r == VeryRough <==> windKnots.Some? && windKnots.value >= 22
  {
    match windKnots
    case None => SeaUnknown
    case Some(w) =>
      if w < 4 then Calm
      else if w < 7 then Light
      else if w < 11 then Moderate
      else if w < 17 then Choppy
      else if w < 22 then Rough
      else VeryRough
  }

  /** More wind never gives a calmer sea state. */
  lemma SeaStateMonotone(a: int, b: int)
    requires a <= b
    ensures 0 <= Severity(EstimateSeaState(Some(a))) <= Severity(EstimateSeaState(Some(b)))
  {
  }

  // --------------------------------------------------------------- conditions

  datatype Conditions = ConditionsUnknown | Poor | Fair | Good

  function ConditionsText(c: Conditions): string {
    match c
    case ConditionsUnknown => "Unknown"
    case Poor => "Poor - Small craft advisory"
    case Fair => "Fair - Use caution"
    case Good => "Good - Favorable conditions"
  }

  /** Position of a known category on the scale from poor to good. */
  function Rank(c: Conditions): int {
    match c
    case ConditionsUnknown => -1
    case Poor => 0
    case Fair => 1
    case Good => 2
  }

  /** categorizeConditions, given wind in whole knots and visibility in tenths
      of a nautical mile (the source rounds visibility to one decimal and
      compares it in nautical miles). */
  function CategorizeConditions(windKnots: Option<int>, visibilityTenths: Option<int>): (r: Conditions)
    ensures r == ConditionsUnknown <==> windKnots.None? || visibilityTenths.None?
    ensures r == Poor <==> windKnots.Some? && visibilityTenths.Some?
                           && (windKnots.value > 25 || visibilityTenths.value < 20)
    ensures r == Fair <==> windKnots.Some? && visibilityTenths.Some?
                           && windKnots.value <= 25 && visibilityTenths.value >= 20
                           && (windKnots.value > 15 || visibilityTenths.value < 50)
    ensures r == Good <==> windKnots.Some? && visibilityTenths.Some?
                           && windKnots.value <= 15 && visibilityTenths.value >= 50
  {
    match (windKnots, visibilityTenths)
    case (Some(w), Some(v)) =>
      var nauticalMiles := v as real / 10.0;
      if w > 25 || nauticalMiles < 2.0 then Poor
      else if w > 15 || nauticalMiles < 5.0 then Fair
      else Good
    case _ => ConditionsUnknown
  }

  /** Raising the wind or lowering the visibility never moves the category
      towards Good. */
  lemma ConditionsMonotone(w1: int, v1: int, w2: int, v2: int)
    requires w1 <= w2 && v2 <= v1
    ensures 0 <= Rank(CategorizeConditions(Some(w2), Some(v2)))
              <= Rank(CategorizeConditions(Some(w1), Some(v1)))
  {
  }

  /** The advisory flag: wind strictly above 25 knots.  The N/A placeholder
      never compares greater than a number, so missing wind raises no advisory. */
  function SmallCraftAdvisory(windKnots: Option<int>): (r: bool)
    ensures r <==> windKnots.Some? && windKnots.value > 25
  {
    match windKnots
    case None => false
    case Some(w) => w > 25
  }

  /** An advisory always comes with Poor conditions once visibility is known,
      and with a very rough sea. */
  lemma AdvisoryMeansPoor(windKnots: Option<int>, visibilityTenths: Option<int>)
    requires SmallCraftAdvisory(windKnots) && visibilityTenths.Some?
    ensures CategorizeConditions(windKnots, visibilityTenths) == Poor
    ensures EstimateSeaState(windKnots) == VeryRough
  {
  }

  // ------------------------------------------------------------ wind direction

  const CompassPoints: seq<string> := [
    "N", "NNE", "NE", "ENE", "E", "ESE", "SE", "SSE",
    "S", "SSW", "SW", "WSW", "W", "WNW", "NW", "NNW"
  ]

  /** The outcome of convertWindDirection: "Variable" for a missing reading,
      one of the sixteen points, or JavaScript's undefined when the computed
      index is negative. */
  datatype Heading = Variable | Point(index: nat) | NoPoint

  function HeadingText(h: Heading): string {
    match h
    case Variable => "Variable"
    case Point(i) => if i < |CompassPoints| then CompassPoints[i] else "undefined"
    case NoPoint => "undefined"
  }

  /** Math.round(d / 22.5) for whole degrees d, in integer arithmetic. */
  function RoundedSector(d: int): int {
    (4 * d + 45) / 90
  }

  /** RoundedSector is the integer nearest to d / 22.5, as Math.round gives
      it; a tie would need 4d + 45 to be a multiple of 90, which no whole d
      reaches, so the half-up rule of Math.round never comes into play. */
  lemma RoundedSectorIsMathRound(d: int)
    ensures var r := RoundedSector(d);
      (r as real) - 0.5 < (d as real) / 22.5 < (r as real) + 0.5
  {
    var r := RoundedSector(d);
    assert 90 * r <= 4 * d + 45 < 90 * r + 90;
    assert 90 * r != 4 * d + 45;
  }

  /** The bearing d lies strictly within 11.25 degrees of compass point i,
      measured around the circle (in quarter degrees: 45 of 1440). */
  predicate NearestPoint(d: int, i: int) {
    var offset := (4 * d - 90 * i) % 1440;
    offset < 45 || offset > 1395
  }

  /** At most one of the sixteen points is that close to a bearing. */
  lemma NearestPointUnique(d: int, i: int, j: int)
    requires 0 <= i < 16 && 0 <= j < 16
    requires NearestPoint(d, i) && NearestPoint(d, j)
    ensures i == j
  {
    var a := 4 * d - 90 * i;
    var b := 4 * d - 90 * j;
    var qa, ra := a / 1440, a % 1440;
    var qb, rb := b / 1440, b % 1440;
    assert a == 1440 * qa + ra && b == 1440 * qb + rb;
    var n := (j - i) - 16 * (qa - qb);
    assert 90 * n == ra - rb;
  }

  /** convertWindDirection on whole degrees; negative readings follow
      JavaScript's sign-keeping `%` and out-of-range array lookup. */
  function ConvertWindDirection(degrees: Option<int>): (r: Heading)
    ensures r == Variable <==> degrees.None?
    ensures r.Point? ==> r.index < |CompassPoints|
    ensures degrees.Some? && degrees.value >= 0 ==> r.Point? && NearestPoint(degrees.value, r.index)
    ensures r == NoPoint <==> degrees.Some? && RoundedSector(degrees.value) % 16 != 0
                              && RoundedSector(degrees.value) < 0
    ensures degrees.Some? && r.Point? ==> NearestPoint(degrees.value, r.index)
  {
    match degrees
    case None => Variable
    case Some(d) =>
      var sector := RoundedSector(d);
      if sector >= 0 then
        var i := sector % 16;
        assert NearestPoint(d, i) by { SectorIsNearest(d); }
        Point(i)
      else if (-sector) % 16 == 0 then
        // -0 indexes like 0
        assert NearestPoint(d, 0) by { NegativeZeroIsNorth(d); }
        Point(0)
      else NoPoint
  }

  /** A negative sector that is a multiple of 16 stands for north, the point
      nearest the bearing. */
  lemma NegativeZeroIsNorth(d: int)
    requires RoundedSector(d) < 0 && (-RoundedSector(d)) % 16 == 0
    ensures NearestPoint(d, 0)
  {
    SectorIsNearest(d);
    NegatedMultiple(RoundedSector(d));
  }

  lemma NegatedMultiple(s: int)
    requires (-s) % 16 == 0
    ensures s % 16 == 0
  {
    var q := (-s) / 16;
    assert s == 16 * -q;
  }

  /** The rounded sector, taken modulo 16, names the point nearest the bearing. */
  lemma SectorIsNearest(d: int)
    ensures NearestPoint(d, RoundedSector(d) % 16)
  {
    var s := RoundedSector(d);
    var i := s % 16;
    var e := 4 * d - 90 * s;
    assert -45 < e < 45;
    assert s == 16 * (s / 16) + i;
    assert 4 * d - 90 * i == e + 1440 * (s / 16);
  }

  /** Bearings from 349 to 360 degrees wrap round to north. */
  lemma NorthWrap(d: int)
    requires 349 <= d <= 360
    ensures ConvertWindDirection(Some(d)) == Point(0)
    ensures HeadingText(ConvertWindDirection(Some(d))) == "N"
  {
  }

  // ----------------------------------------------------------------- report

  /** Raw observation: wind speed in m/s, wind direction in whole degrees,
      visibility in metres; None where the feed has no value. */
  datatype Observation = Observation(windSpeed: Option<real>, windDirection: Option<int>, visibility: Option<real>)

  datatype MaritimeReport = MaritimeReport(
    windDirection: Heading,
    windKnots: Option<int>,
    visibilityTenths: Option<int>,
    seaState: SeaState,
    smallCraftAdvisory: bool,
    conditions: Conditions)

  /** formatMaritimeWeather's maritime block.  The floating-point unit
      conversions are the parameters `toKnots` (m/s to whole knots) and
      `toTenths` (metres to tenths of a nautical mile). */
  function FormatMaritime(obs: Observation, toKnots: real -> int, toTenths: real -> int): (m: MaritimeReport)
    ensures m.windKnots.None? <==> obs.windSpeed.None? || obs.windSpeed == Some(0.0)
    ensures m.visibilityTenths.None? <==> obs.visibility.None? || obs.visibility == Some(0.0)
    ensures m.windKnots.None? ==> m.seaState == SeaUnknown && !m.smallCraftAdvisory
                                  && m.conditions == ConditionsUnknown
    ensures obs.windDirection == Some(0) ==> m.windDirection == Variable
    ensures m.smallCraftAdvisory ==> m.seaState == VeryRough
    ensures m.smallCraftAdvisory && m.visibilityTenths.Some? ==> m.conditions == Poor
    ensures m.visibilityTenths.None? ==> m.conditions == ConditionsUnknown
    ensures obs.windSpeed.Some? && obs.windSpeed.value != 0.0 ==> m.windKnots == Some(toKnots(obs.windSpeed.value))
    ensures obs.visibility.Some? && obs.visibility.value != 0.0 ==> m.visibilityTenths == Some(toTenths(obs.visibility.value))
    ensures obs.windDirection.None? ==> m.windDirection == Variable
    ensures m.windDirection == ConvertWindDirection(OrMissing(obs.windDirection, 0))
    ensures m.seaState == EstimateSeaState(m.windKnots)
    ensures m.smallCraftAdvisory == SmallCraftAdvisory(m.windKnots)
    ensures m.conditions == CategorizeConditions(m.windKnots, m.visibilityTenths)
  {
    var windSpeed := OrMissing(obs.windSpeed, 0.0);
    var windDirection := OrMissing(obs.windDirection, 0);
    var visibility := OrMissing(obs.visibility, 0.0);
    var windKnots := match windSpeed case Some(w) => Some(toKnots(w)) case None => None;
    var visibilityTenths := match visibility case Some(v) => Some(toTenths(v)) case None => None;
    MaritimeReport(
      ConvertWindDirection(windDirection),
      windKnots,
      visibilityTenths,
      EstimateSeaState(windKnots),
      SmallCraftAdvisory(windKnots),
      CategorizeConditions(windKnots, visibilityTenths))
  }

  /** The `maritime` object of the response: the sea state and conditions as
      the source's display strings, and the advisory flag. */
  datatype MaritimeBlock = MaritimeBlock(seaState: string, smallCraftAdvisory: bool, conditions: string)

  /** Renders the classifications of a report as the response's maritime object. */
  function RenderMaritime(m: MaritimeReport): (b: MaritimeBlock)
    ensures b.smallCraftAdvisory == m.smallCraftAdvisory
    ensures b.seaState == "Unknown" <==> m.seaState == SeaUnknown
    ensures b.conditions == "Unknown" <==> m.conditions == ConditionsUnknown
    ensures b.seaState == "Calm (0-1 ft)" <==> m.seaState == Calm
    ensures b.seaState == "Light (1-2 ft)" <==> m.seaState == Light
    ensures b.seaState == "Moderate (2-3 ft)" <==> m.seaState == Moderate
    ensures b.seaState == "Choppy (3-5 ft)" <==> m.seaState == Choppy
    ensures b.seaState == "Rough (5-8 ft)" <==> m.seaState == Rough
    ensures b.seaState == "Very Rough (8+ ft)" <==> m.seaState == VeryRough
    ensures b.conditions == "Poor - Small craft advisory" <==> m.conditions == Poor
    ensures b.conditions == "Fair - Use caution" <==> m.conditions == Fair
    ensures b.conditions == "Good - Favorable conditions" <==> m.conditions == Good
  {
    SeaStateNamed(m.seaState);
    ConditionsNamed(m.conditions);
    MaritimeBlock(SeaStateText(m.seaState), m.smallCraftAdvisory, ConditionsText(m.conditions))
  }

  /** Each sea state's text names that state and no other. */
  lemma SeaStateNamed(s: SeaState)
    ensures forall t :: SeaStateText(s) == SeaStateText(t) ==> s == t
  {
    forall t | SeaStateText(s) == SeaStateText(t)
      ensures s == t
    {
      SeaStateTextInjective(s, t);
    }
  }

  /** Each category's text names that category and no other. */
  lemma ConditionsNamed(c: Conditions)
    ensures forall t :: ConditionsText(c) == ConditionsText(t) ==> c == t
  {
    forall t | ConditionsText(c) == ConditionsText(t)
      ensures c == t
    {
      ConditionsTextInjective(c, t);
    }
  }

  /** Distinct sea states and categories are shown as distinct strings, so the
      rendered block determines the classification. */
  lemma RenderingIsFaithful(m1: MaritimeReport, m2: MaritimeReport)
    requires RenderMaritime(m1) == RenderMaritime(m2)
    ensures m1.seaState == m2.seaState
    ensures m1.conditions == m2.conditions
    ensures m1.smallCraftAdvisory == m2.smallCraftAdvisory
  {
    SeaStateTextInjective(m1.seaState, m2.seaState);
    ConditionsTextInjective(m1.conditions, m2.conditions);
  }

  lemma SeaStateTextInjective(a: SeaState, b: SeaState)
    requires SeaStateText(a) == SeaStateText(b)
    ensures a == b
  {
    assert SeaStateText(a)[..3] == SeaStateText(b)[..3];
  }

  lemma ConditionsTextInjective(a: Conditions, b: Conditions)
    requires ConditionsText(a) == ConditionsText(b)
    ensures a == b
  {
    assert ConditionsText(a)[0] == ConditionsText(b)[0];
  }
}
