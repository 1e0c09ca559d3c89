/** `EventDataFetcher.calculate_score`: five weighted dimensions read from the
    event's keys, summed into a total, and a three-way tier on the total. */
module Scoring {
  import opened Values

  /** The five-entry `scoreBreakdown` dict. */
  datatype Breakdown = Breakdown(
    audience: int,
    decisionMaker: int,
    competitive: int,
    commercial: int,
    influence: int)
  {
    function Total(): int
    {
      audience + decisionMaker + competitive + commercial + influence
    }
  }

  /** The dict `calculate_score` returns. */
  datatype Score = Score(score: int, tier: int, breakdown: Breakdown)

  /** Audience relevance: 25 for "Ad Tech" or "Affiliates", else 22 for
      "E-commerce", else 18; a missing `audiences` key reads as `[]`. */
  function AudiencePoints(e: Event): (r: Result<int>)
    ensures r.Ok? ==> r.value in {18, 22, 25}
    ensures r.Err? <==> Contains(Get(e, "audiences", List([])), "Ad Tech").Err?
  {
    var audiences := Get(e, "audiences", List([]));
    match Contains(audiences, "Ad Tech")
    case Err(err) => Err(err)
    case Ok(adTech) =>
      if adTech then Ok(25)
      else
        match Contains(audiences, "Affiliates")
        case Err(err) => Err(err)
        case Ok(affiliates) =>
          if affiliates then Ok(25)
          else
            match Contains(audiences, "E-commerce")
            case Err(err) => Err(err)
            case Ok(ecommerce) => Ok(if ecommerce then 22 else 18)
  }

  /** Decision-maker density: 22 above 10000 attendees, 19 above 5000,
      else 16; a missing `attendees` key reads as 0. */
  function DecisionMakerPoints(e: Event): (r: Result<int>)
    ensures r.Ok? ==> r.value in {16, 19, 22}
    ensures r.Err? <==> GreaterThan(Get(e, "attendees", Int(0)), 0).Err?
  {
    var attendees := Get(e, "attendees", Int(0));
    match GreaterThan(attendees, 10000)
    case Err(err) => Err(err)
    case Ok(large) =>
      if large then Ok(22)
      else
        match GreaterThan(attendees, 5000)
        case Err(err) => Err(err)
        case Ok(medium) => Ok(if medium then 19 else 16)
  }

  /** Competitive presence: four points per competitor, capped at 20; a
      missing `competitors` key reads as `[]`. */
  function CompetitivePoints(e: Event): (r: Result<int>)
    ensures r.Ok? ==> 0 <= r.value <= 20 && r.value % 4 == 0
    ensures r.Err? <==> Len(Get(e, "competitors", List([]))).Err?
  {
    match Len(Get(e, "competitors", List([])))
    case Err(err) => Err(err)
    case Ok(n) => Ok(if 20 <= n * 4 then 20 else n * 4)
  }

  /** Commercial opportunity, read from the event's own `tier` key: 14 for
      tier 1, 11 for tier 2, 8 for anything else, a missing key included. */
  function CommercialPoints(e: Event): (r: int)
    ensures r in {8, 11, 14}
  {
    var tier := Get(e, "tier", Null);
    if EqualsInt(tier, 1) then 14
    else if EqualsInt(tier, 2) then 11
    else 8
  }

  /** Industry influence: 8 when prestige exceeds 8, else 6; a missing
      `prestige` key reads as 0. */
  function InfluencePoints(e: Event): (r: Result<int>)
    ensures r.Ok? ==> r.value in {6, 8}
    ensures r.Err? <==> GreaterThan(Get(e, "prestige", Int(0)), 0).Err?
  {
    match GreaterThan(Get(e, "prestige", Int(0)), 8)
    case Err(err) => Err(err)
    case Ok(high) => Ok(if high then 8 else 6)
  }

  /** The threshold classifier on the total score. */
  function TierOf(total: int): (t: int)
    ensures 1 <= t <= 3
    ensures t == 1 <==> total >= 80
    ensures t == 2 <==> 60 <= total < 80
    ensures t == 3 <==> total < 60
  {
    if total >= 80 then 1
    else if total >= 60 then 2
    else 3
  }

  /** `calculate_score`: the dimensions are evaluated in source order, so the
      first one whose key holds a value of the wrong type decides the error.
      On success every breakdown entry stays in its band, the total is their
      sum and lies in [48, 89], and the tier is the classifier on the total. */
  function CalculateScore(e: Event): (r: Result<Score>)
    ensures r.Ok? ==>
      && r.value.breakdown.audience in {18, 22, 25}
      && r.value.breakdown.decisionMaker in {16, 19, 22}
      && 0 <= r.value.breakdown.competitive <= 20
      && r.value.breakdown.commercial in {8, 11, 14}
      && r.value.breakdown.influence in {6, 8}
      && r.value.score == r.value.breakdown.Total()
      && 48 <= r.value.score <= 89
      && r.value.tier == TierOf(r.value.score)
  {
    match AudiencePoints(e)
    case Err(err) => Err(err)
    case Ok(audience) =>
      match DecisionMakerPoints(e)
      case Err(err) => Err(err)
      case Ok(decisionMaker) =>
        match CompetitivePoints(e)
        case Err(err) => Err(err)
        case Ok(competitive) =>
          var commercial := CommercialPoints(e);
          match InfluencePoints(e)
          case Err(err) => Err(err)
          case Ok(influence) =>
            var b := Breakdown(audience, decisionMaker, competitive, commercial, influence);
            Ok(Score(b.Total(), TierOf(b.Total()), b))
  }

  /** The three keys `event.update(scoring)` writes: never `name` or
      `dates`, and a breakdown dict with the five dimension keys. */
  function ScoreFields(s: Score): (m: map<string, Value>)
    ensures m.Keys == {"score", "tier", "scoreBreakdown"}
    ensures m["tier"] == Int(s.tier) && m["score"] == Int(s.score)
    ensures m["scoreBreakdown"].Obj?
    ensures m["scoreBreakdown"].fields.Keys == {"audience", "decisionMaker", "competitive", "commercial", "influence"}
  {
    map[
      "score" := Int(s.score),
      "tier" := Int(s.tier),
      "scoreBreakdown" := Obj(map[
        "audience" := Int(s.breakdown.audience),
        "decisionMaker" := Int(s.breakdown.decisionMaker),
        "competitive" := Int(s.breakdown.competitive),
        "commercial" := Int(s.breakdown.commercial),
        "influence" := Int(s.breakdown.influence)])]
  }

  /** Competitive presence is exactly min(20, 4 * number of competitors) when
      `competitors` holds a list. */
  lemma CompetitiveIsCappedCount(e: Event, competitors: seq<Value>)
    requires Get(e, "competitors", List([])) == List(competitors)
    ensures CompetitivePoints(e) == Ok(if |competitors| >= 5 then 20 else 4 * |competitors|)
  {
  }

  /** Both ends of the score range are reached, so [48, 89] is tight. */
  lemma ScoreRangeIsTight()
    ensures CalculateScore(map[]) == Ok(Score(48, 3, Breakdown(18, 16, 0, 8, 6)))
    ensures CalculateScore(map[
      "audiences" := List([Str("Ad Tech")]),
      "attendees" := Int(10001),
      "competitors" := List([Null, Null, Null, Null, Null]),
      "tier" := Int(1),
      "prestige" := Int(9)]) == Ok(Score(89, 1, Breakdown(25, 22, 20, 14, 8)))
  {
  }

  /** A lower total never yields a strictly better (numerically smaller) tier. */
  lemma TierMonotone(s1: int, s2: int)
    requires s1 <= s2
    ensures TierOf(s1) >= TierOf(s2)
  {
  }

  /** Audience precedence on a list of tags: "Ad Tech" or "Affiliates" gives
      25 whatever else is present; 22 exactly when neither is present but
      "E-commerce" is; 18 when none of the three is. */
  lemma AudiencePrecedence(e: Event, tags: seq<Value>)
    requires Get(e, "audiences", List([])) == List(tags)
    ensures AudiencePoints(e).Ok?
    ensures AudiencePoints(e).value == 25 <==> Str("Ad Tech") in tags || Str("Affiliates") in tags
    ensures AudiencePoints(e).value == 22 <==>
      Str("Ad Tech") !in tags && Str("Affiliates") !in tags && Str("E-commerce") in tags
    ensures AudiencePoints(e).value == 18 <==>
      Str("Ad Tech") !in tags && Str("Affiliates") !in tags && Str("E-commerce") !in tags
  {
  }

  /** `calculate_score` raises exactly when one of `audiences`, `attendees`,
      `competitors` or `prestige` holds a value of a type its operator
      rejects; in particular an event that lacks all of them scores fine. */
  lemma ScoreErrorIff(e: Event)
    ensures CalculateScore(e).Err? <==>
      || IsScalar(Get(e, "audiences", List([])))
      || !IsNumber(Get(e, "attendees", Int(0)))
      || IsScalar(Get(e, "competitors", List([])))
      || !IsNumber(Get(e, "prestige", Int(0)))
  {
  }
}
