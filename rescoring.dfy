/** The rescoring loop of `daily_update`: every event that has no `score`,
    or whose `autoUpdate` (default True) is truthy, gets `score`, `tier` and
    `scoreBreakdown` overwritten by `calculate_score` of its current contents.
    Because the commercial dimension reads the key `tier`, the computed tier
    replaces the commercial tier the event came in with. */
module Rescoring {
  import opened Values
  import opened Scoring

  /** `'score' not in event or event.get('autoUpdate', True)`, read with
      Python truthiness: null, 0, "" and empty containers count as false. */
  predicate NeedsRescore(e: Event)
    ensures "score" !in e ==> NeedsRescore(e)
    ensures "autoUpdate" !in e ==> NeedsRescore(e)
    ensures "score" in e && Get(e, "autoUpdate", Bool(true)) in {Null, Bool(false), Int(0)} ==> !NeedsRescore(e)
  {
    "score" !in e || Truthy(Get(e, "autoUpdate", Bool(true)))
  }

  /** One event after the loop body: it raises exactly when the event needs
      rescoring and its scoring raises, and it never removes a key. */
  function Rescored(e: Event): (r: Result<Event>)
    ensures r.Err? <==> NeedsRescore(e) && CalculateScore(e).Err?
    ensures r.Ok? ==> e.Keys <= r.value.Keys
  {
    if NeedsRescore(e) then
      match CalculateScore(e)
      case Err(err) => Err(err)
      case Ok(s) => Ok(e + ScoreFields(s))
    else Ok(e)
  }

  /** The loop, from the events already visited to those still to go; the
      first event whose scoring raises ends it. */
  function RescoreFrom(done: seq<Event>, rest: seq<Event>): Result<seq<Event>>
    decreases |rest|
  {
    if rest == [] then Ok(done)
    else
      match Rescored(rest[0])
      case Err(err) => Err(err)
      case Ok(e) => RescoreFrom(done + [e], rest[1..])
  }

  function RescoredAll(events: seq<Event>): Result<seq<Event>>
  {
    RescoreFrom([], events)
  }

  /** Lines 212-215 of the updater: update each event in place when it needs it. */
  method UpdateScores(events: seq<Event>) returns (r: Result<seq<Event>>)
    ensures r == RescoredAll(events)
  {
    var all := events;
    var i := 0;
    while i < |all|
      invariant 0 <= i <= |all| == |events|
      invariant all[i..] == events[i..]
      invariant RescoreFrom(all[..i], all[i..]) == RescoredAll(events)
    {
      var event := all[i];
      assert all[i..][0] == event && all[i..][1..] == all[i + 1..];
      if NeedsRescore(event) {
        var scoring := CalculateScore(event);
        if scoring.Err? {
          return Err(scoring.error);
        }
        all := all[i := event + ScoreFields(scoring.value)];
      }
      assert all[..i + 1] == all[..i] + [all[i]];
      i := i + 1;
    }
    assert all[..|all|] == all;
    return Ok(all);
  }

  // ---------------------------------------------------------------------
  // Lemmas.

  /** An event that already has a score and a falsy `autoUpdate` is left
      exactly as it was. */
  lemma RespectsAutoUpdate(e: Event)
    requires "score" in e && !Truthy(Get(e, "autoUpdate", Bool(true)))
    ensures Rescored(e) == Ok(e)
  {
  }

  /** An event that needs rescoring either makes `calculate_score` raise, or
      gains exactly the keys `score`, `tier` and `scoreBreakdown`, holding the
      score of its contents before the update; every other key keeps its value. */
  lemma UpdatesOnlyScoreFields(e: Event)
    requires NeedsRescore(e)
    ensures Rescored(e).Err? <==> CalculateScore(e).Err?
    ensures Rescored(e).Ok? ==>
      var s := CalculateScore(e).value;
      var u := Rescored(e).value;
      && u.Keys == e.Keys + {"score", "tier", "scoreBreakdown"}
      && u["score"] == Int(s.score)
      && u["tier"] == Int(s.tier)
      && u["scoreBreakdown"] == Obj(map[
           "audience" := Int(s.breakdown.audience),
           "decisionMaker" := Int(s.breakdown.decisionMaker),
           "competitive" := Int(s.breakdown.competitive),
           "commercial" := Int(s.breakdown.commercial),
           "influence" := Int(s.breakdown.influence)])
      && (forall k :: k in e && k !in {"score", "tier", "scoreBreakdown"} ==> u[k] == e[k])
  {
  }

  /** After an update the `tier` key holds the computed tier, 1 to 3, and the
      commercial tier it held before is gone: scoring the updated event again
      reads the computed tier as its commercial tier. */
  lemma TierKeyCollision(e: Event)
    requires NeedsRescore(e) && Rescored(e).Ok?
    ensures var s := CalculateScore(e).value;
      && Rescored(e).value["tier"] == Int(s.tier)
      && 1 <= s.tier <= 3
      && (s.tier == 1 <==> s.score >= 80)
      && CommercialPoints(Rescored(e).value) == (if s.tier == 1 then 14 else if s.tier == 2 then 11 else 8)
  {
    var s := CalculateScore(e).value;
    assert Get(Rescored(e).value, "tier", Null) == Int(s.tier);
  }

  /** Because of that collision, updating an event twice can change its
      score: an event with commercial tier 1 and nothing else scores 54, so
      its tier key becomes 3, and the second update scores it 48. */
  lemma SecondUpdateCanDiffer()
    ensures var e := map["tier" := Int(1)];
      && Rescored(e).Ok?
      && Rescored(e).value["score"] == Int(54)
      && Rescored(e).value["tier"] == Int(3)
      && Rescored(Rescored(e).value).Ok?
      && Rescored(Rescored(e).value).value["score"] == Int(48)
  {
    var e: Event := map["tier" := Int(1)];
    assert CalculateScore(e) == Ok(Score(54, 3, Breakdown(18, 16, 0, 14, 6)));
    var u := Rescored(e).value;
    assert Get(u, "autoUpdate", Bool(true)) == Bool(true);
    assert Get(u, "tier", Null) == Int(3);
    assert CalculateScore(u) == Ok(Score(48, 3, Breakdown(18, 16, 0, 8, 6)));
  }

  lemma {:induction false} RescoreFromPointwise(done: seq<Event>, rest: seq<Event>)
    ensures RescoreFrom(done, rest).Ok? <==> forall k :: 0 <= k < |rest| ==> Rescored(rest[k]).Ok?
    ensures RescoreFrom(done, rest).Ok? ==>
      var r := RescoreFrom(done, rest).value;
      && |r| == |done| + |rest|
      && r[..|done|] == done
      && forall k :: 0 <= k < |rest| ==> r[|done| + k] == Rescored(rest[k]).value
    decreases |rest|
  {
    if rest != [] {
      match Rescored(rest[0])
      case Err(_) =>
      case Ok(e) =>
        RescoreFromPointwise(done + [e], rest[1..]);
        if RescoreFrom(done, rest).Ok? {
          var r := RescoreFrom(done, rest).value;
          assert r[..|done|] == (r[..|done| + 1])[..|done|];
          forall k | 0 <= k < |rest| ensures r[|done| + k] == Rescored(rest[k]).value {
            if k > 0 { assert rest[k] == rest[1..][k - 1]; }
          }
        }
        forall k | 0 <= k < |rest[1..]| ensures rest[1..][k] == rest[k + 1] { }
    }
  }

  /** The loop succeeds exactly when every event's update succeeds, keeps the
      list's length and order, and puts each event's own update in its place. */
  lemma RescoredAllPointwise(events: seq<Event>)
    ensures RescoredAll(events).Ok? <==> forall k :: 0 <= k < |events| ==> Rescored(events[k]).Ok?
    ensures RescoredAll(events).Ok? ==>
      && |RescoredAll(events).value| == |events|
      && forall k :: 0 <= k < |events| ==> RescoredAll(events).value[k] == Rescored(events[k]).value
  {
    RescoreFromPointwise([], events);
  }
}
