/** The decision core of `daily_update`: merge the curated and fetched
    events, then rescore. Loading the curated file, fetching, writing the
    snapshot and logging stay outside; the curated and fetched lists are
    inputs, and an `Err` result is an exception escaping `daily_update`,
    in which case nothing is written. */
module DailyUpdate {
  import opened Values
  import opened Scoring
  import opened Merging
  import opened Rescoring

  /** The events `daily_update` hands to `update_events_json`. */
  function Updated(curated: seq<Event>, fetched: seq<Event>): Result<seq<Event>>
  {
    match Merged(curated, fetched)
    case Err(err) => Err(err)
    case Ok(all) => RescoredAll(all)
  }

  /** Lines 203-215 of the updater. */
  method MergeAndRescore(curated: seq<Event>, fetched: seq<Event>) returns (r: Result<seq<Event>>)
    ensures r == Updated(curated, fetched)
  {
    var merged := MergeEvents(curated, fetched);
    if merged.Err? {
      return Err(merged.error);
    }
    r := UpdateScores(merged.value);
  }

  /** The output begins with every curated event, in order, each replaced by
      its own update, and holds at most one event per fetched event more. */
  lemma CuratedComeFirst(curated: seq<Event>, fetched: seq<Event>)
    requires Updated(curated, fetched).Ok?
    ensures var r := Updated(curated, fetched).value;
      && |curated| <= |r| <= |curated| + |fetched|
      && forall i :: 0 <= i < |curated| ==> Rescored(curated[i]).Ok? && r[i] == Rescored(curated[i]).value
  {
    var all := Merged(curated, fetched).value;
    MergeKeepsCurated(curated, fetched);
    RescoredAllPointwise(all);
    forall i | 0 <= i < |curated| ensures all[i] == curated[i] {
      assert all[..|curated|][i] == all[i];
    }
  }

  /** Updating never touches `name` or `dates`. */
  lemma RescoredKeepsIdentity(e: Event)
    requires HasIdentity(e) && Rescored(e).Ok?
    ensures HasIdentity(Rescored(e).value)
    ensures Identity(Rescored(e).value) == Identity(e)
  {
    if NeedsRescore(e) {
      UpdatesOnlyScoreFields(e);
    }
  }

  /** On keyed input the whole step keeps curated and fetched identities:
      the output's (`name`, `dates`) pairs are exactly those of the inputs. */
  lemma UpdatedIdentities(curated: seq<Event>, fetched: seq<Event>)
    requires AllKeyed(curated) && AllKeyed(fetched)
    requires Updated(curated, fetched).Ok?
    ensures AllKeyed(Updated(curated, fetched).value)
    ensures Identities(Updated(curated, fetched).value) == Identities(curated) + Identities(fetched)
  {
    MergeIdentities(curated, fetched);
    var all := Merged(curated, fetched).value;
    var r := Updated(curated, fetched).value;
    RescoredAllPointwise(all);
    forall i | 0 <= i < |r| ensures HasIdentity(r[i]) && Identity(r[i]) == Identity(all[i]) {
      RescoredKeepsIdentity(all[i]);
    }
    assert Identities(r) == Identities(all) by {
      forall k | k in Identities(r) ensures k in Identities(all) {
        var i :| 0 <= i < |r| && Identity(r[i]) == k;
      }
      forall k | k in Identities(all) ensures k in Identities(r) {
        var i :| 0 <= i < |all| && Identity(all[i]) == k;
      }
    }
  }

  /** Every event that needed rescoring comes out with a score in [48, 89]
      and the tier that score maps to; every other event comes out exactly as
      it went in, whatever `score` and `tier` it had. */
  lemma UpdatedEventsAreScoredOrKept(curated: seq<Event>, fetched: seq<Event>)
    requires Updated(curated, fetched).Ok?
    ensures var all := Merged(curated, fetched).value;
      var r := Updated(curated, fetched).value;
      && |r| == |all|
      && forall i :: 0 <= i < |r| ==>
        if NeedsRescore(all[i]) then
          && "score" in r[i] && "tier" in r[i]
          && r[i]["score"].Int? && 48 <= r[i]["score"].i <= 89
          && r[i]["tier"] == Int(TierOf(r[i]["score"].i))
        else r[i] == all[i]
  {
    var all := Merged(curated, fetched).value;
    RescoredAllPointwise(all);
    forall i | 0 <= i < |all| && NeedsRescore(all[i]) ensures Rescored(all[i]).Ok? {
    }
    forall i | 0 <= i < |all| && NeedsRescore(all[i])
      ensures var u := Rescored(all[i]).value;
        && "score" in u && "tier" in u && u["score"].Int? && 48 <= u["score"].i <= 89
        && u["tier"] == Int(TierOf(u["score"].i))
    {
      UpdatesOnlyScoreFields(all[i]);
    }
  }

  /** DMEXCO, curated with nothing fetched: 25 + 22 + 12 + 14 + 8 = 81, tier 1. */
  lemma CuratedOnlyIsScored()
    ensures var dmexco: Event := map[
        "name" := Str("DMEXCO"), "dates" := Str("2026-09"),
        "audiences" := List([Str("Ad Tech")]), "attendees" := Int(15000),
        "competitors" := List([Str("A"), Str("B"), Str("C")]),
        "tier" := Int(1), "prestige" := Int(9)];
      Updated([dmexco], []) == Ok([dmexco + ScoreFields(Score(81, 1, Breakdown(25, 22, 12, 14, 8)))])
  {
    var dmexco: Event := map[
        "name" := Str("DMEXCO"), "dates" := Str("2026-09"),
        "audiences" := List([Str("Ad Tech")]), "attendees" := Int(15000),
        "competitors" := List([Str("A"), Str("B"), Str("C")]),
        "tier" := Int(1), "prestige" := Int(9)];
    assert CalculateScore(dmexco) == Ok(Score(81, 1, Breakdown(25, 22, 12, 14, 8)));
    assert [dmexco][0] == dmexco && [dmexco][1..] == [];
    assert [] + [Rescored(dmexco).value] == [Rescored(dmexco).value];
    assert RescoreFrom([], [dmexco]) == RescoreFrom([Rescored(dmexco).value], []);
  }

  /** A small fetched event that collides with nothing is kept and scores the
      minimum, 18 + 16 + 0 + 8 + 6 = 48, tier 3. */
  lemma FetchedOnlyIsScored()
    ensures var meetup: Event := map[
        "name" := Str("LocalMeetup"), "dates" := Str("2026-03"),
        "audiences" := List([]), "attendees" := Int(200),
        "competitors" := List([]), "tier" := Int(3), "prestige" := Int(2)];
      Updated([], [meetup]) == Ok([meetup + ScoreFields(Score(48, 3, Breakdown(18, 16, 0, 8, 6)))])
  {
    var meetup: Event := map[
        "name" := Str("LocalMeetup"), "dates" := Str("2026-03"),
        "audiences" := List([]), "attendees" := Int(200),
        "competitors" := List([]), "tier" := Int(3), "prestige" := Int(2)];
    FirstFetchedNeedsNoKeys(meetup, meetup);
    assert CalculateScore(meetup) == Ok(Score(48, 3, Breakdown(18, 16, 0, 8, 6)));
    assert [meetup][0] == meetup && [meetup][1..] == [];
    assert [] + [Rescored(meetup).value] == [Rescored(meetup).value];
    assert RescoreFrom([], [meetup]) == RescoreFrom([Rescored(meetup).value], []);
  }

  /** ShopTalk is curated with a score and updates switched off; the fetched
      copy of it is dropped and the curated one comes out untouched. */
  lemma OptedOutCuratedWins()
    ensures var curated: Event := map[
        "name" := Str("ShopTalk"), "dates" := Str("2026-05"),
        "score" := Int(70), "tier" := Int(2), "autoUpdate" := Bool(false)];
      var fetched: Event := map[
        "name" := Str("ShopTalk"), "dates" := Str("2026-05"),
        "audiences" := List([Str("E-commerce")]), "attendees" := Int(20000)];
      Updated([curated], [fetched]) == Ok([curated])
  {
    var curated: Event := map[
        "name" := Str("ShopTalk"), "dates" := Str("2026-05"),
        "score" := Int(70), "tier" := Int(2), "autoUpdate" := Bool(false)];
    var fetched: Event := map[
        "name" := Str("ShopTalk"), "dates" := Str("2026-05"),
        "audiences" := List([Str("E-commerce")]), "attendees" := Int(20000)];
    assert SameIdentity(curated, fetched) == Ok(true);
    assert AnyDuplicate([curated], fetched) == Ok(true);
    assert [fetched][0] == fetched && [fetched][1..] == [];
    assert MergeStep([curated], fetched) == Ok([curated]);
    assert MergeInto([curated], [fetched]) == MergeInto([curated], []);
    assert Rescored(curated) == Ok(curated);
    assert [curated][0] == curated && [curated][1..] == [];
    assert [] + [curated] == [curated];
    assert RescoreFrom([], [curated]) == RescoreFrom([curated], []);
  }
}
