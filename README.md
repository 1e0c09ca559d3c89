# AdTech event calendar updater: scoring and merge core

This project models the decision logic of the daily event-calendar updater
(`auto-update-package/event_updater.py`) and proves the properties it rests on.
The updater keeps one catalogue of industry events. It takes a hand-curated
list and a list fetched from outside sources. It copies the curated events,
appends each fetched event whose `name` and `dates` are not already present,
and then gives every event that needs one a strategic score, a tier and a
five-dimension breakdown.

Events are Python dicts loaded from JSON. They are modelled as
`map<string, Value>`, where `Value` is a JSON value: null, bool, int, string,
list or object. Because they are maps, the model sees the key collision the
source has. The commercial dimension reads the event's `tier` key, and the
update writes the computed tier back under that same key.

The Python operators the code applies to these values are modelled with
Python's rules in `values.dfy`:
- `in` tests elements on a list, substrings on a string and keys on a dict.
- `>` compares a bool as 0 or 1.
- `len` works on lists, strings and dicts.
- `== 1` holds for `True`.
- `autoUpdate` is read by truthiness.

Where Python raises (`TypeError` on a mistyped field, `KeyError` on a missing
`name` or `dates` during the duplicate scan), the model returns `Err`. The
error comes from the first operation that raises, in Python's evaluation order.

Files and modules:
- `values.dfy` (`Values`): the JSON value type, the event type, the Python
  exceptions, a `Result` type and the Python operators above.
- `scoring.dfy` (`Scoring`): `calculate_score`, its five dimensions and the
  tier classifier.
- `merging.dfy` (`Merging`): the merge-and-deduplicate loop, as a method
  proved against a function that follows the loop. On events that all have
  `name` and `dates`, an independent reference definition is proved equal to
  that function.
- `rescoring.dfy` (`Rescoring`): the in-place rescoring loop, as a method
  proved against a function.
- `daily_update.dfy` (`DailyUpdate`): the two steps composed as in
  `daily_update`, with the worked scenarios.

The model keeps these details of the code:
- The scorer reads the keys `audiences`, `attendees`, `competitors`, `tier`
  and `prestige`. The commercial tier and the computed tier share the key `tier`.
- An event is rescored when it has no `score` or its `autoUpdate` is truthy,
  not only when `autoUpdate` is `true`. So `null`, `0` and `""` also switch
  updates off.
- Missing fields are not rejected one by one before the merge. An event
  without `name` raises `KeyError` when the scan compares against it. An event
  without `dates` raises only when its name matches.
- Duplicates are found by a linear scan of the growing list, not by an index.

## Model

| member | source | states |
|---|---|---|
| `Values.Get` | auto-update-package/event_updater.py:95 | `event.get(key, default)` returns the stored value when the key is present and the default otherwise |
| `Values.Truthy` | auto-update-package/event_updater.py:213 | the falsy values are exactly null, false, 0, "", [] and {} |
| `Values.Contains` | auto-update-package/event_updater.py:95-97 | `tag in v` raises TypeError exactly when `v` is null, a bool or an int; on a list it is element membership |
| `Values.GreaterThan` | auto-update-package/event_updater.py:103-105 | `v > n` raises TypeError exactly when `v` is neither an int nor a bool |
| `Values.Len` | auto-update-package/event_updater.py:111 | `len(v)` raises TypeError exactly when `v` is null, a bool or an int |
| `Values.EqualsInt` | auto-update-package/event_updater.py:115-117 | `v == n` holds iff `v` is the int `n`, or `True` with n = 1, or `False` with n = 0 |
| `Scoring.AudiencePoints` | auto-update-package/event_updater.py:95-100 | the audience entry is 18, 22 or 25, and it raises exactly when `audiences` cannot be searched |
| `Scoring.DecisionMakerPoints` | auto-update-package/event_updater.py:103-108 | the decision-maker entry is 16, 19 or 22, and it raises exactly when `attendees` is not a number |
| `Scoring.CompetitivePoints` | auto-update-package/event_updater.py:111-112 | the competitive entry is a multiple of 4 in [0, 20], and it raises exactly when `competitors` has no length |
| `Scoring.CommercialPoints` | auto-update-package/event_updater.py:115-120 | the commercial entry, read from the `tier` key, is 8, 11 or 14 and never raises |
| `Scoring.InfluencePoints` | auto-update-package/event_updater.py:123-126 | the influence entry is 6 or 8, and it raises exactly when `prestige` is not a number |
| `Scoring.TierOf` | auto-update-package/event_updater.py:130-136 | the tier is in 1..3: 1 iff total >= 80, 2 iff 60 <= total < 80, 3 iff total < 60 |
| `Scoring.CalculateScore` | auto-update-package/event_updater.py:84-142 | on success every breakdown entry is in its band, the score is the sum of the five entries and lies in [48, 89], and the tier is the classifier applied to that score |
| `Scoring.ScoreFields` | auto-update-package/event_updater.py:138-142 | the update writes exactly `score`, `tier` and `scoreBreakdown`, the tier and score are the computed ones, and the breakdown has the five dimension keys |
| `Scoring.CompetitiveIsCappedCount` | auto-update-package/event_updater.py:111-112 | for a list of competitors the entry is exactly min(20, 4 * count) |
| `Scoring.ScoreRangeIsTight` | auto-update-package/event_updater.py:128-136 | an empty event scores 48 (tier 3) and a maximal one scores 89 (tier 1), so [48, 89] cannot be narrowed |
| `Scoring.TierMonotone` | auto-update-package/event_updater.py:130-136 | a higher total never gets a numerically larger (worse) tier |
| `Scoring.AudiencePrecedence` | auto-update-package/event_updater.py:95-100 | for a tag list: 25 iff "Ad Tech" or "Affiliates" is present, whatever else is; 22 iff neither is present but "E-commerce" is; 18 iff none of the three is |
| `Scoring.ScoreErrorIff` | auto-update-package/event_updater.py:94-126 | scoring raises iff `audiences` or `competitors` holds a scalar, or `attendees` or `prestige` holds a non-number; missing keys never raise |
| `Merging.SameIdentity` | auto-update-package/event_updater.py:207 | the identity test raises only KeyError, and it is true iff both events have `name` and `dates` and both values agree |
| `Merging.IsDuplicate` | auto-update-package/event_updater.py:207-208 | the `any(...)` scan loop returns exactly `AnyDuplicate`, the short-circuit scan that stops at the first match and propagates the first KeyError |
| `Merging.MergeEvents` | auto-update-package/event_updater.py:203-209 | the merge loop returns exactly `Merged`, the copy-then-append-unless-duplicate function the merge lemmas below are stated about |
| `Merging.AnyDuplicateIsMembership` | auto-update-package/event_updater.py:207-208 | on events that all have `name` and `dates`, the scan never raises and answers whether the identity is already in the list |
| `Merging.MergeIntoSnoc` | auto-update-package/event_updater.py:206-209 | merging with one more fetched event is the earlier merge followed by one loop step |
| `Merging.MergedIsReference` | auto-update-package/event_updater.py:203-209 | on keyed events the loop cannot raise and equals the reference merge, which keeps a fetched event iff its identity is in neither the curated list nor the earlier fetched ones |
| `Merging.MergeKeepsCurated` | auto-update-package/event_updater.py:203 | a successful merge starts with all curated events, unchanged and in order, duplicates among them included; its length is between the curated count and the sum of both |
| `Merging.MergeAppendsIff` | auto-update-package/event_updater.py:206-209 | a further fetched event is appended iff no curated or earlier fetched event shares its (`name`, `dates`); otherwise the output is unchanged |
| `Merging.MergeIdentities` | auto-update-package/event_updater.py:206-209 | on events that all have `name` and `dates`, the merge cannot raise and the output's identities are exactly the curated identities together with the fetched ones |
| `Merging.MergeAppendedEvents` | auto-update-package/event_updater.py:206-209 | on events that all have `name` and `dates`, the merge cannot raise, the appended events are a subsequence of the fetched list, none shares an identity with a curated event, and no two share one with each other |
| `Merging.MergeAppendsFetchedInOrder` | auto-update-package/event_updater.py:203-209 | on every successful merge, keyed or not, the events after the curated prefix are a subsequence of the fetched list, unchanged and in fetched order |
| `Merging.MergeIdempotent` | auto-update-package/event_updater.py:206-209 | on events that all have `name` and `dates`, merging the same fetched events into the merged list again returns it unchanged |
| `Merging.FirstFetchedNeedsNoKeys` | auto-update-package/event_updater.py:206-209 | with nothing curated, the first fetched event is appended without any key being read; a second one then raises KeyError if the first lacks `name` |
| `Merging.IdempotenceNeedsKeys` | auto-update-package/event_updater.py:206-208 | an event without `name` is appended to an empty list, but merging it into a list that holds it raises KeyError("name") |
| `Merging.DatesReadOnlyOnNameMatch` | auto-update-package/event_updater.py:207 | an event without `dates` is passed over when names differ and raises KeyError("dates") when they match |
| `Merging.CuratedWithoutNameRaises` | auto-update-package/event_updater.py:207 | a first curated event without `name` makes any non-empty fetch raise KeyError("name") |
| `Rescoring.NeedsRescore` | auto-update-package/event_updater.py:213 | an event without `score` or without `autoUpdate` is rescored; one with `score` and `autoUpdate` null, false or 0 is not |
| `Rescoring.Rescored` | auto-update-package/event_updater.py:213-215 | one loop iteration raises iff the event needs rescoring and its scoring raises, and it never removes a key |
| `Rescoring.UpdateScores` | auto-update-package/event_updater.py:212-215 | the in-place rescoring loop returns exactly `RescoredAll`, which stops at the first scoring error |
| `Rescoring.RespectsAutoUpdate` | auto-update-package/event_updater.py:213 | an event with `score` and a falsy `autoUpdate` is left completely unchanged |
| `Rescoring.UpdatesOnlyScoreFields` | auto-update-package/event_updater.py:213-215 | an event that needs rescoring fails iff its scoring fails; otherwise its keys gain exactly `score`, `tier` and `scoreBreakdown`, which hold the score of its pre-update contents, and every other key keeps its value |
| `Rescoring.TierKeyCollision` | auto-update-package/event_updater.py:115-120 | after an update the `tier` key holds the computed tier (1..3), and scoring the updated event again reads that tier as its commercial tier |
| `Rescoring.SecondUpdateCanDiffer` | auto-update-package/event_updater.py:115-120 | because of the collision, an event with commercial tier 1 scores 54 (tier 3), and updating it again scores 48 |
| `Rescoring.RescoredAllPointwise` | auto-update-package/event_updater.py:212-215 | the loop succeeds iff every event's update succeeds; it keeps length and order and puts each event's own update in its place |
| `DailyUpdate.MergeAndRescore` | auto-update-package/event_updater.py:203-215 | merging and then rescoring returns exactly `Updated`, `Merged` followed by `RescoredAll` |
| `DailyUpdate.CuratedComeFirst` | auto-update-package/event_updater.py:203-215 | the output begins with every curated event in order, each replaced by its own update, and has at most one extra event per fetched event |
| `DailyUpdate.RescoredKeepsIdentity` | auto-update-package/event_updater.py:215 | an update never changes `name` or `dates` |
| `DailyUpdate.UpdatedIdentities` | auto-update-package/event_updater.py:203-215 | on keyed input the final output's (`name`, `dates`) pairs are exactly those of the curated and fetched inputs |
| `DailyUpdate.UpdatedEventsAreScoredOrKept` | auto-update-package/event_updater.py:212-215 | each output event that needed rescoring has a score in [48, 89] and the matching tier; every other one equals its merged input |
| `DailyUpdate.CuratedOnlyIsScored` | auto-update-package/event_updater.py:95-136 | a curated DMEXCO record with nothing fetched scores 25 + 22 + 12 + 14 + 8 = 81, tier 1 |
| `DailyUpdate.FetchedOnlyIsScored` | auto-update-package/event_updater.py:206-215 | a fetched meetup with nothing curated is kept and scores 48, tier 3 |
| `DailyUpdate.OptedOutCuratedWins` | auto-update-package/event_updater.py:206-215 | a curated ShopTalk with a score and `autoUpdate` false, fetched again, comes out once and untouched |

## Left out

- Fetching over HTTP (`fetch_from_apis`) and scraping (`fetch_from_10times`) are network I/O. The fetched list is an input of arbitrary events.
- `normalize_data` always returns an empty list. It is not modelled, and the fetched list is left arbitrary rather than empty.
- Loading the curated file (`ManualEventManager.get_core_events`) is file I/O. The curated list is an input. File contents that are not a list of JSON objects are not modelled.
- Writing the snapshot (`update_events_json`) is not modelled. That covers the file write, its success flag, `lastUpdated`, `nextUpdate` from the wall clock, `totalEvents = len(events)` and the source list. An `Err` result stands for `daily_update` raising before that write.
- The scheduler loop, the `RUN_ONCE` entry point and the logging set-up are not modelled.
- Floating-point JSON numbers are not modelled. `attendees`, `prestige` and every other number are integers.
- Merging.SameIdentity: compares `name` and `dates` by structural equality. Python's `==` also treats `True` as equal to `1` and `False` as equal to `0`, so two events named `1` and `true` would count as duplicates in the source but not in the model.
- Merging.MergeAppendedEvents: the identity halves (none clashes with a curated event, no two clash) are stated only for events that all have `name` and `dates`, because identities are undefined otherwise. The fetched-order half holds on every successful merge and is proved as `MergeAppendsFetchedInOrder`.
- Merging.MergeIdempotent: stated only for events that all have `name` and `dates`. Without them the claim is false of the code: `IdempotenceNeedsKeys` shows an event without `name` that merges once but raises KeyError on the second merge.
- Merging.MergeAppendsIff: stated, like the other identity lemmas, only for events that all have `name` and `dates`. For unkeyed events, only the KeyError cases in `FirstFetchedNeedsNoKeys` and `CuratedWithoutNameRaises` are proved.
- Dict key order is lost, because maps are unordered. This covers where `event.update` places new keys and the order of the `scoreBreakdown` entries, and affects only how the JSON output is laid out.
- Object identity and aliasing are not modelled. The lists are values. The shallow `copy()` means the source updates the curated and fetched dicts themselves, but neither original list is read again, so the model's results do not depend on it.
- Running time (the quadratic duplicate scan) is not modelled.
