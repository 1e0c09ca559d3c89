/** The merge-and-deduplicate step of `daily_update`: the curated list is
    copied, and each fetched event is appended unless an event already in the
    growing list has the same `name` and `dates`. The scan subscripts both
    dicts, so a missing `name` or `dates` raises KeyError, but only when the
    scan actually reaches that comparison. */
module Merging {
  import opened Values

  /** `e['name'] == f['name'] and e['dates'] == f['dates']`, with Python's
      left-to-right evaluation and short-circuit `and`. */
  function SameIdentity(e: Event, f: Event): (r: Result<bool>)
    ensures r.Err? ==> r.error.KeyError?
    ensures r == Ok(true) <==>
      "name" in e && "name" in f && "dates" in e && "dates" in f
      && e["name"] == f["name"] && e["dates"] == f["dates"]
  {
    if "name" !in e then Err(KeyError("name"))
    else if "name" !in f then Err(KeyError("name"))
    else if e["name"] != f["name"] then Ok(false)
    else if "dates" !in e then Err(KeyError("dates"))
    else if "dates" !in f then Err(KeyError("dates"))
    else Ok(e["dates"] == f["dates"])
  }

  /** `any(<SameIdentity(e, f)> for e in events)`: stops at the first match
      and propagates the first exception. */
  function AnyDuplicate(events: seq<Event>, f: Event): Result<bool>
    decreases |events|
  {
    if events == [] then Ok(false)
    else
      match SameIdentity(events[0], f)
      case Err(err) => Err(err)
      case Ok(same) => if same then Ok(true) else AnyDuplicate(events[1..], f)
  }

  /** One iteration of the merge loop. */
  function MergeStep(events: seq<Event>, f: Event): Result<seq<Event>>
  {
    match AnyDuplicate(events, f)
    case Err(err) => Err(err)
    case Ok(dup) => Ok(if dup then events else events + [f])
  }

  /** The merge loop, from a list already built to the fetched events still to go. */
  function MergeInto(events: seq<Event>, fetched: seq<Event>): Result<seq<Event>>
    decreases |fetched|
  {
    if fetched == [] then Ok(events)
    else
      match MergeStep(events, fetched[0])
      case Err(err) => Err(err)
      case Ok(next) => MergeInto(next, fetched[1..])
  }

  /** The merged list before rescoring. */
  function Merged(curated: seq<Event>, fetched: seq<Event>): Result<seq<Event>>
  {
    MergeInto(curated, fetched)
  }

  /** `any(...)` as the loop Python runs. */
  method IsDuplicate(events: seq<Event>, f: Event) returns (r: Result<bool>)
    ensures r == AnyDuplicate(events, f)
  {
    var i := 0;
    while i < |events|
      invariant 0 <= i <= |events|
      invariant AnyDuplicate(events, f) == AnyDuplicate(events[i..], f)
    {
      assert events[i..][1..] == events[i + 1..];
      var same := SameIdentity(events[i], f);
      if same.Err? {
        return Err(same.error);
      }
      if same.value {
        return Ok(true);
      }
      i := i + 1;
    }
    return Ok(false);
  }

  /** Lines 203-209 of the updater: copy the curated list, then append each
      fetched event that is not a duplicate of one already in the list. */
  method MergeEvents(curated: seq<Event>, fetched: seq<Event>) returns (r: Result<seq<Event>>)
    ensures r == Merged(curated, fetched)
  {
    var all := curated;
    var i := 0;
    while i < |fetched|
      invariant 0 <= i <= |fetched|
      invariant MergeInto(all, fetched[i..]) == Merged(curated, fetched)
    {
      assert fetched[i..][1..] == fetched[i + 1..];
      var dup := IsDuplicate(all, fetched[i]);
      if dup.Err? {
        return Err(dup.error);
      }
      if !dup.value {
        all := all + [fetched[i]];
      }
      i := i + 1;
    }
    return Ok(all);
  }

  // ---------------------------------------------------------------------
  // Identity keys and an independent reference definition of the merge.

  predicate HasIdentity(e: Event)
  {
    "name" in e && "dates" in e
  }

  predicate AllKeyed(s: seq<Event>)
  {
    forall i :: 0 <= i < |s| ==> HasIdentity(s[i])
  }

  /** The deduplication key. */
  function Identity(e: Event): (Value, Value)
    requires HasIdentity(e)
  {
    (e["name"], e["dates"])
  }

  function Identities(s: seq<Event>): set<(Value, Value)>
    requires AllKeyed(s)
  {
    set i | 0 <= i < |s| :: Identity(s[i])
  }

  /** Reference merge, built from the back: the last fetched event is kept
      exactly when no curated event and no earlier fetched event shares its
      identity. It never looks at the list it is building. */
  function Reference(curated: seq<Event>, fetched: seq<Event>): seq<Event>
    requires AllKeyed(curated) && AllKeyed(fetched)
    decreases |fetched|
  {
    if fetched == [] then curated
    else
      var earlier := fetched[..|fetched| - 1];
      var last := fetched[|fetched| - 1];
      if Identity(last) in Identities(curated) + Identities(earlier)
      then Reference(curated, earlier)
      else Reference(curated, earlier) + [last]
  }

  /** `a` is `b` with some elements left out, the rest in their order. */
  predicate IsSubsequence(a: seq<Event>, b: seq<Event>)
    decreases |b|
  {
    a == [] ||
    (b != [] &&
      ((a[|a| - 1] == b[|b| - 1] && IsSubsequence(a[..|a| - 1], b[..|b| - 1]))
       || IsSubsequence(a, b[..|b| - 1])))
  }

  // ---------------------------------------------------------------------
  // Lemmas.

  lemma IdentitiesAppend(s: seq<Event>, t: seq<Event>)
    requires AllKeyed(s) && AllKeyed(t)
    ensures AllKeyed(s + t)
    ensures Identities(s + t) == Identities(s) + Identities(t)
  {
    assert AllKeyed(s + t) by {
      forall i | 0 <= i < |s + t| ensures HasIdentity((s + t)[i]) {
        if i >= |s| { assert (s + t)[i] == t[i - |s|]; }
      }
    }
    forall k | k in Identities(s + t) ensures k in Identities(s) + Identities(t) {
      var i :| 0 <= i < |s + t| && Identity((s + t)[i]) == k;
      if i >= |s| { assert (s + t)[i] == t[i - |s|]; }
    }
    forall k | k in Identities(s) + Identities(t) ensures k in Identities(s + t) {
      if k in Identities(s) {
        var i :| 0 <= i < |s| && Identity(s[i]) == k;
        assert (s + t)[i] == s[i];
      } else {
        var i :| 0 <= i < |t| && Identity(t[i]) == k;
        assert (s + t)[|s| + i] == t[i];
      }
    }
  }

  /** On keyed events the scan answers exactly "is the identity already there". */
  lemma {:induction false} AnyDuplicateIsMembership(events: seq<Event>, f: Event)
    requires AllKeyed(events) && HasIdentity(f)
    ensures AnyDuplicate(events, f) == Ok(Identity(f) in Identities(events))
    decreases |events|
  {
    if events != [] {
      AnyDuplicateIsMembership(events[1..], f);
      assert events == [events[0]] + events[1..];
      IdentitiesAppend([events[0]], events[1..]);
    }
  }

  /** Running the loop over one more fetched event is one more step. */
  lemma {:induction false} MergeIntoSnoc(events: seq<Event>, fetched: seq<Event>, x: Event)
    ensures MergeInto(events, fetched + [x]) ==
      match MergeInto(events, fetched)
      case Err(err) => Err(err)
      case Ok(r) => MergeStep(r, x)
    decreases |fetched|
  {
    if fetched == [] {
      assert [] + [x] == [x];
    } else {
      assert (fetched + [x])[1..] == fetched[1..] + [x];
      match MergeStep(events, fetched[0])
      case Err(_) =>
      case Ok(next) => MergeIntoSnoc(next, fetched[1..], x);
    }
  }

  lemma {:induction false} ReferenceFacts(curated: seq<Event>, fetched: seq<Event>)
    requires AllKeyed(curated) && AllKeyed(fetched)
    ensures AllKeyed(Reference(curated, fetched))
    ensures Identities(Reference(curated, fetched)) == Identities(curated) + Identities(fetched)
    decreases |fetched|
  {
    if fetched != [] {
      var earlier := fetched[..|fetched| - 1];
      var last := fetched[|fetched| - 1];
      assert fetched == earlier + [last];
      assert AllKeyed(earlier);
      ReferenceFacts(curated, earlier);
      IdentitiesAppend(earlier, [last]);
      IdentitiesAppend(Reference(curated, earlier), [last]);
    }
  }

  /** The loop agrees with the reference definition on keyed events, and then
      cannot raise. */
  lemma {:induction false} MergedIsReference(curated: seq<Event>, fetched: seq<Event>)
    requires AllKeyed(curated) && AllKeyed(fetched)
    ensures Merged(curated, fetched) == Ok(Reference(curated, fetched))
    decreases |fetched|
  {
    if fetched != [] {
      var earlier := fetched[..|fetched| - 1];
      var last := fetched[|fetched| - 1];
      assert fetched == earlier + [last];
      assert AllKeyed(earlier);
      MergedIsReference(curated, earlier);
      MergeIntoSnoc(curated, earlier, last);
      ReferenceFacts(curated, earlier);
      AnyDuplicateIsMembership(Reference(curated, earlier), last);
    }
  }

  /** The output starts with every curated event, unchanged and in order
      (duplicates among them included), and is no longer than the two inputs together. */
  lemma {:induction false} MergeKeepsCurated(curated: seq<Event>, fetched: seq<Event>)
    requires Merged(curated, fetched).Ok?
    ensures |curated| <= |Merged(curated, fetched).value| <= |curated| + |fetched|
    ensures Merged(curated, fetched).value[..|curated|] == curated
    decreases |fetched|
  {
    if fetched != [] {
      var next := MergeStep(curated, fetched[0]).value;
      MergeKeepsCurated(next, fetched[1..]);
      assert next[..|curated|] == curated;
      assert Merged(curated, fetched).value[..|curated|] == Merged(next, fetched[1..]).value[..|next|][..|curated|];
    }
  }

  /** A fetched event is appended exactly when no curated event and no
      earlier fetched event shares its (`name`, `dates`); otherwise the
      output is left as it was. */
  lemma MergeAppendsIff(curated: seq<Event>, fetched: seq<Event>, x: Event)
    requires AllKeyed(curated) && AllKeyed(fetched) && HasIdentity(x)
    ensures Merged(curated, fetched).Ok? && Merged(curated, fetched + [x]).Ok?
    ensures Identity(x) !in Identities(curated) + Identities(fetched) ==>
      Merged(curated, fetched + [x]).value == Merged(curated, fetched).value + [x]
    ensures Identity(x) in Identities(curated) + Identities(fetched) ==>
      Merged(curated, fetched + [x]).value == Merged(curated, fetched).value
  {
    var fx := fetched + [x];
    assert AllKeyed(fx) by { IdentitiesAppend(fetched, [x]); }
    assert fx[..|fx| - 1] == fetched;
    MergedIsReference(curated, fetched);
    MergedIsReference(curated, fx);
  }

  /** Every identity of either input appears in the output, and no other. */
  lemma MergeIdentities(curated: seq<Event>, fetched: seq<Event>)
    requires AllKeyed(curated) && AllKeyed(fetched)
    ensures Merged(curated, fetched).Ok?
    ensures AllKeyed(Merged(curated, fetched).value)
    ensures Identities(Merged(curated, fetched).value) == Identities(curated) + Identities(fetched)
  {
    MergedIsReference(curated, fetched);
    ReferenceFacts(curated, fetched);
  }

  lemma {:induction false} ReferencePrefix(curated: seq<Event>, fetched: seq<Event>)
    requires AllKeyed(curated) && AllKeyed(fetched)
    ensures var r := Reference(curated, fetched);
      |curated| <= |r| <= |curated| + |fetched| && r[..|curated|] == curated
    decreases |fetched|
  {
    if fetched != [] {
      var earlier := fetched[..|fetched| - 1];
      assert AllKeyed(earlier);
      ReferencePrefix(curated, earlier);
      var prev := Reference(curated, earlier);
      assert (prev + [fetched[|fetched| - 1]])[..|curated|] == prev[..|curated|];
    }
  }

  lemma {:induction false} ReferenceSubsequence(curated: seq<Event>, fetched: seq<Event>)
    requires AllKeyed(curated) && AllKeyed(fetched)
    ensures |curated| <= |Reference(curated, fetched)|
    ensures IsSubsequence(Reference(curated, fetched)[|curated|..], fetched)
    decreases |fetched|
  {
    ReferencePrefix(curated, fetched);
    if fetched != [] {
      var earlier := fetched[..|fetched| - 1];
      var last := fetched[|fetched| - 1];
      assert AllKeyed(earlier);
      ReferenceSubsequence(curated, earlier);
      ReferencePrefix(curated, earlier);
      var prev := Reference(curated, earlier);
      var a := prev[|curated|..];
      if Identity(last) !in Identities(curated) + Identities(earlier) {
        var r := prev + [last];
        assert r[|curated|..] == a + [last];
        assert (a + [last])[..|a + [last]| - 1] == a;
      } else if a != [] {
        assert Reference(curated, fetched) == prev;
      }
    }
  }

  lemma {:induction false} ReferenceDistinct(curated: seq<Event>, fetched: seq<Event>)
    requires AllKeyed(curated) && AllKeyed(fetched)
    ensures var r := Reference(curated, fetched);
      && |curated| <= |r|
      && AllKeyed(r)
      && (forall i :: |curated| <= i < |r| ==> Identity(r[i]) !in Identities(curated))
      && (forall i, j :: |curated| <= i < j < |r| ==> Identity(r[i]) != Identity(r[j]))
    decreases |fetched|
  {
    ReferenceFacts(curated, fetched);
    ReferencePrefix(curated, fetched);
    if fetched != [] {
      var earlier := fetched[..|fetched| - 1];
      var last := fetched[|fetched| - 1];
      assert AllKeyed(earlier);
      ReferenceDistinct(curated, earlier);
      ReferenceFacts(curated, earlier);
      var prev := Reference(curated, earlier);
      if Identity(last) !in Identities(curated) + Identities(earlier) {
        var r := prev + [last];
        forall i | |curated| <= i < |prev|
          ensures Identity(r[i]) != Identity(last)
        {
          assert r[i] == prev[i];
          assert Identity(prev[i]) in Identities(prev);
        }
      }
    }
  }

  /** The reference merge keeps the curated list as its prefix and appends a
      subsequence of the fetched events whose identities are new and distinct. */
  lemma ReferenceAppended(curated: seq<Event>, fetched: seq<Event>)
    requires AllKeyed(curated) && AllKeyed(fetched)
    ensures var r := Reference(curated, fetched);
      && |curated| <= |r|
      && r[..|curated|] == curated
      && AllKeyed(r)
      && IsSubsequence(r[|curated|..], fetched)
      && (forall i :: |curated| <= i < |r| ==> Identity(r[i]) !in Identities(curated))
      && (forall i, j :: |curated| <= i < j < |r| ==> Identity(r[i]) != Identity(r[j]))
  {
    ReferencePrefix(curated, fetched);
    ReferenceSubsequence(curated, fetched);
    ReferenceDistinct(curated, fetched);
  }

  /** On every successful merge, keyed or not, the events after the curated
      prefix are fetched events, unchanged and in their fetched order. */
  lemma {:induction false} MergeAppendsFetchedInOrder(curated: seq<Event>, fetched: seq<Event>)
    requires Merged(curated, fetched).Ok?
    ensures |curated| <= |Merged(curated, fetched).value|
    ensures IsSubsequence(Merged(curated, fetched).value[|curated|..], fetched)
    decreases |fetched|
  {
    MergeKeepsCurated(curated, fetched);
    if fetched != [] {
      var earlier := fetched[..|fetched| - 1];
      var last := fetched[|fetched| - 1];
      assert fetched == earlier + [last];
      MergeIntoSnoc(curated, earlier, last);
      MergeAppendsFetchedInOrder(curated, earlier);
      var prev := Merged(curated, earlier).value;
      var a := prev[|curated|..];
      if AnyDuplicate(prev, last) == Ok(false) {
        var r := prev + [last];
        assert r[|curated|..] == a + [last];
        assert (a + [last])[..|a + [last]| - 1] == a;
      } else if a != [] {
        assert Merged(curated, fetched).value == prev;
      }
    }
  }

  /** Appended events come from the fetched list in its order, unchanged;
      none shares an identity with a curated event (curated events win) and
      no two share one with each other (the first fetched one wins). */
  lemma MergeAppendedEvents(curated: seq<Event>, fetched: seq<Event>)
    requires AllKeyed(curated) && AllKeyed(fetched)
    ensures Merged(curated, fetched).Ok?
    ensures var r := Merged(curated, fetched).value;
      && AllKeyed(r)
      && |curated| <= |r|
      && IsSubsequence(r[|curated|..], fetched)
      && (forall i :: |curated| <= i < |r| ==> Identity(r[i]) !in Identities(curated))
      && (forall i, j :: |curated| <= i < j < |r| ==> Identity(r[i]) != Identity(r[j]))
  {
    MergedIsReference(curated, fetched);
    ReferenceAppended(curated, fetched);
  }

  /** Merging the same fetched events into the result again adds nothing. */
  lemma MergeIdempotent(curated: seq<Event>, fetched: seq<Event>)
    requires AllKeyed(curated) && AllKeyed(fetched)
    ensures Merged(curated, fetched).Ok?
    ensures AllKeyed(Merged(curated, fetched).value)
    ensures Merged(Merged(curated, fetched).value, fetched) == Merged(curated, fetched)
  {
    MergeIdentities(curated, fetched);
    var r := Merged(curated, fetched).value;
    MergedIsReference(r, fetched);
    ReferenceNoNew(r, fetched);
  }

  lemma {:induction false} ReferenceNoNew(curated: seq<Event>, fetched: seq<Event>)
    requires AllKeyed(curated) && AllKeyed(fetched)
    requires Identities(fetched) <= Identities(curated)
    ensures Reference(curated, fetched) == curated
    decreases |fetched|
  {
    if fetched != [] {
      var earlier := fetched[..|fetched| - 1];
      var last := fetched[|fetched| - 1];
      assert fetched == earlier + [last];
      assert AllKeyed(earlier);
      IdentitiesAppend(earlier, [last]);
      ReferenceNoNew(curated, earlier);
    }
  }

  /** With nothing curated, the first fetched event is appended without any
      key being read, even if it has no `name`; a second fetched event is
      then compared against it and raises KeyError if it lacks `name`. */
  lemma FirstFetchedNeedsNoKeys(x: Event, y: Event)
    ensures Merged([], [x]) == Ok([x])
    ensures "name" !in x ==> Merged([], [x, y]) == Err(KeyError("name"))
  {
    assert AnyDuplicate([], x) == Ok(false);
    assert [] + [x] == [x];
    assert MergeStep([], x) == Ok([x]);
    assert MergeInto([x], []) == Ok([x]);
    if "name" !in x {
      assert [x, y][0] == x && [x, y][1..] == [y];
      assert AnyDuplicate([x], y) == Err(KeyError("name"));
      assert MergeInto([x], [y]) == Err(KeyError("name"));
    }
  }

  /** Idempotence needs keys: an event without `name` is appended when
      nothing precedes it, but merging it again raises KeyError. */
  lemma IdempotenceNeedsKeys()
    ensures var z: Event := map[];
      Merged([], [z]) == Ok([z]) && Merged([z], [z]) == Err(KeyError("name"))
  {
    var z: Event := map[];
    FirstFetchedNeedsNoKeys(z, z);
    assert [z][0] == z && [z][1..] == [];
    assert SameIdentity(z, z) == Err(KeyError("name"));
    assert AnyDuplicate([z], z) == Err(KeyError("name"));
  }

  /** `dates` is read only once the names agree: an event without `dates`
      is passed over when the names differ, and raises KeyError when they match. */
  lemma DatesReadOnlyOnNameMatch(e: Event, f: Event)
    requires "name" in e && "name" in f && "dates" !in e
    ensures e["name"] != f["name"] ==> Merged([e], [f]) == Ok([e, f])
    ensures e["name"] == f["name"] ==> Merged([e], [f]) == Err(KeyError("dates"))
  {
    assert [f][0] == f && [f][1..] == [];
    assert [e][0] == e && [e][1..] == [];
    if e["name"] != f["name"] {
      assert SameIdentity(e, f) == Ok(false);
      assert AnyDuplicate([e], f) == AnyDuplicate([], f) == Ok(false);
    }
    assert MergeInto([e], [f]) == match MergeStep([e], f) case Err(err) => Err(err) case Ok(next) => MergeInto(next, []);
    assert [e] + [f] == [e, f];
  }

  /** A curated event without `name` makes any non-empty fetch raise. */
  lemma CuratedWithoutNameRaises(curated: seq<Event>, fetched: seq<Event>)
    requires curated != [] && "name" !in curated[0] && fetched != []
    ensures Merged(curated, fetched) == Err(KeyError("name"))
  {
  }
}
