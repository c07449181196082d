/**
  Around the rollout step: ordering the releases newest first, finding or creating the release for the
  target's current hash and config, and deleting old releases.
 */
module Selection {
  import opened Model
  import opened Rollout
  import opened StepLaws
  import Sorting

  const RELEASES_TO_KEEP := 10
  const TIME_TO_KEEP := 48 * 3600 * SECOND

  // ---------- Ordering ----------

  /** `r` comes before `s`: unsaved releases first, then the most recently created. */
  predicate Newer(r: Release, s: Release) {
    if r.meta.created != Never && s.meta.created != Never then r.meta.created.time > s.meta.created.time
    else r.meta.created == Never && s.meta.created != Never
  }

  function SortByLatest(rs: seq<Release>): seq<Release> {
    Sorting.Sort(rs, Newer)
  }

  ghost predicate NewestFirst(rs: seq<Release>) {
    Sorting.Sorted(rs, Newer)
  }

  /** The order is a strict weak order, sorting by it is a stable rearrangement, and no other list is one. */
  lemma OrderingByLatest(rs: seq<Release>)
    ensures Sorting.StrictWeakOrder(Newer)
    ensures NewestFirst(SortByLatest(rs)) && Sorting.StableRearrangement(rs, SortByLatest(rs), Newer)
    ensures var ss := SortByLatest(rs);
      forall i, j :: 0 <= i < j < |ss| && ss[i].meta.created.At? ==>
        ss[j].meta.created.At? && ss[i].meta.created.time >= ss[j].meta.created.time
    ensures forall ss :: NewestFirst(ss) && Sorting.StableRearrangement(rs, ss, Newer) ==> ss == SortByLatest(rs)
  {
    Sorting.SortIsStable(rs, Newer);
    var sorted := SortByLatest(rs);
    assert forall i, j :: 0 <= i < j < |sorted| ==> !Newer(sorted[j], sorted[i]);
    forall ss | NewestFirst(ss) && Sorting.StableRearrangement(rs, ss, Newer) ensures ss == SortByLatest(rs) {
      Sorting.SortedIsUnique(ss, SortByLatest(rs), Newer);
    }
  }

  lemma SortedStays(rs: seq<Release>)
    requires NewestFirst(rs)
    ensures SortByLatest(rs) == rs
  {
    OrderingByLatest(rs);
  }

  // ---------- Find or create ----------

  predicate Matches(r: Release, hash: string, config: Option<string>) {
    r.meta.hash == hash && (config.None? || r.meta.config == config.value)
  }

  /** The newest release for this hash and config, or -1. */
  function FirstMatch(rs: seq<Release>, hash: string, config: Option<string>): (k: int)
    ensures -1 <= k < |rs|
    ensures k >= 0 ==> Matches(rs[k], hash, config) && forall j :: 0 <= j < k ==> !Matches(rs[j], hash, config)
    ensures k < 0 ==> forall j :: 0 <= j < |rs| ==> !Matches(rs[j], hash, config)
  {
    if rs == [] then -1
    else if Matches(rs[0], hash, config) then 0
    else
      var k := FirstMatch(rs[1..], hash, config);
      if k < 0 then -1 else k + 1
  }

  /** A release as it is first built: unsaved, with no role, traffic or pods. */
  predicate Unstarted(r: Release) {
    r.meta.created == Never && r.role == NoRole && r.traffic == 0 && r.desired == 0 && !r.marked
    && r.status.available == 0
  }

  /** The releases a reconcile deploys, and the older release it deletes from the cluster to force it back. */
  datatype Selected = Selected(releases: seq<Release>, deleted: Option<Release>)

  function Select(listed: seq<Release>, hash: string, config: Option<string>, draft: Release): Selected {
    var rs := SortByLatest(listed);
    var k := FirstMatch(rs, hash, config);
    if k == 0 then Selected(SortByLatest(rs), None)
    else Selected(SortByLatest(rs + [draft]), if k < 0 then None else Some(rs[k]))
  }

  /** The search and creation as the reconcile runs them. */
  method SelectReleases(listed: seq<Release>, hash: string, config: Option<string>, draft: Release)
    returns (releases: seq<Release>, deleted: Option<Release>)
    ensures Selected(releases, deleted) == Select(listed, hash, config, draft)
  {
    hide SortByLatest;
    releases, deleted := SortByLatest(listed), None;
    var existing: Option<Release> := None;
    var releaseIdx := 0;
    var idx := 0;
    while idx < |releases|
      invariant 0 <= idx <= |releases|
      invariant existing == None && releaseIdx == 0
      invariant forall j :: 0 <= j < idx ==> !Matches(releases[j], hash, config)
    {
      var ar := releases[idx];
      if ar.meta.hash == hash {
        if config.None? || config.value == ar.meta.config {
          existing, releaseIdx := Some(ar), idx;
          break;
        }
      }
      idx := idx + 1;
    }
    assert existing.Some? ==> releaseIdx == FirstMatch(releases, hash, config);
    if releaseIdx != 0 {
      deleted := existing;
      existing := None;
    }
    if existing == None {
      releases := releases + [draft];
    }
    releases := SortByLatest(releases);
  }

  /** A new release goes in front; nothing else moves. */
  lemma DraftGoesFirst(rs: seq<Release>, draft: Release)
    requires NewestFirst(rs) && draft.meta.created == Never
    requires forall i :: 0 <= i < |rs| ==> rs[i].meta.created != Never
    ensures SortByLatest(rs + [draft]) == [draft] + rs
  {
    OrderingByLatest(rs + [draft]);
    var ss := [draft] + rs;
    forall x ensures Sorting.Peers(ss, x, Newer) == Sorting.Peers(SortByLatest(rs + [draft]), x, Newer) {
      PeersOfAppended(rs, draft, x);
    }
    Sorting.SortedIsUnique(ss, SortByLatest(rs + [draft]), Newer);
  }

  lemma {:induction false} PeersOfAppended(rs: seq<Release>, draft: Release, x: Release)
    requires draft.meta.created == Never
    requires forall i :: 0 <= i < |rs| ==> rs[i].meta.created != Never
    ensures Sorting.Peers(rs + [draft], x, Newer) == Sorting.Peers([draft] + rs, x, Newer)
  {
    assert ([draft] + rs)[1..] == rs;
    if rs == [] {
      assert rs + [draft] == [draft] + rs;
    } else {
      assert (rs + [draft])[1..] == rs[1..] + [draft];
      PeersOfAppended(rs[1..], draft, x);
      assert ([draft] + rs[1..])[1..] == rs[1..];
      if x.meta.created == Never {
        NoSavedPeers(rs, x);
        NoSavedPeers(rs[1..], x);
      }
    }
  }

  lemma NoSavedPeers(rs: seq<Release>, x: Release)
    requires x.meta.created == Never
    requires forall i :: 0 <= i < |rs| ==> rs[i].meta.created != Never
    ensures Sorting.Peers(rs, x, Newer) == []
  {
  }

  /**
    Deploy intent: the list to deploy is headed by a release with the current hash and, if there is a config,
    with its name. The new release goes in front of the sorted list exactly when the newest release has another
    hash or, with a config, another config name.
   */
  lemma HeadIsCurrent(listed: seq<Release>, hash: string, config: Option<string>, draft: Release)
    requires forall i :: 0 <= i < |listed| ==> listed[i].meta.created != Never
    requires draft.meta.created == Never && draft.meta.hash == hash && (config.Some? ==> draft.meta.config == config.value)
    ensures var selected := Select(listed, hash, config, draft);
      var rs := SortByLatest(listed);
      && selected.releases != [] && NewestFirst(selected.releases)
      && selected.releases[0].meta.hash == hash
      && (config.Some? ==> selected.releases[0].meta.config == config.value)
      && selected.releases ==
        if rs != [] && rs[0].meta.hash == hash && (config.Some? ==> rs[0].meta.config == config.value) then rs
        else [draft] + rs
  {
    OrderingByLatest(listed);
    var rs := SortByLatest(listed);
    forall i | 0 <= i < |rs| ensures rs[i].meta.created != Never {
      assert rs[i] in multiset(rs);
      assert rs[i] in listed;
    }
    SortedStays(rs);
    DraftGoesFirst(rs, draft);
    OrderingByLatest(rs + [draft]);
  }

  /**
    Forcing an older release back: one is deleted exactly when the newest release is not for the current hash
    and config but an older one is, and then it is the newest of those.
   */
  lemma ForcedBack(listed: seq<Release>, hash: string, config: Option<string>, draft: Release)
    ensures var deleted := Select(listed, hash, config, draft).deleted;
      var rs := SortByLatest(listed);
      forall r :: deleted == Some(r) <==>
        exists k :: 0 < k < |rs| && r == rs[k]
          && r.meta.hash == hash && (config.Some? ==> r.meta.config == config.value)
          && forall j :: 0 <= j < k ==>
            rs[j].meta.hash != hash || (config.Some? && rs[j].meta.config != config.value)
  {
    hide SortByLatest;
    var rs := SortByLatest(listed);
    var k := FirstMatch(rs, hash, config);
    if k > 0 {
      assert rs[k].meta.hash == hash && (config.Some? ==> rs[k].meta.config == config.value);
    }
  }

  /** An un-gated reconcile of that list moves towards a release with the current hash and config, unless it is
      marked bad. */
  lemma DeploysCurrent(
    listed: seq<Release>, hash: string, config: Option<string>, draft: Release,
    spec: TargetSpec, status: TargetStatus, now: int)
    requires forall i :: 0 <= i < |listed| ==> listed[i].meta.created != Never
    requires Unstarted(draft)
    requires draft.meta.hash == hash && (config.Some? ==> draft.meta.config == config.value)
    ensures var rs := Select(listed, hash, config, draft).releases;
      Ungated(rs, spec, status, now) && rs[0].role != Bad ==>
        var out := Step(rs, spec, status, now).releases;
        && |out| == |rs| && out[0].marked && CurrentTarget(out) == 0
        && out[0].meta.hash == hash && (config.Some? ==> out[0].meta.config == config.value)
  {
    hide Step, Gated, Select, SortByLatest, NextActive;
    HeadIsCurrent(listed, hash, config, draft);
    var rs := Select(listed, hash, config, draft).releases;
    if Ungated(rs, spec, status, now) && rs[0].role != Bad {
      StepAsIntended(rs, spec, status, now);
      RoleDiscipline(rs, spec, status, now);
      ActiveOfDisciplined(Step(rs, spec, status, now).releases, NextActive(rs, spec, status), FirstDeployable(rs));
    }
  }

  // ---------- Pruning ----------

  predicate Young(r: Release, now: int) {
    r.meta.created.At? && now - r.meta.created.time < TIME_TO_KEEP
  }

  /** What is left of `rs` when everything not young goes. */
  function YoungOnly(rs: seq<Release>, now: int): seq<Release> {
    if rs == [] then []
    else (if Young(rs[0], now) then [rs[0]] else []) + YoungOnly(rs[1..], now)
  }

  function Survivors(rs: seq<Release>, now: int): seq<Release> {
    if |rs| <= RELEASES_TO_KEEP then rs
    else rs[..RELEASES_TO_KEEP] + YoungOnly(rs[RELEASES_TO_KEEP..], now)
  }

  /** The list a reconcile goes on with after pruning: at most the ten newest. */
  function Routed(rs: seq<Release>): seq<Release> {
    if |rs| <= RELEASES_TO_KEEP then rs else rs[..RELEASES_TO_KEEP]
  }

  /** Deletes old releases: returns the list to go on with, and what the cluster still holds. */
  method PruneReleases(rs: seq<Release>, now: int) returns (routed: seq<Release>, stored: seq<Release>)
    ensures routed == Routed(rs) && stored == Survivors(rs, now)
  {
    routed, stored := rs, rs;
    if |rs| > RELEASES_TO_KEEP {
      var toDelete := rs[RELEASES_TO_KEEP..];
      routed := rs[..RELEASES_TO_KEEP];
      stored := routed;
      for i := 0 to |toDelete|
        invariant stored + YoungOnly(toDelete[i..], now) == Survivors(rs, now)
      {
        assert toDelete[i..][1..] == toDelete[i + 1..];
        if Young(toDelete[i], now) {
          stored := stored + [toDelete[i]];
        }
      }
    }
  }

  /** The list to go on with can be read off what is stored. */
  lemma RoutedOfSurvivors(rs: seq<Release>, now: int)
    ensures Routed(Survivors(rs, now)) == Routed(rs) == rs[..if |rs| < 10 then |rs| else 10]
  {
  }

  /** Release `i` survives. */
  predicate Survives(rs: seq<Release>, now: int, i: nat)
    requires i < |rs|
  {
    i < RELEASES_TO_KEEP || Young(rs[i], now)
  }

  lemma {:induction false} YoungOnlyIsPrefix(rs: seq<Release>, now: int)
    requires NewestFirst(rs) && forall i :: 0 <= i < |rs| ==> rs[i].meta.created != Never
    ensures var out := YoungOnly(rs, now);
      && |out| <= |rs| && out == rs[..|out|]
      && forall i :: 0 <= i < |rs| ==> (i < |out| <==> Young(rs[i], now))
  {
    if rs != [] {
      YoungOnlyIsPrefix(rs[1..], now);
      forall i | 0 < i < |rs| && Young(rs[i], now) ensures Young(rs[0], now) {
        assert !Newer(rs[i], rs[0]);
      }
    }
  }

  /** The survivors are a prefix of the list: exactly the ten newest and everything younger than 48 hours. */
  lemma {:induction false} PruningKeepsPrefix(rs: seq<Release>, now: int)
    requires NewestFirst(rs) && forall i :: 0 <= i < |rs| ==> rs[i].meta.created != Never
    ensures var out := Survivors(rs, now);
      && |out| <= |rs| && out == rs[..|out|]
      && (forall i :: 0 <= i < |rs| ==> (i < |out| <==> Survives(rs, now, i)))
      && (forall i :: 0 <= i < |rs| ==>
        (i < |out| <==> i < 10 || now - rs[i].meta.created.time < 172_800 * 1_000_000_000))
  {
    if |rs| > RELEASES_TO_KEEP {
      var tail := rs[RELEASES_TO_KEEP..];
      YoungOnlyIsPrefix(tail, now);
      forall i | RELEASES_TO_KEEP <= i < |rs| ensures tail[i - RELEASES_TO_KEEP] == rs[i] {
      }
    }
  }

  lemma {:induction false} TotalOfParts(rs: seq<Release>, ss: seq<Release>)
    ensures Total(rs + ss) == Total(rs) + Total(ss)
  {
    if ss == [] {
      assert rs + ss == rs;
    } else {
      assert (rs + ss)[..|rs + ss| - 1] == rs + ss[..|ss| - 1];
      TotalOfParts(rs, ss[..|ss| - 1]);
    }
  }

  /**
    The list routing sees after an un-gated reconcile still totals 100 exactly when the active release is
    among the ten newest, or the target is and already has all the traffic.
   */
  lemma RoutedTotal(rs: seq<Release>, spec: TargetSpec, status: TargetStatus, now: int)
    requires Ungated(rs, spec, status, now)
    ensures var out := Step(rs, spec, status, now).releases;
      var a, t := NextActive(rs, spec, status), FirstDeployable(rs);
      |out| == |rs| && 0 <= t <= a < |rs| &&
      (Total(Routed(out)) == 100 <==>
        a < RELEASES_TO_KEEP || (t < RELEASES_TO_KEEP && out[t].traffic == 100))
  {
    hide Step, Gated, NextActive, Total;
    StepAsIntended(rs, spec, status, now);
    RoleDiscipline(rs, spec, status, now);
    TrafficTotals100(rs, spec, status, now);
    OthersIdle(rs, spec, status, now);
    var out := Step(rs, spec, status, now).releases;
    var a, t := NextActive(rs, spec, status), FirstDeployable(rs);
    if |out| > RELEASES_TO_KEEP {
      var head, tail := out[..RELEASES_TO_KEEP], out[RELEASES_TO_KEEP..];
      assert out == head + tail;
      TotalOfParts(head, tail);
      if a < RELEASES_TO_KEEP {
        TotalOfNone(tail);
      } else if t < RELEASES_TO_KEEP {
        TotalOfTwo(head, t, t);
      } else {
        TotalOfNone(head);
      }
    }
  }

  /** Pruning after an un-gated reconcile deletes no release with traffic when the active one is among the ten newest. */
  lemma PruningSparesTraffic(rs: seq<Release>, spec: TargetSpec, status: TargetStatus, now: int, i: nat)
    requires Ungated(rs, spec, status, now) && i < |rs|
    requires NextActive(rs, spec, status) < RELEASES_TO_KEEP
    ensures var out := Step(rs, spec, status, now).releases;
      |out| == |rs| && (out[i].traffic != 0 ==> Survives(out, now, i))
  {
    hide Step, Gated, NextActive;
    StepAsIntended(rs, spec, status, now);
    RoleDiscipline(rs, spec, status, now);
    OthersIdle(rs, spec, status, now);
  }
}
