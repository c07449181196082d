/**
  Runs: any sequence of deployment reconciles, release reconciles, user actions and passing time.
 */
module Runs {
  import opened Model
  import opened Rollout
  import opened StepLaws
  import opened Selection
  import opened ReleaseController

  datatype World = World(releases: seq<Release>, spec: TargetSpec, status: TargetStatus, now: int)

  datatype Action =
    | Deploy                                              // the deployment controller reconciles
    | Draft(release: Release)                             // a new release joins the list, in front
    | Sync(name: string, live: Option<ReplicaSet>, pods: Pods, timeout: int) // the release controller reconciles
    | MarkBad(name: string)                               // a user rolls a release back
    | Tick(elapsed: nat)                                  // time passes
    | Edit(spec: TargetSpec)                              // the target's spec changes

  /** Saving gives an unsaved release its creation time. */
  function Saved(r: Release, now: int): Release {
    if r.meta.created == Never then r.(meta := r.meta.(created := At(now))) else r
  }

  function SaveAll(rs: seq<Release>, now: int): (out: seq<Release>)
    ensures |out| == |rs| && forall i :: 0 <= i < |rs| ==> out[i] == Saved(rs[i], now)
  {
    seq(|rs|, i requires 0 <= i < |rs| => Saved(rs[i], now))
  }

  function MarkAll(rs: seq<Release>, name: string): (out: seq<Release>)
    ensures |out| == |rs|
    ensures forall i :: 0 <= i < |rs| ==> out[i] == if rs[i].meta.name == name then rs[i].(role := Bad) else rs[i]
  {
    seq(|rs|, i requires 0 <= i < |rs| => if rs[i].meta.name == name then rs[i].(role := Bad) else rs[i])
  }

  function Synced(r: Release, a: Action, now: int): Release
    requires a.Sync?
  {
    if r.meta.name == a.name then r.(status := SyncedStatus(r, a.live, a.pods, a.timeout, now)) else r
  }

  function SyncAll(rs: seq<Release>, a: Action, now: int): (out: seq<Release>)
    requires a.Sync?
    ensures |out| == |rs| && forall i :: 0 <= i < |rs| ==> out[i] == Synced(rs[i], a, now)
  {
    seq(|rs|, i requires 0 <= i < |rs| => Synced(rs[i], a, now))
  }

  function StepOf(w: World): Outcome {
    Step(w.releases, w.spec, w.status, w.now)
  }

  predicate UngatedAt(w: World) {
    Ungated(w.releases, w.spec, w.status, w.now)
  }

  function Next(w: World, a: Action): World {
    match a
    case Deploy =>
      w.(releases := Survivors(SaveAll(StepOf(w).releases, w.now), w.now), status := StepOf(w).status)
    case Draft(r) => w.(releases := [r] + w.releases)
    case Sync(_, _, _, _) => w.(releases := SyncAll(w.releases, a, w.now))
    case MarkBad(name) => w.(releases := MarkAll(w.releases, name))
    case Tick(elapsed) => w.(now := w.now + elapsed)
    case Edit(spec) => w.(spec := spec)
  }

  function Run(w: World, acts: seq<Action>): World
    decreases |acts|
  {
    if acts == [] then w else Run(Next(w, acts[0]), acts[1..])
  }

  /** How many of the actions are reconciles that pass the gate. */
  function UngatedCount(w: World, acts: seq<Action>): nat
    decreases |acts|
  {
    if acts == [] then 0
    else (if acts[0] == Deploy && UngatedAt(w) then 1 else 0) + UngatedCount(Next(w, acts[0]), acts[1..])
  }

  /** Every action along the run is taken in a world where `ok` holds of it. */
  ghost predicate Along(w: World, acts: seq<Action>, ok: (World, Action) -> bool)
    decreases |acts|
  {
    acts != [] ==> ok(w, acts[0]) && Along(Next(w, acts[0]), acts[1..], ok)
  }

  // ---------- What holds in every run ----------

  /** Releases are newest first and created in the past, shares, pod counts and scale bounds are not
      negative, and a release being moved towards is newer than any active one. */
  ghost predicate Orderly(w: World) {
    && NewestFirst(w.releases)
    && (forall i :: 0 <= i < |w.releases| && w.releases[i].meta.created.At? ==> w.releases[i].meta.created.time <= w.now)
    && (forall i :: 0 <= i < |w.releases| ==> w.releases[i].traffic >= 0 && w.releases[i].status.available >= 0)
    && w.spec.scaleMin >= 0 && w.spec.scaleMax >= 0
    && TargetBeforeActive(w.releases)
  }

  /** What users, the cluster and the clock may do: new releases are unstarted and newly named, pod counts
      and scale bounds are not negative. */
  predicate Allowed(w: World, a: Action) {
    match a
    case Draft(r) => Unstarted(r) && forall i :: 0 <= i < |w.releases| ==> w.releases[i].meta.name != r.meta.name
    case Sync(_, live, _, _) => live.Some? ==> live.value.available >= 0
    case Edit(spec) => spec.scaleMin >= 0 && spec.scaleMax >= 0
    case _ => true
  }

  /** `next` is what saving and pruning leave of `out`: a prefix, at least the ten newest. */
  ghost predicate Kept(out: seq<Release>, next: seq<Release>, now: int) {
    && |next| <= |out|
    && (forall i :: 0 <= i < |next| ==> next[i] == Saved(out[i], now))
    && (|next| >= RELEASES_TO_KEEP || |next| == |out|)
  }

  lemma StepKeepsMeta(w: World)
    ensures var out := StepOf(w).releases;
      |out| == |w.releases| &&
      forall i :: 0 <= i < |out| ==> out[i].meta == w.releases[i].meta && out[i].status == w.releases[i].status
  {
    hide Advance;
    if UngatedAt(w) {
      AdvanceKeeps(w.releases, w.spec, w.status, w.now);
    }
  }

  lemma StepChangesNothing(w: World)
    requires !UngatedAt(w)
    ensures StepOf(w).releases == w.releases && StepOf(w).status == w.status
  {
    hide Advance;
  }

  lemma DeployKeeps(w: World)
    requires Orderly(w)
    ensures var out := StepOf(w).releases;
      var next := Next(w, Deploy).releases;
      && |out| == |w.releases|
      && NewestFirst(SaveAll(out, w.now))
      && Kept(out, next, w.now)
  {
    hide StepOf, TargetBeforeActive;
    StepKeepsMeta(w);
    var out := StepOf(w).releases;
    var all := SaveAll(out, w.now);
    assert NewestFirst(all) by {
      forall i, j | 0 <= i < j < |all| ensures !Newer(all[j], all[i]) {
        assert !Newer(w.releases[j], w.releases[i]);
      }
    }
    PruningKeepsPrefix(all, w.now);
  }

  lemma OrderlyDeploy(w: World)
    requires Orderly(w)
    ensures Orderly(Next(w, Deploy))
  {
    hide Step, NextActive, Gated, NewestFirst, Survivors, TargetBeforeActive;
    DeployKeeps(w);
    StepKeepsMeta(w);
    DeployRoles(w);
    var out := StepOf(w).releases;
    KeptOrder(out, Next(w, Deploy).releases, w.now);
  }

  lemma KeptOrder(out: seq<Release>, next: seq<Release>, now: int)
    requires Kept(out, next, now) && NewestFirst(SaveAll(out, now)) && TargetBeforeActive(out)
    ensures NewestFirst(next) && TargetBeforeActive(next)
  {
    hide Newer;
    assert forall i :: 0 <= i < |next| ==> next[i] == SaveAll(out, now)[i];
  }

  lemma DeployRoles(w: World)
    requires Orderly(w)
    ensures var out := StepOf(w).releases;
      TargetBeforeActive(out) && |out| == |w.releases| && forall i :: 0 <= i < |out| ==> out[i].traffic >= 0
  {
    hide Advance, NextActive, Gated, MakePlan, AvailablePercent, FirstDeployable;
    StepKeepsMeta(w);
    if UngatedAt(w) {
      RoleDiscipline(w.releases, w.spec, w.status, w.now);
      SharesStayInRange(w);
    }
  }

  /** From non-negative numbers, an un-gated reconcile leaves every share in 0..100. */
  lemma SharesStayInRange(w: World)
    requires UngatedAt(w)
    requires w.spec.scaleMin >= 0 && w.spec.scaleMax >= 0
    requires forall i :: 0 <= i < |w.releases| ==> w.releases[i].traffic >= 0 && w.releases[i].status.available >= 0
    ensures AllShares(StepOf(w).releases)
  {
    hide Step, NextActive, Gated, AvailablePercent, FirstDeployable, RampPods, RampShare, CurrentTarget;
    SharesInRange(w.releases, w.spec, w.status, w.now);
    PlanActive(w.releases, w.spec, w.status);
    var plan, d := PlanOf(w.releases, w.spec, w.status), DesiredInstances(w.spec, w.status);
    if plan.active != plan.target {
      assert d > 0;
      PercentAtMost100(w.releases[plan.target].status.available, d);
    }
  }

  lemma OrderlyDraft(w: World, r: Release)
    requires Orderly(w) && Allowed(w, Draft(r))
    ensures Orderly(Next(w, Draft(r)))
  {
    var next := [r] + w.releases;
    forall i, j | 0 <= i < j < |next| ensures !Newer(next[j], next[i]) {
      if i > 0 {
        assert !Newer(w.releases[j - 1], w.releases[i - 1]);
      }
    }
  }

  /** An action that keeps identities, shares and the order of roles, and good pod counts, keeps a world orderly. */
  lemma OrderlySame(w: World, next: World)
    requires Orderly(w)
    requires next.spec == w.spec && next.now == w.now && |next.releases| == |w.releases|
    requires forall i :: 0 <= i < |w.releases| ==>
      var r, s := w.releases[i], next.releases[i];
      && s.meta == r.meta && s.traffic == r.traffic && s.status.available >= 0
      && (s.role == r.role || s.role == Bad)
    ensures Orderly(next)
  {
    assert forall i, j :: 0 <= i < j < |w.releases| ==> !Newer(w.releases[j], w.releases[i]);
  }

  /** Whatever happens, orderly worlds stay orderly. */
  lemma OrderlyNext(w: World, a: Action)
    requires Orderly(w) && Allowed(w, a)
    ensures Orderly(Next(w, a))
  {
    hide Step, Survivors, NewestFirst, TargetBeforeActive, Classify, GaveUp;
    match a
    case Deploy => OrderlyDeploy(w);
    case Draft(r) => OrderlyDraft(w, r);
    case Sync(_, _, _, _) => OrderlySame(w, Next(w, a));
    case MarkBad(_) => OrderlySame(w, Next(w, a));
    case Tick(_) =>
    case Edit(_) =>
  }

  // ---------- Traffic over whole runs ----------

  ghost predicate Conserved(w: World) {
    Total(w.releases) == 100 && AllShares(w.releases)
  }

  /** Whatever carries traffic after this reconcile is among the ten newest. */
  predicate TenNewestCarry(w: World) {
    if UngatedAt(w) then NextActive(w.releases, w.spec, w.status) < RELEASES_TO_KEEP
    else forall i :: RELEASES_TO_KEEP <= i < |w.releases| ==> w.releases[i].traffic == 0
  }

  lemma KeptTotal(out: seq<Release>, next: seq<Release>, now: int)
    requires Kept(out, next, now)
    requires forall i :: RELEASES_TO_KEEP <= i < |out| ==> out[i].traffic == 0
    ensures Total(next) == Total(out)
  {
    hide Total;
    var head, tail := out[..|next|], out[|next|..];
    assert out == head + tail;
    TotalOfParts(head, tail);
    TotalOfNone(tail);
    SameTotals(next, head);
  }

  lemma ConservedDeploy(w: World)
    requires Orderly(w) && TenNewestCarry(w) && (UngatedAt(w) || Conserved(w))
    ensures Conserved(Next(w, Deploy))
  {
    hide Advance, NextActive, Gated, FirstDeployable, Total, MakePlan;
    DeployKeeps(w);
    var out := StepOf(w).releases;
    if UngatedAt(w) {
      TrafficTotals100(w.releases, w.spec, w.status, w.now);
      SharesStayInRange(w);
      OthersIdle(w.releases, w.spec, w.status, w.now);
      PlanActive(w.releases, w.spec, w.status);
    }
    KeptTotal(out, Next(w, Deploy).releases, w.now);
  }

  lemma ConservedNext(w: World, a: Action)
    requires Orderly(w) && Allowed(w, a) && (a == Deploy ==> TenNewestCarry(w))
    requires Conserved(w) || (a == Deploy && UngatedAt(w))
    ensures Conserved(Next(w, a))
  {
    hide Ungated, Step, SyncedStatus, TenNewestCarry;
    match a
    case Deploy => ConservedDeploy(w);
    case Draft(r) =>
      TotalOfParts([r], w.releases);
      TotalOfTwo([r], 0, 0);
    case Sync(_, _, _, _) => SameTotals(w.releases, Next(w, a).releases);
    case MarkBad(_) => SameTotals(w.releases, Next(w, a).releases);
    case Tick(_) =>
    case Edit(_) =>
  }

  /**
    From any orderly world, once one reconcile has passed the gate every later world has all shares in
    0..100 and totalling exactly 100, whatever users, the cluster and the clock do, as long as what
    carries traffic stays among the ten newest releases.
   */
  lemma {:induction false} TrafficConservedForever(w: World, acts: seq<Action>)
    requires Orderly(w)
    requires Along(w, acts, (v, a) => Allowed(v, a) && (a == Deploy ==> TenNewestCarry(v)))
    ensures Orderly(Run(w, acts))
    ensures Conserved(w) || UngatedCount(w, acts) > 0 ==> Conserved(Run(w, acts))
    decreases |acts|
  {
    hide Orderly, Conserved, Allowed, TenNewestCarry, Next, UngatedAt;
    if acts != [] {
      OrderlyNext(w, acts[0]);
      if Conserved(w) || (acts[0] == Deploy && UngatedAt(w)) {
        ConservedNext(w, acts[0]);
      }
      TrafficConservedForever(Next(w, acts[0]), acts[1..]);
    }
  }

  // ---------- One whole reconcile of the releases ----------

  /** Find or create, deploy, save and prune, over the releases the cluster lists. */
  function ReconcileReleases(w: World, listed: seq<Release>, hash: string, config: Option<string>, draft: Release): World {
    var rs := Select(listed, hash, config, draft).releases;
    var o := Step(rs, w.spec, w.status, w.now);
    w.(releases := Survivors(SaveAll(o.releases, w.now), w.now), status := o.status)
  }

  /** Unless it forces an older release back, a reconcile is one deploy, preceded by a draft exactly when
      the newest release is not for the current hash and config. */
  lemma ReconcileAsActions(w: World, listed: seq<Release>, hash: string, config: Option<string>, draft: Release)
    requires SortByLatest(listed) == w.releases
    requires forall i :: 0 <= i < |listed| ==> listed[i].meta.created != Never
    requires draft.meta.created == Never && draft.meta.hash == hash && (config.Some? ==> draft.meta.config == config.value)
    ensures ReconcileReleases(w, listed, hash, config, draft) ==
      if w.releases != [] && w.releases[0].meta.hash == hash
        && (config.Some? ==> w.releases[0].meta.config == config.value)
      then Run(w, [Deploy])
      else Run(w, [Draft(draft), Deploy])
  {
    hide Step, Survivors, Select, SortByLatest;
    HeadIsCurrent(listed, hash, config, draft);
    RunOne(w, Deploy);
    assert [Draft(draft), Deploy][1..] == [Deploy];
    RunOne(Next(w, Draft(draft)), Deploy);
  }

  lemma RunOne(w: World, a: Action)
    ensures Run(w, [a]) == Next(w, a)
  {
    hide Next;
    assert [a][1..] == [];
  }
}
