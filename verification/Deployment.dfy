/**
  One whole reconcile of an app target, phase by phase: releases, autoscaler, service, destination rule and
  virtual service, over what the cluster stores.
 */
module Deployment {
  import opened Model
  import opened Rollout
  import opened StepLaws
  import opened Runs
  import opened Autoscaler
  import opened Routing
  import opened Splits
  import DeployReleases
  import opened ReleaseController
  import opened Selection

  /** What the cluster holds for an app target. `subsets` and `routes` are absent when there is no
      destination rule or virtual service. */
  datatype Stored = Stored(
    releases: seq<Release>, status: TargetStatus, scalers: map<string, Scaler>, service: bool,
    subsets: Option<seq<string>>, routes: Option<seq<Route>>)

  /** The releases a reconcile works on, and the outcome of deploying them. */
  function Deployed(k: Stored, spec: TargetSpec, hash: string, config: Option<string>, draft: Release, now: int): Outcome {
    Step(Select(k.releases, hash, config, draft).releases, spec, k.status, now)
  }

  /** The service is handed on when one is needed, and also in the reconcile that deletes it. */
  predicate HasService(k: Stored, spec: TargetSpec) {
    NeedsService(spec) || k.service
  }

  function Reconciled(
    k: Stored, spec: TargetSpec, hash: string, config: Option<string>, draft: Release, host: string, now: int): Stored
  {
    var o := Deployed(k, spec, hash, config, draft, now);
    var saved := SaveAll(o.releases, now);
    var routed := Routed(saved);
    var serving := WithTraffic(routed);
    Stored(
      Survivors(saved, now),
      o.status,
      ScalersAfter(spec, routed, k.scalers),
      NeedsService(spec),
      if HasService(k, spec) || k.subsets.Some? then Some(Subsets(serving)) else None,
      if HasService(k, spec) then Some(Routes(spec, host, serving)) else None)
  }

  /** Deploys release values: puts them on the heap, runs the rollout there, and reads them back. */
  method DeployValues(rs: seq<Release>, spec: TargetSpec, status: TargetStatus, now: int)
    returns (out: seq<Release>, newStatus: TargetStatus, requeue: Option<int>)
    requires rs != []
    ensures Outcome(out, newStatus, requeue) == Step(rs, spec, status, now)
  {
    hide Step;
    var objects: seq<DeployReleases.AppRelease> := [];
    for i := 0 to |rs|
      invariant |objects| == i && forall j :: 0 <= j < i ==> fresh(objects[j]) && objects[j].View() == rs[j]
      invariant DeployReleases.Distinct(objects)
    {
      var ar := new DeployReleases.AppRelease(rs[i]);
      objects := objects + [ar];
    }
    var at := new DeployReleases.AppTarget(spec, status);
    ghost var vs := DeployReleases.Views(objects);
    assert vs == rs;
    var failed;
    failed, requeue := DeployReleases.DeployReleases(at, objects, now);
    newStatus := at.status;
    out := [];
    for i := 0 to |objects|
      invariant out == Step(rs, spec, status, now).releases[..i]
    {
      out := out + [objects[i].View()];
    }
  }

  class Controller {
    var releases: seq<Release>
    var status: TargetStatus
    var scalers: map<string, Scaler>
    var service: bool
    var subsets: Option<seq<string>>
    var routes: Option<seq<Route>>

    function View(): Stored
      reads this
    {
      Stored(releases, status, scalers, service, subsets, routes)
    }

    constructor (k: Stored)
      ensures View() == k
    {
      releases, status, scalers := k.releases, k.status, k.scalers;
      service, subsets, routes := k.service, k.subsets, k.routes;
    }

    /** One reconcile; `names` lists the stored autoscalers in any order. */
    method Reconcile(
      spec: TargetSpec, hash: string, config: Option<string>, draft: Release, host: string, names: seq<string>, now: int)
      returns (requeue: Option<int>)
      requires forall n :: n in names <==> n in scalers
      modifies this
      ensures View() == Reconciled(old(View()), spec, hash, config, draft, host, now)
      ensures requeue == Deployed(old(View()), spec, hash, config, draft, now).requeue
    {
      hide Step, Select, Survivors, ScalersAfter, Routes, WithTraffic;
      var selected, deleted := SelectReleases(releases, hash, config, draft);
      SelectedSome(releases, hash, config, draft);
      var out;
      out, status, requeue := DeployValues(selected, spec, status, now);
      var routed;
      routed, releases := PruneReleases(SaveAll(out, now), now);

      scalers := ReconcileAutoScaler(spec, routed, names, scalers);

      var handedOn := NeedsService(spec) || service;
      service := NeedsService(spec);

      var serving := FilterWithTraffic(routed);
      if handedOn || subsets.Some? {
        var declared := NewDestinationRule(serving);
        subsets := Some(declared);
      }
      if handedOn {
        var built := NewVirtualService(spec, host, serving);
        routes := Some(built);
      } else {
        routes := None;
      }
    }
  }

  lemma SelectedSome(listed: seq<Release>, hash: string, config: Option<string>, draft: Release)
    ensures Select(listed, hash, config, draft).releases != []
  {
  }

  // ---------- End to end ----------

  /** All destinations are declared; there is an external route exactly when the app has an ingress and a port
      for it, and external routes send exactly 100 percent. */
  ghost predicate CarryAll(spec: TargetSpec, routes: seq<Route>, subsets: seq<string>) {
    && (forall i, j :: 0 <= i < |routes| && 0 <= j < |routes[i].destinations| ==>
      routes[i].destinations[j].subset in subsets)
    && ((exists i :: 0 <= i < |routes| && External(routes[i])) <==>
      spec.ingress.Some? && !GoesTo(spec.ports, spec.ingress.value.port, 0))
    && (forall i :: 0 <= i < |routes| && External(routes[i]) ==> Weight(routes[i].destinations) == 100)
  }

  lemma RoutesOfServing(spec: TargetSpec, host: string, serving: seq<Release>)
    requires Total(serving) == 100
    ensures CarryAll(spec, Routes(spec, host, serving), Subsets(serving))
  {
    hide WithTraffic, Weight, Total, RoutedPorts, IngressPort, IngressMatches, OnPort, GoesTo;
    var routes := Routes(spec, host, serving);
    forall i, j | 0 <= i < |routes| && 0 <= j < |routes[i].destinations|
      ensures routes[i].destinations[j].subset in Subsets(serving)
    {
      SubsetsAreDeclared(spec, host, serving, i, j);
    }
    var n := |RoutedPorts(serving)|;
    assert forall i :: 0 <= i < n ==> !External(routes[i]);
    if spec.ingress.Some? {
      var ingress := spec.ingress.value;
      WeightIsTotal(host, IngressPort(spec.ports, ingress.port), serving);
      MatchesArePaths(ingress.paths);
      MatchesAtIngress(ingress.paths);
      IngressPortIs(spec.ports, ingress.port, 0);
      assert IngressPort(spec.ports, ingress.port) != 0 ==> External(routes[n]);
    }
  }

  /**
    Subsets and routes follow the releases stored: with `serving` those of the ten newest that have a positive
    share, in order, the subsets are their names, and the routes split external and internal traffic between
    them by their shares.
   */
  ghost predicate Follow(spec: TargetSpec, host: string, k: Stored, serving: seq<Release>, at: seq<nat>) {
    && Filtered(Routed(k.releases), (r: Release) => r.traffic > 0, serving, at)
    && (k.subsets.Some? ==>
      |k.subsets.value| == |serving| && forall j :: 0 <= j < |serving| ==> k.subsets.value[j] == serving[j].meta.name)
    && (k.routes.Some? ==> SplitByShares(spec, host, serving, k.routes.value))
  }

  /** They do after every reconcile, gated or not. The service is there exactly while the app has ports, the
      routes also in the reconcile that deletes it, and the destination rule stays for good. */
  lemma RoutesFollowReleases(
    k: Stored, spec: TargetSpec, hash: string, config: Option<string>, draft: Release, host: string, now: int)
    ensures var after := Reconciled(k, spec, hash, config, draft, host, now);
      && (after.service <==> |spec.ports| > 0)
      && (after.routes.Some? <==> |spec.ports| > 0 || k.service)
      && (after.subsets.Some? <==> |spec.ports| > 0 || k.service || k.subsets.Some?)
      && exists serving, at :: Follow(spec, host, after, serving, at)
  {
    hide Step, Select, Survivors, ScalersAfter, Routes, Follow;
    var at := FollowServing(k, spec, hash, config, draft, host, now);
  }

  lemma FollowServing(
    k: Stored, spec: TargetSpec, hash: string, config: Option<string>, draft: Release, host: string, now: int)
    returns (at: seq<nat>)
    ensures var after := Reconciled(k, spec, hash, config, draft, host, now);
      && Routed(after.releases) ==
        Routed(SaveAll(Deployed(k, spec, hash, config, draft, now).releases, now))
      && Follow(spec, host, after, WithTraffic(Routed(after.releases)), at)
  {
    hide Step, Select, Survivors, ScalersAfter, Routes, SplitByShares, Routed, Filtered;
    var saved := SaveAll(Deployed(k, spec, hash, config, draft, now).releases, now);
    RoutedOfSurvivors(saved, now);
    at := ServingReleases(Routed(saved));
    RoutesSplitByShares(spec, host, WithTraffic(Routed(saved)));
  }

  /** What routing is handed after an un-gated reconcile with the active release among the ten newest. */
  lemma ServingTotals100(w: World)
    requires Orderly(w) && UngatedAt(w) && NextActive(w.releases, w.spec, w.status) < RELEASES_TO_KEEP
    ensures Total(WithTraffic(Routed(SaveAll(StepOf(w).releases, w.now)))) == 100
  {
    hide Step, WithTraffic, Ungated, NextActive, Total, FirstDeployable, NewestFirst, TargetBeforeActive;
    var out := StepOf(w).releases;
    var saved := SaveAll(out, w.now);
    RoutedTotal(w.releases, w.spec, w.status, w.now);
    SharesStayInRange(w);
    SameTotals(Routed(out), Routed(saved));
    TrafficTotal(Routed(saved));
  }

  /** The world a reconcile deploys in, once it has found or created the current release. */
  function Entering(
    k: Stored, spec: TargetSpec, hash: string, config: Option<string>, draft: Release, now: int): World
  {
    World(Select(k.releases, hash, config, draft).releases, spec, k.status, now)
  }

  /**
    End to end: a reconcile of orderly releases that passes the gate, with the active release among the ten
    newest, stores routes that carry all traffic to declared subsets, split between the releases stored by
    their shares, which are 100 percent together.
   */
  lemma RoutesCarryAllTraffic(
    k: Stored, spec: TargetSpec, hash: string, config: Option<string>, draft: Release, host: string, now: int)
    requires NeedsService(spec)
    requires var w := Entering(k, spec, hash, config, draft, now);
      Orderly(w) && UngatedAt(w) && NextActive(w.releases, w.spec, w.status) < RELEASES_TO_KEEP
    ensures var after := Reconciled(k, spec, hash, config, draft, host, now);
      && after.routes.Some? && after.subsets.Some? && CarryAll(spec, after.routes.value, after.subsets.value)
      && exists serving, at :: Follow(spec, host, after, serving, at) && Total(serving) == 100
  {
    hide Step, Select, Survivors, ScalersAfter, WithTraffic, Ungated, NextActive, Orderly, Total,
      FirstDeployable, Routes, CarryAll, Follow, Routed;
    var w := Entering(k, spec, hash, config, draft, now);
    ServingTotals100(w);
    var at := FollowServing(k, spec, hash, config, draft, host, now);
    RoutesOfServing(spec, host, WithTraffic(Routed(SaveAll(StepOf(w).releases, now))));
  }

  /** Finding or creating the current release keeps an orderly world orderly. */
  lemma SelectedIsOrderly(w: World, hash: string, config: Option<string>, draft: Release)
    requires Orderly(w) && forall i :: 0 <= i < |w.releases| ==> w.releases[i].meta.created != Never
    requires Allowed(w, Draft(draft)) && draft.meta.hash == hash && (config.Some? ==> draft.meta.config == config.value)
    ensures Orderly(w.(releases := Select(w.releases, hash, config, draft).releases))
  {
    hide Select, SortByLatest;
    SortedStays(w.releases);
    HeadIsCurrent(w.releases, hash, config, draft);
    OrderlyDraft(w, draft);
  }

  /** The same in every run: whatever users, controllers and the clock did before, the routes stored by a
      reconcile that passes the gate carry all traffic. */
  lemma RoutesInEveryRun(
    w: World, acts: seq<Action>, k: Stored, hash: string, config: Option<string>, draft: Release, host: string)
    requires Orderly(w) && Along(w, acts, (v, a) => Allowed(v, a))
    requires var v := Run(w, acts);
      && k.releases == v.releases && k.status == v.status && NeedsService(v.spec)
      && (forall i :: 0 <= i < |v.releases| ==> v.releases[i].meta.created != Never)
      && Allowed(v, Draft(draft)) && draft.meta.hash == hash && (config.Some? ==> draft.meta.config == config.value)
      && var s := Entering(k, v.spec, hash, config, draft, v.now);
        UngatedAt(s) && NextActive(s.releases, s.spec, s.status) < RELEASES_TO_KEEP
    ensures var v := Run(w, acts);
      var after := Reconciled(k, v.spec, hash, config, draft, host, v.now);
      && after.routes.Some? && after.subsets.Some? && CarryAll(v.spec, after.routes.value, after.subsets.value)
      && exists serving, at :: Follow(v.spec, host, after, serving, at) && Total(serving) == 100
  {
    hide Orderly, Along, Allowed, Select, Ungated, NextActive, CarryAll, Reconciled, Follow, Total;
    OrderlyRun(w, acts);
    var v := Run(w, acts);
    SelectedIsOrderly(v, hash, config, draft);
    RoutesCarryAllTraffic(k, v.spec, hash, config, draft, host, v.now);
  }

  lemma ScalersOfSaved(spec: TargetSpec, rs: seq<Release>, now: int, store: map<string, Scaler>)
    ensures ScalersAfter(spec, Routed(SaveAll(rs, now)), store) == ScalersAfter(spec, Routed(rs), store)
  {
    hide ScalerFor, NeedsAutoscaler, LastWithRole;
    RolesOfSaved(Routed(rs), Routed(SaveAll(rs, now)), now);
  }

  lemma {:induction false} RolesOfSaved(rs: seq<Release>, saved: seq<Release>, now: int)
    requires |saved| == |rs| && forall i :: 0 <= i < |rs| ==> saved[i] == Saved(rs[i], now)
    ensures forall role :: LastWithRole(saved, role) == LastWithRole(rs, role)
  {
    hide LastWithRole;
    forall role ensures LastWithRole(saved, role) == LastWithRole(rs, role) {
      var k := LastWithRole(rs, role);
      assert k >= 0 ==> saved[k].role == role;
    }
  }

  lemma {:induction false} OrderlyRun(w: World, acts: seq<Action>)
    requires Orderly(w) && Along(w, acts, (v, a) => Allowed(v, a))
    ensures Orderly(Run(w, acts))
    decreases |acts|
  {
    hide Orderly, Allowed, Next;
    if acts != [] {
      OrderlyNext(w, acts[0]);
      OrderlyRun(Next(w, acts[0]), acts[1..]);
    }
  }

  /** No deployment reconcile, and no rollback of the release the pod counts were handed over for. */
  ghost predicate BetweenReconciles(w: World, a: Action) {
    && Allowed(w, a) && a != Deploy
    && (a.MarkBad? ==>
      forall i :: 0 <= i < |w.releases| && Autoscaled(w.releases[i]) ==> w.releases[i].meta.name != a.name)
  }

  lemma OwnedNext(w: World, a: Action, scalers: map<string, Scaler>, owner: int)
    requires OwnedBy(w.releases, scalers, owner) && BetweenReconciles(w, a)
    ensures OwnedBy(Next(w, a).releases, scalers, if a.Draft? then owner + 1 else owner)
  {
    hide StepOf, SyncedStatus, LeavesAlone;
    var next, o := Next(w, a).releases, if a.Draft? then owner + 1 else owner;
    assert next[o].(status := w.releases[owner].status) == w.releases[owner];
    LeftAloneIffAutoscaled(next[o]);
  }

  lemma {:induction false} OwnedLasts(w: World, acts: seq<Action>, scalers: map<string, Scaler>, owner: int)
    requires OwnedBy(w.releases, scalers, owner) && Along(w, acts, (v, a) => BetweenReconciles(v, a))
    ensures HandedOver(Run(w, acts).releases, scalers)
    decreases |acts|
  {
    hide OwnedBy, BetweenReconciles, Next;
    if acts != [] {
      OwnedNext(w, acts[0], scalers, owner);
      OwnedLasts(Next(w, acts[0]), acts[1..], scalers, if acts[0].Draft? then owner + 1 else owner);
    }
  }

  /** The owner is among the ten newest, so it is saved and survives the pruning. */
  lemma OwnerSurvives(w: World, scalers: map<string, Scaler>)
    requires Orderly(w)
    requires OwnedBy(StepOf(w).releases, scalers, LastWithRole(Routed(StepOf(w).releases), Active))
    ensures OwnedBy(Next(w, Deploy).releases, scalers, LastWithRole(Routed(StepOf(w).releases), Active))
  {
    hide Step, Orderly, Survivors, LeavesAlone;
    DeployKeeps(w);
    var a := LastWithRole(Routed(StepOf(w).releases), Active);
    LeftAloneIffAutoscaled(Next(w, Deploy).releases[a]);
  }

  /**
    In every run, however users, controllers and the clock interleave, the autoscalers a reconcile leaves
    have the replica set of a single labelled active release to themselves, and keep it until the next
    deployment reconcile unless that release is rolled back.
   */
  lemma SingleWriterInEveryRun(w: World, acts: seq<Action>, store: map<string, Scaler>, later: seq<Action>)
    requires Orderly(w) && Along(w, acts, (v, a) => Allowed(v, a)) && Consistent(store)
    requires Along(Next(Run(w, acts), Deploy), later, (v, a) => BetweenReconciles(v, a))
    ensures var v := Run(w, acts);
      var out := StepOf(v).releases;
      HandedOver(
        Run(Next(v, Deploy), later).releases,
        ScalersAfter(v.spec, Routed(SaveAll(out, v.now)), store))
  {
    hide StepOf, ScalersAfter, OwnedBy, Allowed, NewestFirst, BetweenReconciles, Next;
    OrderlyRun(w, acts);
    var v := Run(w, acts);
    var out := StepOf(v).releases;
    var scalers := ScalersAfter(v.spec, Routed(out), store);
    ScalersOfSaved(v.spec, out, v.now, store);
    if scalers != map[] {
      OwnerAfter(v, store);
      OwnerSurvives(v, scalers);
      OwnedLasts(Next(v, Deploy), later, scalers, LastWithRole(Routed(out), Active));
    }
  }

  lemma OwnerAfter(v: World, store: map<string, Scaler>)
    requires Orderly(v) && Consistent(store)
    ensures var out := StepOf(v).releases;
      var scalers := ScalersAfter(v.spec, Routed(out), store);
      scalers != map[] ==> OwnedBy(out, scalers, LastWithRole(Routed(out), Active))
  {
    hide Step, ScalersAfter, OwnedBy, NewestFirst, TargetBeforeActive;
    SingleWriter(v.releases, v.spec, v.status, v.now, store);
  }

  // ---------- What is stored ----------

  /** The cluster stores what is in a world: its releases, listed in any order, and its status. */
  ghost predicate Stores(k: Stored, w: World) {
    && SortByLatest(k.releases) == w.releases && k.status == w.status
    && forall i :: 0 <= i < |k.releases| ==> k.releases[i].meta.created != Never
  }

  /** The newest release has the hash, and if there is a config its name. */
  predicate HeadHas(w: World, hash: string, config: Option<string>) {
    w.releases != [] && w.releases[0].meta.hash == hash && (config.Some? ==> w.releases[0].meta.config == config.value)
  }

  /** The world a reconcile deploys in. */
  function Found(w: World, hash: string, config: Option<string>, draft: Release): World {
    if HeadHas(w, hash, config) then w else Next(w, Draft(draft))
  }

  /**
    A whole reconcile is a run: releases and status stored afterwards are those of a deploy, preceded by a new
    release exactly when the newest one is not for the hash and config, and it asks to be called back when that
    deploy does.
   */
  lemma StoredAsRun(w: World, k: Stored, hash: string, config: Option<string>, draft: Release, host: string)
    requires Stores(k, w) && draft.meta.created == Never
    requires draft.meta.hash == hash && (config.Some? ==> draft.meta.config == config.value)
    ensures var after := Reconciled(k, w.spec, hash, config, draft, host, w.now);
      && w.(releases := after.releases, status := after.status) ==
        (if HeadHas(w, hash, config) then Run(w, [Deploy]) else Run(w, [Draft(draft), Deploy]))
      && w.(releases := after.releases, status := after.status) == Next(Found(w, hash, config, draft), Deploy)
      && Entering(k, w.spec, hash, config, draft, w.now) == Found(w, hash, config, draft)
      && Deployed(k, w.spec, hash, config, draft, w.now).requeue == StepOf(Found(w, hash, config, draft)).requeue
  {
    hide Step, Survivors, Select, SortByLatest, ScalersAfter, Routes, WithTraffic;
    HeadIsCurrent(k.releases, hash, config, draft);
    ReconcileAsActions(w, k.releases, hash, config, draft);
  }

  /** The autoscalers stored afterwards, read off the releases stored: see `ScalersStored`. */
  lemma StoredScalers(
    k: Stored, spec: TargetSpec, hash: string, config: Option<string>, draft: Release, host: string, now: int)
    ensures var after := Reconciled(k, spec, hash, config, draft, host, now);
      var rs, own := Routed(after.releases), spec.app + "-scaler";
      && (after.scalers != map[] <==>
        spec.cpuTarget != 0 && spec.scaleMin != spec.scaleMax && exists a :: AloneActive(rs, a))
      && forall a :: AloneActive(rs, a) && after.scalers != map[] ==>
        && own in after.scalers && after.scalers[own] == ScalerFor(spec, rs[a].meta.name)
        && forall n :: n != own ==>
          && (n in after.scalers <==> n in k.scalers && k.scalers[n].release == rs[a].meta.name)
          && (n in after.scalers ==> after.scalers[n] == k.scalers[n])
  {
    hide Step, Survivors, Select, ScalersAfter, ScalerFor, Routes, WithTraffic, AloneActive, Routed;
    var saved := SaveAll(Deployed(k, spec, hash, config, draft, now).releases, now);
    RoutedOfSurvivors(saved, now);
    ScalersStored(spec, Routed(saved), k.scalers);
  }

  /** When it passes the gate with the active release among the ten newest, there are some exactly when the app
      wants one and no rollout is under way. */
  lemma StoredScalersAtRest(
    k: Stored, spec: TargetSpec, hash: string, config: Option<string>, draft: Release, host: string, now: int)
    requires var w := Entering(k, spec, hash, config, draft, now);
      UngatedAt(w) && NextActive(w.releases, w.spec, w.status) < RELEASES_TO_KEEP
    ensures var after := Reconciled(k, spec, hash, config, draft, host, now);
      var w := Entering(k, spec, hash, config, draft, now);
      after.scalers != map[] <==>
        spec.cpuTarget != 0 && spec.scaleMin != spec.scaleMax
        && NextActive(w.releases, w.spec, w.status) == FirstDeployable(w.releases)
  {
    hide Step, Survivors, Select, ScalersAfter, Routes, WithTraffic, Ungated, NextActive, FirstDeployable;
    var w := Entering(k, spec, hash, config, draft, now);
    ScalerIffAtRest(w.releases, w.spec, w.status, w.now, k.scalers);
    ScalersOfSaved(spec, StepOf(w).releases, now, k.scalers);
  }

  /**
    The hand-over, for what is stored: after any run, the autoscalers that a reconcile stores have one labelled
    active release of those it stores to themselves, until the next one.
   */
  lemma StoredHandOver(
    w: World, acts: seq<Action>, k: Stored, hash: string, config: Option<string>, draft: Release, host: string,
    later: seq<Action>)
    requires Orderly(w) && Along(w, acts, (v, a) => Allowed(v, a)) && Consistent(k.scalers)
    requires var v := Run(w, acts);
      && Stores(k, v) && Allowed(v, Draft(draft))
      && draft.meta.hash == hash && (config.Some? ==> draft.meta.config == config.value)
    requires var v := Run(w, acts);
      var after := Reconciled(k, v.spec, hash, config, draft, host, v.now);
      Along(v.(releases := after.releases, status := after.status), later, (u, a) => BetweenReconciles(u, a))
    ensures var v := Run(w, acts);
      var after := Reconciled(k, v.spec, hash, config, draft, host, v.now);
      HandedOver(Run(v.(releases := after.releases, status := after.status), later).releases, after.scalers)
  {
    hide StepOf, Step, Orderly, Stores, Allowed, BetweenReconciles, Next, HandedOver, Consistent, Survivors,
      Select, ScalersAfter, Routes, WithTraffic, HeadHas, Unstarted;
    OrderlyRun(w, acts);
    var v := Run(w, acts);
    DraftIsUnsaved(v, draft);
    StoredAsRun(v, k, hash, config, draft, host);
    var found := Found(v, hash, config, draft);
    OrderlyNext(v, Draft(draft));
    SingleWriterInEveryRun(found, [], k.scalers, later);
    StoredScalersAre(k, v.spec, hash, config, draft, host, v.now);
    assert found.spec == v.spec && found.now == v.now by { FoundKeeps(v, hash, config, draft); }
  }

  lemma DraftIsUnsaved(w: World, draft: Release)
    requires Allowed(w, Draft(draft))
    ensures draft.meta.created == Never
  {
  }

  lemma FoundKeeps(w: World, hash: string, config: Option<string>, draft: Release)
    ensures var found := Found(w, hash, config, draft); found.spec == w.spec && found.now == w.now
  {
  }

  lemma StoredScalersAre(
    k: Stored, spec: TargetSpec, hash: string, config: Option<string>, draft: Release, host: string, now: int)
    ensures Reconciled(k, spec, hash, config, draft, host, now).scalers ==
      ScalersAfter(
        spec, Routed(SaveAll(StepOf(Entering(k, spec, hash, config, draft, now)).releases, now)), k.scalers)
  {
  }

  /** A rollback in between makes two writers: the release controller then sets the pod count the autoscaler
      sets too, until the next deployment reconcile. */
  lemma RollbackMakesTwoWriters(r: Release, live: ReplicaSet)
    requires Autoscaled(r) && r.desired != 0
    ensures LeavesAlone(r) && !LeavesAlone(r.(role := Bad))
    ensures ReplicaSetAfter(r.(role := Bad), Some(live)) == Some(live.(replicas := r.desired))
  {
    LeftAloneIffAutoscaled(r);
    LeftAloneIffAutoscaled(r.(role := Bad));
  }

  /** Once the last port is gone the virtual service still survives the reconcile that deletes the service,
      and goes with the next one; the destination rule is never deleted. */
  lemma RoutesOutliveService(
    k: Stored, spec: TargetSpec, hash: string, config: Option<string>, draft: Release, host: string, now: int,
    draft2: Release, now2: int)
    requires !NeedsService(spec) && k.service
    ensures var first := Reconciled(k, spec, hash, config, draft, host, now);
      var second := Reconciled(first, spec, hash, config, draft2, host, now2);
      && !first.service && first.routes.Some? && first.subsets.Some?
      && !second.service && second.routes.None? && second.subsets.Some?
  {
  }
}
