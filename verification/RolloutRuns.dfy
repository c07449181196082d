/**
  What a rollout guarantees over whole runs: how fast traffic and pods may grow.
 */
module RolloutRuns {
  import opened Model
  import opened Rollout
  import opened StepLaws
  import opened Selection
  import opened ReleaseController
  import opened Runs

  // ---------- Roles through saving and pruning ----------

  /** Saving and pruning do not move the roles found among the ten newest. */
  lemma KeptRoles(out: seq<Release>, next: seq<Release>, now: int)
    requires Kept(out, next, now)
    ensures FirstDeployable(out) < RELEASES_TO_KEEP ==> FirstDeployable(next) == FirstDeployable(out)
    ensures forall role :: LastWithRole(out, role) < RELEASES_TO_KEEP ==> LastWithRole(next, role) == LastWithRole(out, role)
  {
    forall role | LastWithRole(out, role) < RELEASES_TO_KEEP
      ensures LastWithRole(next, role) == LastWithRole(out, role)
    {
      var k := LastWithRole(out, role);
      assert k >= 0 ==> next[k].role == role;
    }
    var k := FirstDeployable(out);
    assert 0 <= k < RELEASES_TO_KEEP ==> next[k].role != Bad;
  }

  // ---------- Slow ramp ----------

  /** The target runs latest, serves traffic and wants pods. */
  predicate Serving(spec: TargetSpec) {
    spec.mode == Latest && NeedsService(spec) && spec.scaleMin >= 1 && spec.scaleMax >= 1
  }

  lemma WantsPods(spec: TargetSpec, status: TargetStatus)
    requires spec.mode == Latest && spec.scaleMin >= 1 && spec.scaleMax >= 1
    ensures DesiredInstances(spec, status) >= 1
  {
  }

  /** Release `n` is the newest good one, another release is active, and `n` has at most 25k percent. */
  ghost predicate Ramping(w: World, n: string, k: nat) {
    var t, a := FirstDeployable(w.releases), LastWithRole(w.releases, Active);
    && 0 <= t < a < RELEASES_TO_KEEP
    && w.releases[t].meta.name == n && w.releases[t].traffic <= 25 * k
    && Serving(w.spec)
  }

  /** No halt, no rollback of `n` or of the active release, no newer release. */
  ghost predicate Undiverted(w: World, a: Action, n: string) {
    && Allowed(w, a)
    && match a
       case MarkBad(m) =>
         m != n && forall i :: 0 <= i < |w.releases| && w.releases[i].role == Active ==> w.releases[i].meta.name != m
       case Draft(_) => false
       case Edit(spec) => Serving(spec)
       case _ => true
  }

  lemma RampingDeploy(w: World, n: string, k: nat)
    requires Orderly(w) && Ramping(w, n, k) && (UngatedAt(w) ==> k < 4)
    ensures Ramping(Next(w, Deploy), n, if UngatedAt(w) then k + 1 else k)
  {
    hide Advance, Gated, FirstDeployable, DesiredInstances, MakePlan, Orderly, Survivors, ReadinessTimeout, AvailablePercent;
    DeployKeeps(w);
    var rs, out := w.releases, StepOf(w).releases;
    KeptRoles(out, Next(w, Deploy).releases, w.now);
    if UngatedAt(w) {
      WantsPods(w.spec, w.status);
      RoleDiscipline(rs, w.spec, w.status, w.now);
      ActiveOfDisciplined(out, NextActive(rs, w.spec, w.status), FirstDeployable(rs));
      RampGrowth(w);
    }
  }

  /** An un-gated reconcile that keeps another release active adds at most one increment to the target's share. */
  lemma RampGrowth(w: World)
    requires UngatedAt(w) && NextActive(w.releases, w.spec, w.status) != FirstDeployable(w.releases)
    ensures var t := FirstDeployable(w.releases);
      var out := StepOf(w).releases;
      && |out| == |w.releases| && out[t].meta == w.releases[t].meta
      && out[t].traffic <= w.releases[t].traffic + Increment(w.spec)
      && out[t].traffic == RampShare(w.releases[t], DesiredInstances(w.spec, w.status), Increment(w.spec))
      && out[t].desired == RampPods(w.releases[t], DesiredInstances(w.spec, w.status), Increment(w.spec))
  {
    hide Step, Gated, FirstDeployable, Increment, AvailablePercent, ReadinessTimeout, DesiredInstances, RampPods;
    StepAsIntended(w.releases, w.spec, w.status, w.now);
    PlanActive(w.releases, w.spec, w.status);
  }

  /** Marking releases bad does not move the newest good and the active release when it spares both. */
  lemma MarkSpares(rs: seq<Release>, name: string)
    requires var t, a := FirstDeployable(rs), LastWithRole(rs, Active);
      t >= 0 && a >= 0 && rs[t].meta.name != name && rs[a].meta.name != name
    ensures FirstDeployable(MarkAll(rs, name)) == FirstDeployable(rs)
    ensures LastWithRole(MarkAll(rs, name), Active) == LastWithRole(rs, Active)
  {
    hide MarkAll;
    var ss := MarkAll(rs, name);
    assert ss[FirstDeployable(rs)].role != Bad && ss[LastWithRole(rs, Active)].role == Active;
  }

  lemma RampingMark(w: World, m: string, n: string, k: nat)
    requires Ramping(w, n, k) && Undiverted(w, MarkBad(m), n)
    ensures Ramping(Next(w, MarkBad(m)), n, k)
  {
    hide Serving, Allowed, FirstDeployable, LastWithRole, MarkAll;
    MarkSpares(w.releases, m);
  }

  lemma RampingNext(w: World, a: Action, n: string, k: nat)
    requires Orderly(w) && Ramping(w, n, k) && Undiverted(w, a, n)
    requires a == Deploy && UngatedAt(w) ==> k < 4
    ensures Ramping(Next(w, a), n, if a == Deploy && UngatedAt(w) then k + 1 else k)
  {
    hide Step, Survivors, Ungated, Orderly, SyncedStatus, MarkAll, FirstDeployable, LastWithRole;
    match a
    case Deploy => RampingDeploy(w, n, k);
    case Sync(_, _, _, _) => SameRoles(w.releases, Next(w, a).releases);
    case MarkBad(m) => RampingMark(w, m, n, k);
    case Tick(_) =>
    case Edit(_) =>
  }

  /**
    Slow ramp: without halt, rollback or retargeting, a release that starts with no traffic has at most
    25k percent after k un-gated reconciles, in every interleaving; and another release is active
    through the first four.
   */
  lemma {:induction false} SlowRamp(w: World, acts: seq<Action>, n: string, k: nat)
    requires Orderly(w) && Ramping(w, n, k)
    requires Along(w, acts, (v, a) => Undiverted(v, a, n))
    ensures var c := k + UngatedCount(w, acts);
      c <= 4 ==> Ramping(Run(w, acts), n, c)
    decreases |acts|
  {
    hide Orderly, Ramping, Allowed, Next, UngatedAt;
    if acts != [] && k + UngatedCount(w, acts) <= 4 {
      RampingNext(w, acts[0], n, k);
      OrderlyNext(w, acts[0]);
      var k' := if acts[0] == Deploy && UngatedAt(w) then k + 1 else k;
      SlowRamp(Next(w, acts[0]), acts[1..], n, k');
    }
  }

  /** A target takes over from a working active release exactly in a reconcile it enters with all the traffic. */
  lemma TakesOverAtFullTraffic(w: World)
    requires UngatedAt(w) && Serving(w.spec)
    requires var a := LastWithRole(w.releases, Active); a >= 0 && a != FirstDeployable(w.releases)
    ensures var t := FirstDeployable(w.releases);
      LastWithRole(StepOf(w).releases, Active) == t <==> w.releases[t].traffic == 100
  {
    hide Step, Gated, FirstDeployable, LastWithRole, DesiredInstances;
    WantsPods(w.spec, w.status);
    RoleDiscipline(w.releases, w.spec, w.status, w.now);
    ActiveOfDisciplined(
      StepOf(w).releases, NextActive(w.releases, w.spec, w.status), FirstDeployable(w.releases));
  }

  // ---------- Pacing ----------

  /** A rollout is under way, was last changed at `since`, and both its releases are among the ten newest. */
  ghost predicate Cooling(w: World, since: int) {
    && 0 <= LastWithRole(w.releases, Active) < RELEASES_TO_KEEP
    && 0 <= LastWithRole(w.releases, Target) < RELEASES_TO_KEEP
    && w.status.deployUpdatedAt == At(since)
  }

  /** No user touches roles or probes, and the active release stays among the ten newest. */
  ghost predicate Untouched(w: World, a: Action, timeout: int) {
    && Allowed(w, a)
    && match a
       case MarkBad(_) => false
       case Edit(spec) => ReadinessTimeout(spec) == timeout
       case Draft(_) => LastWithRole(w.releases, Active) + 1 < RELEASES_TO_KEEP
       case _ => true
  }

  lemma CoolingGates(w: World, since: int)
    requires Cooling(w, since)
    ensures Gated(w.releases, w.spec, w.status, w.now) <==> w.now - since < ReadinessTimeout(w.spec)
  {
    hide ReadinessTimeout;
    assert w.releases[LastWithRole(w.releases, Target)].role == Target;
  }

  lemma CoolingDraft(w: World, r: Release, since: int)
    requires Orderly(w) && Cooling(w, since) && Untouched(w, Draft(r), ReadinessTimeout(w.spec))
    ensures Cooling(Next(w, Draft(r)), since)
  {
    hide ReadinessTimeout, NewestFirst, Allowed;
    var ss := [r] + w.releases;
    var i, t := LastWithRole(w.releases, Active), LastWithRole(w.releases, Target);
    assert ss[i + 1].role == Active && ss[t + 1].role == Target;
    assert t < i;
  }

  lemma CoolingNext(w: World, a: Action, since: int)
    requires Orderly(w) && Cooling(w, since) && Untouched(w, a, ReadinessTimeout(w.spec))
    requires a == Deploy ==> !UngatedAt(w)
    ensures Cooling(Next(w, a), since) && ReadinessTimeout(Next(w, a).spec) == ReadinessTimeout(w.spec)
  {
    hide Advance, Survivors, Gated, SyncedStatus, ReadinessTimeout, NewestFirst, TargetBeforeActive, Unstarted;
    match a
    case Deploy =>
      DeployKeeps(w);
      KeptRoles(w.releases, Next(w, a).releases, w.now);
    case Sync(_, _, _, _) => SameRoles(w.releases, Next(w, a).releases);
    case Draft(r) => CoolingDraft(w, r, since);
    case Tick(_) =>
    case Edit(_) =>
  }

  lemma {:induction false} TimeGoesOn(w: World, acts: seq<Action>)
    ensures Run(w, acts).now >= w.now
    decreases |acts|
  {
    hide StepOf, SyncAll, MarkAll;
    if acts != [] {
      TimeGoesOn(Next(w, acts[0]), acts[1..]);
    }
  }

  /** While the gate is closed nothing moves: the next reconcile to pass it is a full timeout later. */
  lemma {:induction false} NextUngatedIsLater(w: World, acts: seq<Action>, since: int)
    requires Orderly(w) && Cooling(w, since)
    requires Along(w, acts, (v, a) => Untouched(v, a, ReadinessTimeout(w.spec)))
    ensures UngatedAt(Run(w, acts)) ==> Run(w, acts).now >= since + ReadinessTimeout(w.spec)
    decreases |acts|
  {
    hide Orderly, Cooling, Allowed, Next, Ungated, ReadinessTimeout;
    if acts == [] {
      if UngatedAt(w) {
        UngatedCooling(w, since);
      }
    } else if acts[0] == Deploy && UngatedAt(w) {
      UngatedCooling(w, since);
      TimeGoesOn(w, acts);
    } else {
      CoolingNext(w, acts[0], since);
      OrderlyNext(w, acts[0]);
      NextUngatedIsLater(Next(w, acts[0]), acts[1..], since);
    }
  }

  lemma UngatedCooling(w: World, since: int)
    requires Cooling(w, since) && UngatedAt(w)
    ensures w.now >= since + ReadinessTimeout(w.spec)
  {
    hide Cooling, ReadinessTimeout, Gated, FirstDeployable;
    CoolingGates(w, since);
  }

  /** This reconcile gives the target more pods while another release is active. */
  predicate RaisesPods(w: World) {
    && UngatedAt(w)
    && NextActive(w.releases, w.spec, w.status) != FirstDeployable(w.releases)
    && NextActive(w.releases, w.spec, w.status) < RELEASES_TO_KEEP
    && |StepOf(w).releases| == |w.releases|
    && StepOf(w).releases[FirstDeployable(w.releases)].desired > w.releases[FirstDeployable(w.releases)].desired
  }

  lemma RaisingStartsCooling(w: World)
    requires Orderly(w) && RaisesPods(w)
    ensures Cooling(Next(w, Deploy), w.now)
  {
    hide Orderly, Survivors, Gated, FirstDeployable, LastWithRole, DesiredInstances, RampPods, RampShare, Increment,
      ShiftAll, Repair, AnyLingers;
    var rs, out := w.releases, StepOf(w).releases;
    RampGrowth(w);
    DeployKeeps(w);
    KeptRoles(out, Next(w, Deploy).releases, w.now);
    RoleDiscipline(rs, w.spec, w.status, w.now);
    ActiveOfDisciplined(out, NextActive(rs, w.spec, w.status), FirstDeployable(rs));
  }

  /**
    Pacing: once a reconcile has raised the target's pods while another release is active, no reconcile
    passes the gate again, so nothing can be raised again, before a full readiness timeout has gone by.
   */
  lemma RaisesArePaced(w: World, acts: seq<Action>)
    requires Orderly(w) && RaisesPods(w)
    requires Along(Next(w, Deploy), acts, (v, a) => Untouched(v, a, ReadinessTimeout(w.spec)))
    ensures var v := Run(Next(w, Deploy), acts);
      UngatedAt(v) ==> v.now >= w.now + ReadinessTimeout(w.spec)
  {
    hide Orderly, RaisesPods, Untouched, Cooling, ReadinessTimeout, Ungated, StepOf, Survivors;
    RaisingStartsCooling(w);
    OrderlyNext(w, Deploy);
    NextUngatedIsLater(Next(w, Deploy), acts, w.now);
  }
}
