/**
  Bounded convergence: how many reconciles a rollout takes, independently of how many pods it is about.
 */
module Convergence {
  import opened Model
  import opened Rollout
  import opened StepLaws
  import opened Selection
  import opened ReleaseController
  import opened Runs
  import opened RolloutRuns

  // ---------- The ramp, in numbers ----------

  /** The share a target has for sure after `k` un-gated reconciles, in percent. */
  function ShareFloor(increment: int, k: nat): int {
    if increment == 100 then (if k < 2 then 0 else 100)
    else if k <= 4 then 0 else if k == 5 then 25 else if k == 6 then 50 else if k == 7 then 75 else 100
  }

  /** After this many un-gated reconciles the target is active. */
  function StepsNeeded(increment: int): nat {
    if increment == 100 then 3 else 9
  }

  function Min(x: int, y: int): int {
    if x < y then x else y
  }

  lemma IncrementBounds(d: int, increment: int)
    requires d >= 1 && (increment == 25 || increment == 100)
    ensures var m := PodIncrement(d, increment);
      1 <= m <= d && d <= (if increment == 100 then m else 4 * m + 3)
  {
  }

  /** Enough available pods for the next floor. */
  lemma EnoughForFloor(d: int, increment: int, k: nat, available: int)
    requires d >= 1 && (increment == 25 || increment == 100) && k < StepsNeeded(increment)
    requires available >= Min(k * PodIncrement(d, increment), d)
    ensures available * 100 >= ShareFloor(increment, k + 1) * d
  {
    IncrementBounds(d, increment);
    var m := PodIncrement(d, increment);
    if increment == 25 && k == 4 {
      assert available >= Min(4 * m, d);
    } else if increment == 25 && k == 5 {
      assert available >= Min(5 * m, d);
    } else if increment == 25 && k == 6 {
      assert available >= Min(6 * m, d);
    } else if increment == 25 && k == 7 {
      assert available >= Min(7 * m, d);
    } else if increment == 25 && k == 8 {
      assert available >= Min(8 * m, d);
    } else if increment == 100 && k >= 1 {
      assert k * m >= m by { ProductMonotone(1, k, m); }
    } else {
      assert ShareFloor(increment, k + 1) == 0;
      assert k * m >= 0 by { ProductMonotone(0, k, m); }
    }
  }

  /** One ramp step raises both floors. */
  lemma RampRaises(r: Release, d: int, increment: int, k: nat)
    requires d >= 1 && (increment == 25 || increment == 100) && k < StepsNeeded(increment)
    requires r.status.available >= 0
    requires k > 0 ==> r.status.available >= r.desired >= Min(k * PodIncrement(d, increment), d)
    requires r.traffic >= ShareFloor(increment, k)
    ensures RampPods(r, d, increment) >= Min((k + 1) * PodIncrement(d, increment), d)
    ensures ShareFloor(increment, k + 1) <= RampShare(r, d, increment) <= 100
  {
    hide PodIncrement;
    IncrementBounds(d, increment);
    assert 0 * PodIncrement(d, increment) == 0;
    EnoughForFloor(d, increment, k, r.status.available);
    var m := PodIncrement(d, increment);
    assert (k + 1) * m == k * m + m;
    assert k * m >= 0 by { ProductMonotone(0, k, m); }
    PercentAtMost100(r.status.available, d);
    PercentAtLeast(r.status.available, d, ShareFloor(increment, k + 1));
  }

  lemma PercentAtLeast(available: int, d: int, share: int)
    requires d >= 1 && 0 <= available && share <= 100 && available * 100 >= share * d
    ensures AvailablePercent(available, d) >= share
  {
    QuotientAtMost(available * 100, d, share);
  }

  // ---------- The rollout ----------

  predicate Wanting(spec: TargetSpec) {
    spec.mode == Latest && spec.scaleMin >= 1 && spec.scaleMax >= 1
  }

  /** The newest good release is among the ten newest and is the one named `n`. */
  ghost predicate Newest(w: World, n: string) {
    && 0 <= FirstDeployable(w.releases) < RELEASES_TO_KEEP
    && w.releases[FirstDeployable(w.releases)].meta.name == n
    && Wanting(w.spec)
  }

  /** It is the one active release and has all traffic. */
  ghost predicate Converged(w: World, n: string) {
    && Newest(w, n)
    && LastWithRole(w.releases, Active) == FirstDeployable(w.releases)
    && LastWithRole(w.releases, Target) < 0
    && w.releases[FirstDeployable(w.releases)].traffic == 100
  }

  ghost predicate Progressed(w: World, n: string, k: nat, d: int, increment: int) {
    && Newest(w, n) && k < StepsNeeded(increment)
    && Increment(w.spec) == increment && DesiredInstances(w.spec, w.status) == d >= 1
    && var r := w.releases[FirstDeployable(w.releases)];
      && (k > 0 ==> r.role == Target && r.desired >= Min(k * PodIncrement(d, increment), d))
      && r.traffic >= ShareFloor(increment, k)
      && (k > 0 ==> r.traffic <= 100)
  }

  /** No newer release, no rollback of `n`, the same demand, and the pods of a release being moved towards
      come up before each reconcile that passes the gate and ramps on. */
  ghost predicate Helping(w: World, a: Action, n: string) {
    && Allowed(w, a)
    && match a
       case MarkBad(m) => m != n
       case Draft(_) => false
       case Edit(spec) =>
         Wanting(spec) && Increment(spec) == Increment(w.spec)
         && DesiredInstances(spec, w.status) == DesiredInstances(w.spec, w.status)
       case Deploy =>
         var t := FirstDeployable(w.releases);
         UngatedAt(w) && NextActive(w.releases, w.spec, w.status) != t && w.releases[t].role == Target ==>
           w.releases[t].status.available >= w.releases[t].desired
       case _ => true
  }

  /** An un-gated reconcile either leaves the newest good release active with all traffic, or brings it one
      step closer under an unchanged demand. */
  lemma ProgressingDeploy(w: World, n: string, k: nat, d: int, increment: int)
    requires Orderly(w) && Progressed(w, n, k, d, increment) && Helping(w, Deploy, n) && UngatedAt(w)
    ensures Converged(Next(w, Deploy), n) || Progressed(Next(w, Deploy), n, k + 1, d, increment)
  {
    hide Step, Survivors, NewestFirst, TargetBeforeActive, Ungated, FirstDeployable, DesiredInstances, Increment, RampPods,
      RampShare, PodIncrement, LastWithRole, ShareFloor, CurrentTarget, NextActive;
    var rs, out := w.releases, StepOf(w).releases;
    var t, a := FirstDeployable(rs), NextActive(rs, w.spec, w.status);
    DeployKeeps(w);
    RoleDiscipline(rs, w.spec, w.status, w.now);
    ActiveOfDisciplined(out, a, t);
    StepKeepsMeta(w);
    KeptRoles(out, Next(w, Deploy).releases, w.now);
    if a == t {
      SoleActiveHasAll(w);
    } else {
      NotYetFull(w, n, k, d, increment);
      RampGrowth(w);
      RampRaises(rs[t], d, increment, k);
      DemandIsFrozen(w);
    }
  }

  /** With all traffic the target would have taken over, so there is a further step to take. */
  lemma NotYetFull(w: World, n: string, k: nat, d: int, increment: int)
    requires Progressed(w, n, k, d, increment)
    requires NextActive(w.releases, w.spec, w.status) != FirstDeployable(w.releases)
    ensures k + 1 < StepsNeeded(increment)
  {
    hide FirstDeployable, DesiredInstances, LastWithRole, PodIncrement;
  }

  lemma SoleActiveHasAll(w: World)
    requires UngatedAt(w) && NextActive(w.releases, w.spec, w.status) == FirstDeployable(w.releases)
    ensures var out := StepOf(w).releases;
      |out| == |w.releases| && out[FirstDeployable(w.releases)].traffic == 100
  {
    hide Step, Gated, FirstDeployable, NextActive, MakePlan, ReadinessTimeout, DesiredInstances;
    StepAsIntended(w.releases, w.spec, w.status, w.now);
    PlanActive(w.releases, w.spec, w.status);
  }

  /** While another release is active, a reconcile does not change the demand. */
  lemma DemandIsFrozen(w: World)
    requires UngatedAt(w) ==> NextActive(w.releases, w.spec, w.status) != FirstDeployable(w.releases)
    ensures DesiredInstances(w.spec, StepOf(w).status) == DesiredInstances(w.spec, w.status)
  {
    hide Gated, NextActive, FirstDeployable, MakePlan, ShiftAll, Repair, AnyLingers, ReadinessTimeout;
    if UngatedAt(w) {
      PlanActive(w.releases, w.spec, w.status);
    }
  }

  lemma GatedDeploy(w: World, n: string, k: nat, d: int, increment: int)
    requires Orderly(w) && Progressed(w, n, k, d, increment) && !UngatedAt(w)
    ensures Progressed(Next(w, Deploy), n, k, d, increment)
  {
    hide Advance, Survivors, Orderly, Gated, FirstDeployable, DesiredInstances, Increment, PodIncrement, LastWithRole,
      ShareFloor, CurrentTarget;
    DeployKeeps(w);
    KeptRoles(w.releases, Next(w, Deploy).releases, w.now);
  }

  lemma ConvergedDeploy(w: World, n: string)
    requires Orderly(w) && Converged(w, n)
    ensures UngatedAt(w) && Converged(Next(w, Deploy), n)
  {
    hide Step, Survivors, Orderly, FirstDeployable, LastWithRole;
    var rs, out := w.releases, StepOf(w).releases;
    var t := FirstDeployable(rs);
    WantsPods(w.spec, w.status);
    assert UngatedAt(w) && NextActive(rs, w.spec, w.status) == t;
    DeployKeeps(w);
    RoleDiscipline(rs, w.spec, w.status, w.now);
    ActiveOfDisciplined(out, t, t);
    StepKeepsMeta(w);
    SoleActiveHasAll(w);
    KeptRoles(out, Next(w, Deploy).releases, w.now);
  }

  /** What the other actions leave of the newest good release. */
  lemma OthersKeepNewest(w: World, a: Action, n: string)
    requires Newest(w, n) && Helping(w, a, n) && a != Deploy
    ensures Newest(Next(w, a), n) && FirstDeployable(Next(w, a).releases) == FirstDeployable(w.releases)
    ensures var t := FirstDeployable(w.releases);
      Next(w, a).releases[t].(status := w.releases[t].status) == w.releases[t]
    ensures Next(w, a).status == w.status && Increment(Next(w, a).spec) == Increment(w.spec)
    ensures DesiredInstances(Next(w, a).spec, w.status) == DesiredInstances(w.spec, w.status)
  {
    hide StepOf, SyncedStatus, DesiredInstances, Increment;
    var t := FirstDeployable(w.releases);
    assert Next(w, a).releases[t].role != Bad;
  }

  lemma OthersKeepConverged(w: World, a: Action, n: string)
    requires Converged(w, n) && Helping(w, a, n) && a != Deploy
    ensures Converged(Next(w, a), n)
  {
    hide StepOf, SyncedStatus, DesiredInstances, Increment, FirstDeployable;
    OthersKeepNewest(w, a, n);
    var t := FirstDeployable(w.releases);
    assert Next(w, a).releases[t].role == Active;
  }

  /** Progress after `k` un-gated reconciles, or all there is. */
  ghost predicate OnCourse(w: World, n: string, k: nat, d: int, increment: int) {
    Converged(w, n) || Progressed(w, n, k, d, increment)
  }

  lemma OnCourseNext(w: World, a: Action, n: string, k: nat, d: int, increment: int)
    requires Orderly(w) && Helping(w, a, n) && OnCourse(w, n, k, d, increment)
    ensures OnCourse(Next(w, a), n, if a == Deploy && UngatedAt(w) then k + 1 else k, d, increment)
  {
    hide Orderly, Next, Newest, UngatedAt, ShareFloor, PodIncrement, DesiredInstances, Allowed;
    if Converged(w, n) {
      if a == Deploy {
        ConvergedDeploy(w, n);
      } else {
        OthersKeepConverged(w, a, n);
      }
    } else if a == Deploy {
      if UngatedAt(w) {
        ProgressingDeploy(w, n, k, d, increment);
      } else {
        GatedDeploy(w, n, k, d, increment);
      }
    } else {
      OthersKeepNewest(w, a, n);
    }
  }

  lemma {:induction false} StaysOnCourse(w: World, acts: seq<Action>, n: string, k: nat, d: int, increment: int)
    requires Orderly(w) && OnCourse(w, n, k, d, increment)
    requires Along(w, acts, (v, a) => Helping(v, a, n))
    ensures OnCourse(Run(w, acts), n, k + UngatedCount(w, acts), d, increment)
    decreases |acts|
  {
    hide Orderly, OnCourse, Next, UngatedAt, Allowed;
    if acts != [] {
      OnCourseNext(w, acts[0], n, k, d, increment);
      OrderlyNext(w, acts[0]);
      var k' := if acts[0] == Deploy && UngatedAt(w) then k + 1 else k;
      StaysOnCourse(Next(w, acts[0]), acts[1..], n, k', d, increment);
    }
  }

  /**
    Bounded convergence: while the newest good release and the demand stay the same and its pods come up
    between the reconciles that pass the gate, nine of those make it the one active release with all
    traffic (three for an app without ports), from any roles and shares and for any number of pods.
   */
  lemma RolloutConverges(w: World, acts: seq<Action>, n: string)
    requires Orderly(w) && Newest(w, n)
    requires Along(w, acts, (v, a) => Helping(v, a, n))
    requires UngatedCount(w, acts) >= if NeedsService(w.spec) then 9 else 3
    ensures Converged(Run(w, acts), n)
  {
    hide Along, UngatedCount, Run, FirstDeployable, PodIncrement, NewestFirst, TargetBeforeActive;
    var d, increment := DesiredInstances(w.spec, w.status), Increment(w.spec);
    WantsPods(w.spec, w.status);
    assert Progressed(w, n, 0, d, increment);
    StaysOnCourse(w, acts, n, 0, d, increment);
  }
}
