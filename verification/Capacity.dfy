/**
  No capacity dip over whole runs: while traffic moves over, both releases together have pods for it.
 */
module Capacity {
  import opened Model
  import opened Rollout
  import opened StepLaws
  import opened Selection
  import opened ReleaseController
  import opened Runs
  import opened RolloutRuns
  import opened Convergence

  /** Another release is active beside the newest good one, `n`; the two share all traffic, and the available
      pods of `n` cover its part of the demand. */
  ghost predicate Covered(w: World, n: string, d: int) {
    var t, a := FirstDeployable(w.releases), LastWithRole(w.releases, Active);
    && 0 <= t < a < RELEASES_TO_KEEP && w.releases[t].meta.name == n
    && DesiredInstances(w.spec, w.status) == d >= 1
    && 0 <= w.releases[t].traffic <= 100 && w.releases[a].traffic == 100 - w.releases[t].traffic
    && w.releases[t].traffic * d <= 100 * w.releases[t].status.available
  }

  /** The newest good release, `n`, is the active one. */
  ghost predicate TakenOver(w: World, n: string) {
    var t := FirstDeployable(w.releases);
    0 <= t < RELEASES_TO_KEEP && w.releases[t].meta.name == n && LastWithRole(w.releases, Active) == t
  }

  /** No newer release, no rollback of `n` or of the active release, the same demand, and no pods of `n` go
      away. */
  ghost predicate Steady(w: World, a: Action, n: string) {
    && Allowed(w, a)
    && match a
       case MarkBad(m) =>
         m != n && forall i :: 0 <= i < |w.releases| && w.releases[i].role == Active ==> w.releases[i].meta.name != m
       case Draft(_) => false
       case Edit(spec) => DesiredInstances(spec, w.status) == DesiredInstances(w.spec, w.status)
       case Sync(m, live, pods, timeout) =>
         m == n ==> forall i :: 0 <= i < |w.releases| && w.releases[i].meta.name == n ==>
           Synced(w.releases[i], a, w.now).status.available >= w.releases[i].status.available
       case _ => true
  }

  /** A reconcile that ramps on covers whatever share it gives, from any roles and shares. */
  lemma CoveredAfterRamp(w: World)
    requires Orderly(w) && RampsOn(w.releases, w.spec, w.status, w.now)
    requires NextActive(w.releases, w.spec, w.status) < RELEASES_TO_KEEP
    ensures Covered(
      Next(w, Deploy), w.releases[FirstDeployable(w.releases)].meta.name, DesiredInstances(w.spec, w.status))
  {
    hide Step, Orderly, Ungated, NextActive, Survivors, FirstDeployable, LastWithRole, DesiredInstances, Total;
    var rs, out := w.releases, StepOf(w).releases;
    var t, a := FirstDeployable(rs), NextActive(rs, w.spec, w.status);
    DeployKeeps(w);
    StepKeepsMeta(w);
    RoleDiscipline(rs, w.spec, w.status, w.now);
    ActiveOfDisciplined(out, a, t);
    KeptRoles(out, Next(w, Deploy).releases, w.now);
    RampShares(w);
    DemandIsFrozen(w);
  }

  lemma RampShares(w: World)
    requires Orderly(w) && RampsOn(w.releases, w.spec, w.status, w.now)
    ensures var t, a := FirstDeployable(w.releases), NextActive(w.releases, w.spec, w.status);
      var out := StepOf(w).releases;
      && |out| == |w.releases| && 0 <= t < a < |out|
      && 0 <= out[t].traffic <= 100 && out[a].traffic == 100 - out[t].traffic
      && out[t].traffic * DesiredInstances(w.spec, w.status) <= 100 * w.releases[t].status.available
  {
    hide Step, NewestFirst, TargetBeforeActive, Ungated, NextActive, FirstDeployable, DesiredInstances, Total;
    var rs := w.releases;
    var t, a := FirstDeployable(rs), NextActive(rs, w.spec, w.status);
    RoleOfEach(rs, w.spec, w.status, w.now);
    OthersIdle(rs, w.spec, w.status, w.now);
    TrafficTotals100(rs, w.spec, w.status, w.now);
    TotalOfTwo(StepOf(w).releases, a, t);
    SharesStayInRange(w);
    ShareIsBacked(rs, w.spec, w.status, w.now);
  }

  lemma TakeoverStays(w: World, n: string)
    requires Orderly(w) && TakenOver(w, n)
    ensures TakenOver(Next(w, Deploy), n)
  {
    hide Step, Orderly, Survivors, Gated, FirstDeployable, LastWithRole, DesiredInstances;
    if UngatedAt(w) {
      TakesOver(w, n);
    } else {
      DeployKeeps(w);
      StepChangesNothing(w);
      KeptRoles(w.releases, Next(w, Deploy).releases, w.now);
    }
  }

  lemma TakesOver(w: World, n: string)
    requires Orderly(w) && UngatedAt(w)
    requires NextActive(w.releases, w.spec, w.status) == FirstDeployable(w.releases) < RELEASES_TO_KEEP
    requires w.releases[FirstDeployable(w.releases)].meta.name == n
    ensures TakenOver(Next(w, Deploy), n)
  {
    hide Step, Orderly, Ungated, NextActive, Survivors, FirstDeployable, LastWithRole;
    var rs, out, t := w.releases, StepOf(w).releases, FirstDeployable(w.releases);
    DeployKeeps(w);
    StepKeepsMeta(w);
    RoleDiscipline(rs, w.spec, w.status, w.now);
    ActiveOfDisciplined(out, t, t);
    KeptRoles(out, Next(w, Deploy).releases, w.now);
  }

  lemma CoveredDeploy(w: World, n: string, d: int)
    requires Orderly(w) && Covered(w, n, d)
    ensures Covered(Next(w, Deploy), n, d) || TakenOver(Next(w, Deploy), n)
  {
    hide Step, Orderly, Survivors, Gated, FirstDeployable, LastWithRole, DesiredInstances;
    if !UngatedAt(w) {
      DeployKeeps(w);
      StepChangesNothing(w);
      KeptRoles(w.releases, Next(w, Deploy).releases, w.now);
    } else if NextActive(w.releases, w.spec, w.status) == FirstDeployable(w.releases) {
      TakesOver(w, n);
    } else {
      CoveredAfterRamp(w);
    }
  }

  lemma CoveredOther(w: World, a: Action, n: string, d: int)
    requires Steady(w, a, n) && a != Deploy
    ensures Covered(w, n, d) ==> Covered(Next(w, a), n, d)
    ensures TakenOver(w, n) ==> TakenOver(Next(w, a), n)
  {
    hide StepOf, SyncedStatus, MarkAll, FirstDeployable, LastWithRole, DesiredInstances;
    match a
    case Sync(_, _, _, _) => SameRoles(w.releases, Next(w, a).releases);
    case MarkBad(m) =>
      if Covered(w, n, d) || TakenOver(w, n) {
        MarkSpares(w.releases, m);
      }
    case Tick(_) =>
    case Edit(_) =>
  }

  ghost predicate CoveredOrDone(w: World, n: string, d: int) {
    Covered(w, n, d) || TakenOver(w, n)
  }

  lemma {:induction false} StaysCovered(w: World, acts: seq<Action>, n: string, d: int)
    requires Orderly(w) && CoveredOrDone(w, n, d)
    requires Along(w, acts, (v, a) => Steady(v, a, n))
    ensures Orderly(Run(w, acts)) && CoveredOrDone(Run(w, acts), n, d)
    decreases |acts|
  {
    hide Orderly, Covered, TakenOver, Allowed, Next;
    if acts != [] {
      if acts[0] != Deploy {
        CoveredOther(w, acts[0], n, d);
      } else if Covered(w, n, d) {
        CoveredDeploy(w, n, d);
      } else {
        TakeoverStays(w, n);
      }
      OrderlyNext(w, acts[0]);
      StaysCovered(Next(w, acts[0]), acts[1..], n, d);
    }
  }

  /**
    No capacity dip in any run: start with a reconcile that ramps on, from any roles, shares and pods. As long
    as the demand stays, nothing is rolled back or released anew, and no pods of the target go away, every
    later reconcile that ramps on leaves the target's available pods and the pods asked of the active release
    together covering the demand.
   */
  lemma CapacityHeld(w: World, acts: seq<Action>)
    requires Orderly(w) && RampsOn(w.releases, w.spec, w.status, w.now)
    requires NextActive(w.releases, w.spec, w.status) < RELEASES_TO_KEEP
    requires var n := w.releases[FirstDeployable(w.releases)].meta.name;
      Along(Next(w, Deploy), acts, (v, a) => Steady(v, a, n))
    ensures var v := Run(Next(w, Deploy), acts);
      RampsOn(v.releases, v.spec, v.status, v.now) ==>
        var t, a := FirstDeployable(v.releases), NextActive(v.releases, v.spec, v.status);
        var d := DesiredInstances(v.spec, v.status);
        && d == DesiredInstances(w.spec, w.status) && |StepOf(v).releases| == |v.releases|
        && v.releases[t].status.available + StepOf(v).releases[a].desired >= d
  {
    hide Step, Orderly, Gated, NextActive, FirstDeployable, DesiredInstances, Next, Run, Along, Covered, TakenOver;
    var n, d := w.releases[FirstDeployable(w.releases)].meta.name, DesiredInstances(w.spec, w.status);
    CoveredAfterRamp(w);
    OrderlyDeploy(w);
    StaysCovered(Next(w, Deploy), acts, n, d);
    var v := Run(Next(w, Deploy), acts);
    if RampsOn(v.releases, v.spec, v.status, v.now) {
      RampOfCovered(v, n, d);
    }
  }

  lemma RampOfCovered(v: World, n: string, d: int)
    requires CoveredOrDone(v, n, d) && RampsOn(v.releases, v.spec, v.status, v.now)
    ensures var t, a := FirstDeployable(v.releases), NextActive(v.releases, v.spec, v.status);
      && 0 <= a < |v.releases| && d == DesiredInstances(v.spec, v.status) && |StepOf(v).releases| == |v.releases|
      && v.releases[t].status.available + StepOf(v).releases[a].desired >= d
  {
    hide Step, Gated, FirstDeployable, DesiredInstances, LastWithRole;
    StepKeepsMeta(v);
    CapacityInRamp(v.releases, v.spec, v.status, v.now);
  }
}
