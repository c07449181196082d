/**
  A release that does not come up: over whole runs it gets no more pods, no traffic, and never takes over.
 */
module Stalled {
  import opened Model
  import opened Rollout
  import opened StepLaws
  import opened StepFields
  import opened Selection
  import opened ReleaseController
  import opened Runs
  import opened RolloutRuns
  import opened Convergence

  /** Another release is active beside the newest good one, `n`, of which no pod is available, which has not all
      traffic, and which is asked for at most `most` pods, one ramp step or more. */
  ghost predicate NoneUp(w: World, n: string, d: int, most: int) {
    var t, a := FirstDeployable(w.releases), LastWithRole(w.releases, Active);
    && 0 <= t < a < RELEASES_TO_KEEP && w.releases[t].meta.name == n
    && DesiredInstances(w.spec, w.status) == d >= 1 && StepAtMost(w.spec, d, most)
    && w.releases[t].status.available == 0 && w.releases[t].traffic != 100 && w.releases[t].desired <= most
  }

  ghost predicate StepAtMost(spec: TargetSpec, d: int, most: int) {
    forall m :: PodStep(m, d, spec) ==> m <= most
  }

  /** No newer release, no rollback of `n` or of the active release, the same demand and steps, and no pod of
      `n` ever becomes available. */
  ghost predicate StaysDown(w: World, a: Action, n: string) {
    && Allowed(w, a)
    && match a
       case MarkBad(m) =>
         m != n && forall i :: 0 <= i < |w.releases| && w.releases[i].role == Active ==> w.releases[i].meta.name != m
       case Draft(_) => false
       case Edit(spec) =>
         DesiredInstances(spec, w.status) == DesiredInstances(w.spec, w.status) && RampPercent(spec) == RampPercent(w.spec)
       case Sync(m, live, pods, timeout) =>
         m == n ==> forall i :: 0 <= i < |w.releases| && w.releases[i].meta.name == n ==>
           Synced(w.releases[i], a, w.now).status.available == 0
       case _ => true
  }

  /** What an un-gated reconcile leaves such a release: no more pods and no traffic. */
  lemma NoneUpStep(w: World, n: string, d: int, most: int)
    requires Orderly(w) && NoneUp(w, n, d, most) && UngatedAt(w)
    ensures var t, a := FirstDeployable(w.releases), LastWithRole(w.releases, Active);
      var out := StepOf(w).releases;
      && |out| == |w.releases| && NextActive(w.releases, w.spec, w.status) == a
      && out[t].desired <= most && out[t].traffic == 0 && out[a].traffic == 100
  {
    hide Step, Gated, FirstDeployable, LastWithRole, DesiredInstances, NewestFirst, TargetBeforeActive, PodStep, Increment;
    SharesOfStep(w.releases, w.spec, w.status, w.now);
    PodStepIs(d, w.spec);
    NoPodsOnStalled(w.releases, w.spec, w.status, w.now, PodIncrement(d, Increment(w.spec)));
    NothingUp(d);
  }

  lemma NothingUp(d: int)
    requires d >= 1
    ensures forall p :: UpPercent(p, 0, d) ==> p == 0
  {
    forall p | UpPercent(p, 0, d) ensures p == 0 {
      if p >= 1 {
        ProductMonotone(1, p, d);
      } else if p <= -1 {
        ProductMonotone(p + 1, 0, d);
      }
    }
  }

  lemma NoneUpDeploy(w: World, n: string, d: int, most: int)
    requires Orderly(w) && NoneUp(w, n, d, most)
    ensures NoneUp(Next(w, Deploy), n, d, most)
    ensures UngatedAt(w) ==> Idle(Next(w, Deploy))
    ensures Idle(w) ==> Idle(Next(w, Deploy))
  {
    hide Step, Orderly, Ungated, FirstDeployable, LastWithRole, DesiredInstances, Survivors, StepAtMost, NextActive;
    var rs, out := w.releases, StepOf(w).releases;
    DeployKeeps(w);
    if UngatedAt(w) {
      NoneUpStep(w, n, d, most);
      StepKeepsMeta(w);
      RoleDiscipline(rs, w.spec, w.status, w.now);
      ActiveOfDisciplined(out, NextActive(rs, w.spec, w.status), FirstDeployable(rs));
      KeptRoles(out, Next(w, Deploy).releases, w.now);
      DemandIsFrozen(w);
    } else {
      StepChangesNothing(w);
      KeptRoles(rs, Next(w, Deploy).releases, w.now);
    }
  }

  /** The target has no traffic, and the active release all of it. */
  ghost predicate Idle(w: World) {
    var t, a := FirstDeployable(w.releases), LastWithRole(w.releases, Active);
    t >= 0 && a >= 0 && w.releases[t].traffic == 0 && w.releases[a].traffic == 100
  }

  lemma NoneUpOther(w: World, a: Action, n: string, d: int, most: int)
    requires NoneUp(w, n, d, most) && StaysDown(w, a, n) && a != Deploy
    ensures NoneUp(Next(w, a), n, d, most)
    ensures Idle(w) ==> Idle(Next(w, a))
  {
    hide StepOf, SyncedStatus, MarkAll, FirstDeployable, LastWithRole, DesiredInstances;
    match a
    case Sync(_, _, _, _) => SameRoles(w.releases, Next(w, a).releases);
    case MarkBad(m) => MarkSpares(w.releases, m);
    case Tick(_) =>
    case Edit(spec) =>
      assert forall m :: PodStep(m, d, spec) <==> PodStep(m, d, w.spec);
  }

  /**
    No ramp without pods coming up: while no pod of the newest good release is available, it is never asked for
    more than one step of pods (or than it began with), and another release stays active in every run, with
    all traffic from the first reconcile on that passes the gate.
   */
  lemma {:induction false} StalledStaysDown(w: World, acts: seq<Action>, n: string, d: int, most: int)
    requires Orderly(w) && NoneUp(w, n, d, most)
    requires Along(w, acts, (v, a) => StaysDown(v, a, n))
    ensures NoneUp(Run(w, acts), n, d, most)
    ensures Idle(w) || UngatedCount(w, acts) > 0 ==> Idle(Run(w, acts))
    decreases |acts|
  {
    hide Orderly, NoneUp, Idle, Allowed, Next, UngatedAt;
    if acts != [] {
      if acts[0] == Deploy {
        NoneUpDeploy(w, n, d, most);
      } else {
        NoneUpOther(w, acts[0], n, d, most);
      }
      OrderlyNext(w, acts[0]);
      StalledStaysDown(Next(w, acts[0]), acts[1..], n, d, most);
    }
  }
}
