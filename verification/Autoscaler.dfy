/**
  Handing the active release over to the autoscaler: who may write a pod count, and when.
 */
module Autoscaler {
  import opened Model
  import opened Rollout
  import opened StepLaws
  import Selection
  import ReleaseController

  /** An autoscaler: the release on its label, the replica set it scales, and its bounds. */
  datatype Scaler = Scaler(release: string, scales: string, min: int, max: int)

  predicate NeedsAutoscaler(spec: TargetSpec) {
    spec.cpuTarget != 0 && spec.scaleMin != spec.scaleMax
  }

  function ScalerFor(spec: TargetSpec, release: string): Scaler {
    var min := if spec.scaleMin == 0 then 1 else spec.scaleMin;
    Scaler(release, release, min, if spec.scaleMax < min then min else spec.scaleMax)
  }

  function ScalerName(spec: TargetSpec): string {
    spec.app + "-scaler"
  }

  predicate NeedsScaler(spec: TargetSpec, rs: seq<Release>) {
    NeedsAutoscaler(spec) && LastWithRole(rs, Active) >= 0 && LastWithRole(rs, Target) < 0
  }

  /** The target's autoscalers after a reconcile over the releases `rs`. */
  function ScalersAfter(spec: TargetSpec, rs: seq<Release>, store: map<string, Scaler>): map<string, Scaler> {
    if !NeedsScaler(spec, rs) then map[]
    else
      var active := rs[LastWithRole(rs, Active)].meta.name;
      (map n | n in store && store[n].release == active :: store[n])[ScalerName(spec) := ScalerFor(spec, active)]
  }

  /** The reconcile over the stored autoscalers, listed in any order. */
  method ReconcileAutoScaler(spec: TargetSpec, rs: seq<Release>, listed: seq<string>, store: map<string, Scaler>)
    returns (after: map<string, Scaler>)
    requires forall n :: n in listed <==> n in store
    ensures after == ScalersAfter(spec, rs, store)
  {
    var active, target := FindRoles(rs);
    after := store;
    var needsScaler := NeedsAutoscaler(spec) && active.Some? && target.None?;
    if !needsScaler {
      for i := 0 to |listed|
        invariant forall n :: n in after <==> n in store && n !in listed[..i]
      {
        after := after - {listed[i]};
      }
    } else {
      var scaler := ScalerFor(spec, active.value.meta.name);
      after := DeleteOthers(scaler.release, listed, store);
      after := after[ScalerName(spec) := scaler];
    }
  }

  method DeleteOthers(release: string, listed: seq<string>, store: map<string, Scaler>)
    returns (after: map<string, Scaler>)
    requires forall n :: n in listed <==> n in store
    ensures after == map n | n in store && store[n].release == release :: store[n]
  {
    after := store;
    for i := 0 to |listed|
      invariant forall n :: n in after <==> n in store && (n in listed[..i] ==> store[n].release == release)
      invariant forall n :: n in after ==> after[n] == store[n]
    {
      assert listed[i] in listed;
      if store[listed[i]].release != release {
        after := after - {listed[i]};
      }
    }
    assert listed[..|listed|] == listed;
  }

  method FindRoles(rs: seq<Release>) returns (active: Option<Release>, target: Option<Release>)
    ensures var a := LastWithRole(rs, Active); active == if a < 0 then None else Some(rs[a])
    ensures var t := LastWithRole(rs, Target); target == if t < 0 then None else Some(rs[t])
  {
    active, target := None, None;
    for i := 0 to |rs|
      invariant var a := LastWithRole(rs[..i], Active); active == if a < 0 then None else Some(rs[a])
      invariant var t := LastWithRole(rs[..i], Target); target == if t < 0 then None else Some(rs[t])
    {
      assert rs[..i + 1][..i] == rs[..i];
      if rs[i].role == Active {
        active := Some(rs[i]);
      } else if rs[i].role == Target {
        target := Some(rs[i]);
      }
    }
    assert rs[..|rs|] == rs;
  }

  /** Every autoscaler scales the release on its label. */
  ghost predicate Consistent(store: map<string, Scaler>) {
    forall n :: n in store ==> store[n].scales == store[n].release
  }

  /** The autoscalers scale release `a`, which is active and labelled, and no release is being moved
      towards. The release controller leaves the replica set they write alone iff the release wants pods. */
  ghost predicate OwnedBy(rs: seq<Release>, scalers: map<string, Scaler>, a: int) {
    && 0 <= a < |rs|
    && (forall i :: 0 <= i < |rs| ==> rs[i].role != Target)
    && ReleaseController.Autoscaled(rs[a])
    && (forall n :: n in scalers ==> scalers[n].scales == rs[a].meta.name)
    && (ReleaseController.LeavesAlone(rs[a]) <==> rs[a].desired != 0)
  }

  ghost predicate HandedOver(rs: seq<Release>, scalers: map<string, Scaler>) {
    scalers != map[] ==> exists a :: OwnedBy(rs, scalers, a)
  }

  /** Single writer: a deployment reconcile hands pod counts over to the autoscaler, or keeps them. */
  lemma SingleWriter(
    rs: seq<Release>, spec: TargetSpec, status: TargetStatus, now: int, store: map<string, Scaler>)
    requires TargetBeforeActive(rs) && Consistent(store)
    ensures var out := Step(rs, spec, status, now).releases;
      var after := ScalersAfter(spec, Selection.Routed(out), store);
      && Consistent(after) && HandedOver(out, after)
      && (after != map[] ==> OwnedBy(out, after, LastWithRole(Selection.Routed(out), Active)))
  {
    hide Advance, NextActive, ReadinessTimeout, NeedsAutoscaler, ScalerName, LastWithRole, FirstDeployable,
      ReleaseController.LeavesAlone;
    var out := Step(rs, spec, status, now).releases;
    var routed := Selection.Routed(out);
    if NeedsScaler(spec, routed) {
      var a := LastWithRole(routed, Active);
      SoleOwner(rs, spec, status, now, a);
      ReleaseController.LeftAloneIffAutoscaled(out[a]);
      assert OwnedBy(out, ScalersAfter(spec, routed, store), a);
    }
  }

  /** The active release an autoscaler is made for is labelled, and no release is being moved towards. */
  lemma SoleOwner(rs: seq<Release>, spec: TargetSpec, status: TargetStatus, now: int, a: int)
    requires TargetBeforeActive(rs)
    requires var routed := Selection.Routed(Step(rs, spec, status, now).releases);
      0 <= a == LastWithRole(routed, Active) && LastWithRole(routed, Target) < 0
    ensures var out := Step(rs, spec, status, now).releases;
      a < |out| && ReleaseController.Autoscaled(out[a]) && forall i :: 0 <= i < |out| ==> out[i].role != Target
  {
    hide Advance, NextActive, ReadinessTimeout;
    var out := Step(rs, spec, status, now).releases;
    var routed := Selection.Routed(out);
    assert routed[a] == out[a];
    if Ungated(rs, spec, status, now) {
      RoleDiscipline(rs, spec, status, now);
      var t := FirstDeployable(rs);
      assert out[t] == routed[t];
    }
  }

  /** An autoscaler scales the release on its label. Its bounds are the wanted ones, except that a lower bound
      of none means one pod and an upper bound below the lower one means the lower one. */
  lemma ScalerBounds(spec: TargetSpec, release: string)
    ensures var s := ScalerFor(spec, release);
      && s.release == release && s.scales == release
      && (spec.scaleMin == 0 ==> s.min == 1) && (spec.scaleMin != 0 ==> s.min == spec.scaleMin)
      && (spec.scaleMax >= s.min ==> s.max == spec.scaleMax) && (spec.scaleMax < s.min ==> s.max == s.min)
      && (spec.scaleMin >= 0 ==> 1 <= s.min <= s.max)
  {
  }

  /** Release `a` is the last one with the active role, and none has the target role. */
  ghost predicate AloneActive(rs: seq<Release>, a: int) {
    && 0 <= a < |rs| && rs[a].role == Active
    && (forall i :: a < i < |rs| ==> rs[i].role != Active)
    && forall i :: 0 <= i < |rs| ==> rs[i].role != Target
  }

  /**
    The autoscalers after a reconcile: some exactly when processor use is a target, the bounds differ, and a
    release is active while none is being moved towards. Then the app's own one is for that release, and of the
    others exactly those labelled with it stay, as they were.
   */
  lemma ScalersStored(spec: TargetSpec, rs: seq<Release>, store: map<string, Scaler>)
    ensures var after := ScalersAfter(spec, rs, store);
      var own := spec.app + "-scaler";
      && (after != map[] <==> spec.cpuTarget != 0 && spec.scaleMin != spec.scaleMax && exists a :: AloneActive(rs, a))
      && forall a :: AloneActive(rs, a) && after != map[] ==>
        && own in after && after[own] == ScalerFor(spec, rs[a].meta.name)
        && forall n :: n != own ==>
          && (n in after <==> n in store && store[n].release == rs[a].meta.name)
          && (n in after ==> after[n] == store[n])
  {
    hide ScalerFor;
    var a := LastWithRole(rs, Active);
    assert NeedsScaler(spec, rs) ==> AloneActive(rs, a);
    forall b | AloneActive(rs, b) ensures a == b && LastWithRole(rs, Target) < 0 {
    }
    if NeedsScaler(spec, rs) {
      assert spec.app + "-scaler" in ScalersAfter(spec, rs, store);
    }
  }

  /** After an un-gated reconcile with the active release among the ten newest, there is an autoscaler iff
      the app wants one and no rollout is under way, and then there is one for the target. */
  lemma ScalerIffAtRest(
    rs: seq<Release>, spec: TargetSpec, status: TargetStatus, now: int, store: map<string, Scaler>)
    requires Ungated(rs, spec, status, now)
    requires NextActive(rs, spec, status) < Selection.RELEASES_TO_KEEP
    ensures var out := Step(rs, spec, status, now).releases;
      var after := ScalersAfter(spec, Selection.Routed(out), store);
      var t := FirstDeployable(rs);
      && |out| == |rs|
      && (after != map[] <==> spec.cpuTarget != 0 && spec.scaleMin != spec.scaleMax && NextActive(rs, spec, status) == t)
      && (after != map[] ==>
        spec.app + "-scaler" in after && after[spec.app + "-scaler"] == ScalerFor(spec, out[t].meta.name))
  {
    hide Step, Ungated, NextActive, ScalerFor, FirstDeployable;
    var out := Step(rs, spec, status, now).releases;
    var routed := Selection.Routed(out);
    RoleOfEach(rs, spec, status, now);
    var a, t := NextActive(rs, spec, status), FirstDeployable(rs);
    RolesAmongNewest(routed, a, t);
    if NeedsScaler(spec, routed) {
      assert ScalerName(spec) in ScalersAfter(spec, routed, store);
    }
  }

  lemma RolesAmongNewest(rs: seq<Release>, a: int, t: int)
    requires 0 <= t <= a < |rs|
    requires forall i :: 0 <= i < |rs| ==> (rs[i].role == Active <==> i == a) && (rs[i].role == Target <==> i == t && t != a)
    ensures LastWithRole(rs, Active) == a && (LastWithRole(rs, Target) < 0 <==> t == a)
  {
    assert rs[a].role == Active && (t != a ==> rs[t].role == Target);
  }

  /**
    The exception to the hand-over: after such a reconcile, with pod counts that are not negative, an
    autoscaler stands beside a release whose replica set the release controller deletes, exactly when the
    app wants an autoscaler and the demand is nothing, as in halt mode.
   */
  lemma ScalerOverDeletedSet(
    rs: seq<Release>, spec: TargetSpec, status: TargetStatus, now: int, store: map<string, Scaler>)
    requires Ungated(rs, spec, status, now)
    requires NextActive(rs, spec, status) < Selection.RELEASES_TO_KEEP
    requires DesiredInstances(spec, status) >= 0 && rs[FirstDeployable(rs)].status.available >= 0
    ensures var out := Step(rs, spec, status, now).releases;
      var after := ScalersAfter(spec, Selection.Routed(out), store);
      var t := FirstDeployable(rs);
      && |out| == |rs|
      && (after != map[] && (forall live :: ReleaseController.ReplicaSetAfter(out[t], live) == None) <==>
        spec.cpuTarget != 0 && spec.scaleMin != spec.scaleMax && DesiredInstances(spec, status) == 0)
  {
    hide Step, Gated, ScalersAfter, FirstDeployable, DesiredInstances, RampShare, CurrentTarget,
      ReadinessTimeout, Lingers, ShrunkPods, PodIncrement, ReleaseController.Observed, Increment;
    ScalerIffAtRest(rs, spec, status, now, store);
    StepAsIntended(rs, spec, status, now);
    PlanActive(rs, spec, status);
    IncrementIsPositive(DesiredInstances(spec, status), Increment(spec));
    var out := Step(rs, spec, status, now).releases;
    assert ReleaseController.ReplicaSetAfter(out[FirstDeployable(rs)], None) == None <==>
      out[FirstDeployable(rs)].desired == 0;
  }
}
