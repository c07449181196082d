/**
  One reconcile of the progressive rollout, as a function from the releases of an app target (newest
  first) to the releases, target status and requeue delay it leaves behind.
 */
module Rollout {
  import opened Model

  // ---------- Reading the roles ----------

  /** The last release holding `role`, or -1. */
  function LastWithRole(rs: seq<Release>, role: Role): (k: int)
    ensures -1 <= k < |rs|
    ensures k >= 0 ==> rs[k].role == role
    ensures forall j :: k < j < |rs| ==> rs[j].role != role
  {
    if rs == [] then -1
    else if rs[|rs| - 1].role == role then |rs| - 1
    else LastWithRole(rs[..|rs| - 1], role)
  }

  /** The release being moved towards: the active one when no release holds the target role. */
  function CurrentTarget(rs: seq<Release>): int {
    var t := LastWithRole(rs, Target);
    if t < 0 then LastWithRole(rs, Active) else t
  }

  /** The newest release that is not marked bad, or -1. */
  function FirstDeployable(rs: seq<Release>): (k: int)
    ensures -1 <= k < |rs|
    ensures k >= 0 ==> rs[k].role != Bad && forall j :: 0 <= j < k ==> rs[j].role == Bad
    ensures k < 0 ==> forall j :: 0 <= j < |rs| ==> rs[j].role == Bad
  {
    if rs == [] then -1
    else if rs[0].role != Bad then 0
    else
      var k := FirstDeployable(rs[1..]);
      if k < 0 then -1 else k + 1
  }

  /** The clock gate: a rollout is under way and was last touched less than one timeout ago. */
  predicate Gated(rs: seq<Release>, spec: TargetSpec, status: TargetStatus, now: int) {
    && LastWithRole(rs, Active) >= 0
    && LastWithRole(rs, Active) != CurrentTarget(rs)
    && Recent(now, status.deployUpdatedAt, ReadinessTimeout(spec))
  }

  /** The reconcile passes both early returns. */
  predicate Ungated(rs: seq<Release>, spec: TargetSpec, status: TargetStatus, now: int) {
    !Gated(rs, spec, status, now) && FirstDeployable(rs) >= 0
  }

  // ---------- Choosing what to do ----------

  /** The ramp increment, in percent. */
  function Increment(spec: TargetSpec): (increment: int)
    ensures increment == 25 || increment == 100
  {
    if NeedsService(spec) then 25 else 100
  }

  /** The most pods one ramp step may add on top of the available ones. */
  function PodIncrement(d: int, increment: int): int {
    var m := Truncate(d * increment, 100);
    if m < 1 then 1 else m
  }

  function RampPods(r: Release, d: int, increment: int): int {
    var raised := r.status.available + PodIncrement(d, increment);
    var capped := if raised > d then d else raised;
    if r.desired < capped then capped else r.desired
  }

  /** The share of available pods, in percent and at most 100. */
  function AvailablePercent(available: int, d: int): int
    requires d != 0
  {
    if (if d > 0 then available > d else available < d) then 100 else Truncate(available * 100, d)
  }

  function RampShare(r: Release, d: int, increment: int): int
    requires d != 0
  {
    var deployed := AvailablePercent(r.status.available, d);
    if deployed - r.traffic > increment then r.traffic + increment else deployed
  }

  /** What a reconcile decides: who is active, who is the target, the target's share and pods, whether
      the change time moves, and whether the ramp still has to continue. */
  datatype Plan = Plan(active: nat, target: nat, share: int, pods: int, changed: bool, ramping: bool)

  function MakePlan(rs: seq<Release>, d: int, increment: int): (plan: Plan)
    requires FirstDeployable(rs) >= 0
    ensures plan.active < |rs| && plan.target == FirstDeployable(rs)
  {
    var t := FirstDeployable(rs);
    var a := LastWithRole(rs, Active);
    var retargeted := a < 0 || CurrentTarget(rs) != t;
    if d == 0 then
      Plan(t, t, 100, 0, retargeted || rs[t].desired != 0, false)
    else if a < 0 || a == t then
      Plan(t, t, 100, d, retargeted, false)
    else
      var pods := RampPods(rs[t], d, increment);
      var share := RampShare(rs[t], d, increment);
      if rs[t].traffic == 100 then Plan(t, t, share, pods, true, false)
      else Plan(a, t, share, pods, retargeted || rs[t].desired < pods, true)
  }

  // ---------- Carrying it out ----------

  /** Pods left to the active release while traffic moves away from it. */
  function ShrunkPods(d: int, traffic: int): int {
    var count := Truncate(d * traffic, 100);
    if d > 0 && count < 1 && traffic != 0 then 1 else count
  }

  /** The release is neither active nor target, and keeps its pods for now. */
  predicate Lingers(r: Release, timeout: int, now: int) {
    r.role != Bad && (r.role == Active || !Aged(now, r.status.changedAt, timeout))
  }

  /** The new role, traffic and pods of release `i`. */
  function Shift(r: Release, i: nat, plan: Plan, d: int, timeout: int, now: int): Release {
    if i == plan.active then
      if i == plan.target then r.(role := Active, traffic := plan.share, desired := plan.pods)
      else r.(role := Active, traffic := 100 - plan.share, desired := ShrunkPods(d, r.traffic))
    else if i == plan.target then
      r.(role := Target, traffic := plan.share, desired := plan.pods)
    else if r.role == Bad then
      r.(traffic := 0, desired := 0)
    else
      r.(role := NoRole, traffic := 0, desired := if Lingers(r, timeout, now) then r.desired else 0)
  }

  function ShiftAll(rs: seq<Release>, plan: Plan, d: int, timeout: int, now: int): (out: seq<Release>)
    ensures |out| == |rs|
    ensures forall i :: 0 <= i < |rs| ==>
      out[i] == Shift(rs[i], i, plan, d, timeout, now).(marked := i == plan.target)
  {
    seq(|rs|, i requires 0 <= i < |rs| =>
      Shift(rs[i], i, plan, d, timeout, now).(marked := i == plan.target))
  }

  /** Takes whatever the total is off 100 out of the target's share. */
  function Repair(rs: seq<Release>, target: nat): seq<Release>
    requires target < |rs|
  {
    rs[target := rs[target].(traffic := rs[target].traffic - (Total(rs) - 100))]
  }

  /** Some release other than the chosen ones still keeps its pods. */
  predicate AnyLingers(rs: seq<Release>, plan: Plan, timeout: int, now: int) {
    exists i :: 0 <= i < |rs| && i != plan.active && i != plan.target && Lingers(rs[i], timeout, now)
  }

  function NewStatus(rs: seq<Release>, plan: Plan, spec: TargetSpec, status: TargetStatus, now: int): TargetStatus
    requires plan.active < |rs| && plan.target < |rs|
  {
    var a, t := rs[plan.active], rs[plan.target];
    var phase :=
      if spec.mode == Halt then HaltedPhase
      else if plan.active != plan.target || t.status.available < plan.pods then Deploying
      else Running;
    var touched := if plan.changed || status.deployUpdatedAt == Never then At(now) else status.deployUpdatedAt;
    var named := status.(phase := phase, activeRelease := a.meta.name, targetRelease := t.meta.name, deployUpdatedAt := touched);
    if a.meta.created != Never && plan.active == plan.target then
      named.(desired := a.status.desired, ready := a.status.ready, available := a.status.available)
    else named
  }

  datatype Outcome = Outcome(releases: seq<Release>, status: TargetStatus, requeue: Option<int>)

  /** What an un-gated reconcile does. */
  function Advance(rs: seq<Release>, spec: TargetSpec, status: TargetStatus, now: int): Outcome
    requires FirstDeployable(rs) >= 0
  {
    var d := DesiredInstances(spec, status);
    var timeout := ReadinessTimeout(spec);
    var plan := MakePlan(rs, d, Increment(spec));
    Outcome(
      Repair(ShiftAll(rs, plan, d, timeout, now), plan.target),
      NewStatus(rs, plan, spec, status, now),
      if plan.ramping || AnyLingers(rs, plan, timeout, now) then Some(timeout) else None)
  }

  /** What an un-gated reconcile leaves alone: a release's identity and its status. */
  lemma AdvanceKeeps(rs: seq<Release>, spec: TargetSpec, status: TargetStatus, now: int)
    requires FirstDeployable(rs) >= 0
    ensures var out := Advance(rs, spec, status, now).releases;
      && |out| == |rs|
      && forall i :: 0 <= i < |rs| ==> out[i].meta == rs[i].meta && out[i].status == rs[i].status
  {
    hide Total, NewStatus, MakePlan, AnyLingers, DesiredInstances, ReadinessTimeout, ShrunkPods, FirstDeployable;
  }

  function Step(rs: seq<Release>, spec: TargetSpec, status: TargetStatus, now: int): Outcome {
    if Gated(rs, spec, status, now) then
      Outcome(rs, status, Some(ReadinessTimeout(spec) - (now - status.deployUpdatedAt.time)))
    else if FirstDeployable(rs) < 0 then Outcome(rs, status, None)
    else Advance(rs, spec, status, now)
  }
}
