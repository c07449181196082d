/**
  The rollout as the operator runs it: release and target objects on the heap, updated in place, with
  the active release possibly being the same object as the target release. `DeployReleases` is proved
  to do exactly what `Rollout.Step` says.
 */
module DeployReleases {
  import opened Model
  import opened Rollout

  class AppRelease {
    var meta: Meta
    var role: Role
    var traffic: int
    var desired: int
    var marked: bool
    var status: ReleaseStatus

    function View(): Release
      reads this
    {
      Release(meta, role, traffic, desired, marked, status)
    }

    constructor (r: Release)
      ensures View() == r
    {
      meta, role, traffic, desired, marked, status := r.meta, r.role, r.traffic, r.desired, r.marked, r.status;
    }
  }

  class AppTarget {
    var spec: TargetSpec
    var status: TargetStatus

    constructor (spec: TargetSpec, status: TargetStatus)
      ensures this.spec == spec && this.status == status
    {
      this.spec, this.status := spec, status;
    }
  }

  ghost function Views(releases: seq<AppRelease>): (vs: seq<Release>)
    reads releases
    ensures |vs| == |releases|
    ensures forall i :: 0 <= i < |releases| ==> vs[i] == releases[i].View()
  {
    seq(|releases|, i requires 0 <= i < |releases| reads releases => releases[i].View())
  }

  /** The objects hold exactly the values `vs`. */
  ghost predicate Represents(releases: seq<AppRelease>, vs: seq<Release>)
    reads releases
  {
    |vs| == |releases| && forall i :: 0 <= i < |releases| ==> releases[i].View() == vs[i]
  }

  ghost predicate Distinct(releases: seq<AppRelease>) {
    forall i, j :: 0 <= i < j < |releases| ==> releases[i] != releases[j]
  }

  /** The release at an index, or null for -1. */
  ghost function ObjectAt(releases: seq<AppRelease>, k: int): AppRelease?
    requires k < |releases|
  {
    if k < 0 then null else releases[k]
  }

  method FindRoles(releases: seq<AppRelease>, ghost vs: seq<Release>)
    returns (active: AppRelease?, target: AppRelease?)
    requires Represents(releases, vs)
    ensures active == ObjectAt(releases, LastWithRole(vs, Active))
    ensures target == ObjectAt(releases, LastWithRole(vs, Target))
  {
    active, target := null, null;
    for i := 0 to |releases|
      invariant active == ObjectAt(releases, LastWithRole(vs[..i], Active))
      invariant target == ObjectAt(releases, LastWithRole(vs[..i], Target))
    {
      assert vs[..i + 1][..i] == vs[..i];
      if releases[i].role == Active {
        active := releases[i];
      } else if releases[i].role == Target {
        target := releases[i];
      }
    }
    assert vs[..|vs|] == vs;
  }

  method GetFirstDeployableRelease(releases: seq<AppRelease>, ghost vs: seq<Release>) returns (first: AppRelease?)
    requires Represents(releases, vs)
    ensures first == ObjectAt(releases, FirstDeployable(vs))
  {
    for i := 0 to |releases|
      invariant forall j :: 0 <= j < i ==> vs[j].role == Bad
    {
      if releases[i].role == Bad {
        continue;
      }
      return releases[i];
    }
    return null;
  }

  /** Raises the target's pods in place and says which share it should get. */
  method RampTarget(target: AppRelease, d: int, increment: int) returns (share: int, changed: bool)
    requires d != 0
    modifies target`desired
    ensures target.desired == RampPods(old(target.View()), d, increment)
    ensures share == RampShare(old(target.View()), d, increment)
    ensures changed == (old(target.desired) < target.desired)
  {
    changed := false;
    var maxIncrement := Truncate(d * increment, 100);
    if maxIncrement < 1 {
      maxIncrement := 1;
    }
    var targetInstances := target.status.available + maxIncrement;
    if targetInstances > d {
      targetInstances := d;
    }
    if target.desired < targetInstances {
      target.desired := targetInstances;
      changed := true;
    }
    share := AvailablePercent(target.status.available, d);
    if share - target.traffic > increment {
      share := target.traffic + increment;
    }
  }

  /** Assigns one release its new role, share and pods. */
  method ShiftRelease(
    ar: AppRelease, active: AppRelease, target: AppRelease, share: int, d: int, timeout: int, now: int,
    ghost i: nat, ghost plan: Plan)
    returns (lingers: bool)
    requires (ar == active) == (i == plan.active) && (ar == target) == (i == plan.target)
    requires plan.share == share && (ar == target ==> plan.pods == ar.desired)
    modifies ar
    ensures ar.View() == Shift(old(ar.View()), i, plan, d, timeout, now)
    ensures lingers == (i != plan.active && i != plan.target && Lingers(old(ar.View()), timeout, now))
  {
    lingers := false;
    if ar == active {
      ar.role := Active;
      if ar == target {
        ar.traffic := share;
      } else {
        var instanceCount := Truncate(d * ar.traffic, 100);
        if d > 0 && instanceCount < 1 && ar.traffic != 0 {
          instanceCount := 1;
        }
        ar.desired := instanceCount;
        ar.traffic := 100 - share;
      }
    } else if ar == target {
      ar.role := Target;
      ar.traffic := share;
    } else if ar.role == Bad {
      ar.traffic := 0;
      ar.desired := 0;
    } else {
      var prevRole := ar.role;
      ar.role := NoRole;
      ar.traffic := 0;
      if prevRole != Active && Aged(now, ar.status.changedAt, timeout) {
        ar.desired := 0;
      } else {
        lingers := true;
      }
    }
  }

  ghost function Shifted(vs: seq<Release>, plan: Plan, d: int, timeout: int, now: int): (out: seq<Release>)
    ensures |out| == |vs|
    ensures forall i :: 0 <= i < |vs| ==> out[i] == Shift(vs[i], i, plan, d, timeout, now)
  {
    seq(|vs|, i requires 0 <= i < |vs| => Shift(vs[i], i, plan, d, timeout, now))
  }

  /** Assigns all releases their new roles, shares and pods, and adds up the shares. */
  method UpdateReleases(
    releases: seq<AppRelease>, active: AppRelease, target: AppRelease, share: int, d: int, timeout: int, now: int,
    ghost plan: Plan, ghost vs: seq<Release>, ghost out: seq<Release>)
    returns (total: int, lingering: bool)
    requires Distinct(releases) && Represents(releases, vs)
    requires plan.active < |vs| && releases[plan.active] == active
    requires plan.target < |vs| && releases[plan.target] == target
    requires plan.share == share && plan.pods == vs[plan.target].desired
    requires out == Shifted(vs, plan, d, timeout, now)
    modifies releases
    ensures Represents(releases, out)
    ensures total == Total(out)
    ensures lingering == AnyLingers(vs, plan, timeout, now)
  {
    hide Truncate, Aged, ShrunkPods, Shift, Lingers, Shifted;
    total, lingering := 0, false;
    for i := 0 to |releases|
      invariant forall j :: 0 <= j < i ==> releases[j].View() == out[j]
      invariant forall j :: i <= j < |releases| ==> releases[j].View() == vs[j]
      invariant total == Total(out[..i])
      invariant lingering == exists j ::
        0 <= j < i && j != plan.active && j != plan.target && Lingers(vs[j], timeout, now)
    {
      assert out[..i + 1][..i] == out[..i];
      var lingers := ShiftRelease(releases[i], active, target, share, d, timeout, now, i, plan);
      lingering := lingering || lingers;
      total := total + releases[i].traffic;
    }
    assert out[..|releases|] == out;
  }

  ghost function Labelled(vs: seq<Release>, t: nat): (out: seq<Release>)
    ensures |out| == |vs|
    ensures forall i :: 0 <= i < |vs| ==> out[i] == vs[i].(marked := i == t)
  {
    seq(|vs|, i requires 0 <= i < |vs| => vs[i].(marked := i == t))
  }

  method LabelTarget(releases: seq<AppRelease>, target: AppRelease, ghost t: nat, ghost vs: seq<Release>)
    requires Distinct(releases) && Represents(releases, vs)
    requires t < |vs| && releases[t] == target
    modifies releases
    ensures Represents(releases, Labelled(vs, t))
  {
    for i := 0 to |releases|
      invariant forall j :: 0 <= j < i ==> releases[j].View() == vs[j].(marked := j == t)
      invariant forall j :: i <= j < |releases| ==> releases[j].View() == vs[j]
    {
      releases[i].marked := releases[i] == target;
    }
  }

  /** Chooses the active and target releases and the target's share, raising or setting the target's pods. */
  method ChooseReleases(
    at: AppTarget, oldActive: AppRelease?, oldTarget: AppRelease?, first: AppRelease,
    ghost releases: seq<AppRelease>, ghost vs: seq<Release>)
    returns (active: AppRelease, target: AppRelease, share: int, changed: bool, ramping: bool, ghost plan: Plan)
    requires Distinct(releases) && Represents(releases, vs)
    requires FirstDeployable(vs) >= 0 && first == releases[FirstDeployable(vs)]
    requires oldActive == ObjectAt(releases, LastWithRole(vs, Active))
    requires oldTarget == ObjectAt(releases, CurrentTarget(vs))
    modifies first`desired
    ensures plan == MakePlan(vs, DesiredInstances(at.spec, at.status), Increment(at.spec))
    ensures active == releases[plan.active] && target == releases[plan.target]
    ensures share == plan.share && changed == plan.changed && ramping == plan.ramping
    ensures Represents(releases, Raised(vs, plan))
  {
    var d := DesiredInstances(at.spec, at.status);
    plan := MakePlan(vs, d, Increment(at.spec));
    changed, ramping := false, false;
    target := first;
    if oldActive == null {
      active := first;
      changed := true;
    } else {
      active := oldActive;
      if oldTarget != first {
        changed := true;
      }
    }
    if d == 0 {
      share := 100;
      if target.desired != 0 {
        changed := true;
      }
      target.desired := d;
      active := target;
    } else if target == active {
      share := 100;
      target.desired := d;
    } else {
      assert target.View() == vs[FirstDeployable(vs)];
      var raised;
      share, raised := RampTarget(target, d, Increment(at.spec));
      changed := changed || raised;
      if target.traffic == 100 {
        active := target;
        changed := true;
      } else {
        ramping := true;
      }
    }
  }

  /** The releases once the target's pods are set. */
  ghost function Raised(vs: seq<Release>, plan: Plan): seq<Release>
    requires plan.target < |vs|
  {
    vs[plan.target := vs[plan.target].(desired := plan.pods)]
  }

  /** Setting the target's pods, shifting, labelling and repairing one after the other is what `Advance` does. */
  lemma InStages(vs: seq<Release>, plan: Plan, d: int, timeout: int, now: int)
    requires plan.active < |vs| && plan.target < |vs|
    ensures Labelled(Shifted(Raised(vs, plan), plan, d, timeout, now), plan.target) == ShiftAll(vs, plan, d, timeout, now)
    ensures Total(Shifted(Raised(vs, plan), plan, d, timeout, now)) == Total(ShiftAll(vs, plan, d, timeout, now))
    ensures AnyLingers(Raised(vs, plan), plan, timeout, now) == AnyLingers(vs, plan, timeout, now)
  {
    SameTotals(Shifted(Raised(vs, plan), plan, d, timeout, now), ShiftAll(vs, plan, d, timeout, now));
  }

  /** Shifts all releases, labels the target and takes what the total is off 100 out of its share. */
  method PlaceReleases(
    releases: seq<AppRelease>, active: AppRelease, target: AppRelease, share: int, d: int, timeout: int, now: int,
    ghost plan: Plan, ghost vs: seq<Release>)
    returns (lingering: bool)
    requires plan.active < |vs| && plan.target < |vs|
    requires Distinct(releases) && Represents(releases, Raised(vs, plan))
    requires releases[plan.active] == active && releases[plan.target] == target
    requires plan.share == share
    modifies releases
    ensures Represents(releases, Repair(ShiftAll(vs, plan, d, timeout, now), plan.target))
    ensures target.desired == plan.pods
    ensures lingering == AnyLingers(vs, plan, timeout, now)
  {
    ghost var shifted := Shifted(Raised(vs, plan), plan, d, timeout, now);
    var total;
    total, lingering :=
      UpdateReleases(releases, active, target, share, d, timeout, now, plan, Raised(vs, plan), shifted);
    LabelTarget(releases, target, plan.target, shifted);
    InStages(vs, plan, d, timeout, now);
    CorrectTotal(releases, target, total, plan.target, ShiftAll(vs, plan, d, timeout, now));
  }

  method CorrectTotal(
    releases: seq<AppRelease>, target: AppRelease, total: int, ghost t: nat, ghost vs: seq<Release>)
    requires Distinct(releases) && Represents(releases, vs)
    requires t < |vs| && releases[t] == target && total == Total(vs)
    modifies target`traffic
    ensures Represents(releases, Repair(vs, t))
  {
    if total != 100 {
      var overage := total - 100;
      target.traffic := target.traffic - overage;
    }
  }

  method UpdateStatus(
    at: AppTarget, active: AppRelease, target: AppRelease, changed: bool, now: int,
    ghost plan: Plan, ghost vs: seq<Release>)
    requires plan.active < |vs| && plan.target < |vs|
    requires active.meta == vs[plan.active].meta && active.status == vs[plan.active].status
    requires target.meta == vs[plan.target].meta && target.status == vs[plan.target].status
    requires (active == target) == (plan.active == plan.target) && changed == plan.changed
    requires target.desired == plan.pods
    modifies at`status
    ensures at.status == NewStatus(vs, plan, at.spec, old(at.status), now)
  {
    at.status := at.status.(activeRelease := active.meta.name, targetRelease := target.meta.name);
    if changed || at.status.deployUpdatedAt == Never {
      at.status := at.status.(deployUpdatedAt := At(now));
    }
    if at.spec.mode == Halt {
      at.status := at.status.(phase := HaltedPhase);
    } else if active != target || target.status.available < target.desired {
      at.status := at.status.(phase := Deploying);
    } else {
      at.status := at.status.(phase := Running);
    }
    if active.meta.created != Never && active == target {
      at.status := at.status.(
        desired := active.status.desired, ready := active.status.ready, available := active.status.available);
    }
  }

  /** The un-gated part of a reconcile, from the choice of the target on. */
  method AdvanceReleases(
    at: AppTarget, releases: seq<AppRelease>, oldActive: AppRelease?, oldTarget: AppRelease?, first: AppRelease,
    now: int, ghost vs: seq<Release>, ghost o: Outcome)
    returns (requeue: Option<int>)
    requires Distinct(releases) && Represents(releases, vs)
    requires FirstDeployable(vs) >= 0 && first == releases[FirstDeployable(vs)]
    requires oldActive == ObjectAt(releases, LastWithRole(vs, Active))
    requires oldTarget == ObjectAt(releases, CurrentTarget(vs))
    requires o == Advance(vs, at.spec, at.status, now)
    modifies at`status, releases
    ensures Represents(releases, o.releases) && at.status == o.status && requeue == o.requeue
  {
    hide Total, NewStatus, MakePlan, AnyLingers, DesiredInstances, ReadinessTimeout, Repair, ShiftAll, Raised,
      LastWithRole, CurrentTarget, FirstDeployable;
    var timeout := ReadinessTimeout(at.spec);
    var d := DesiredInstances(at.spec, at.status);
    var active, target, share, changed, ramping, plan :=
      ChooseReleases(at, oldActive, oldTarget, first, releases, vs);
    var lingering := PlaceReleases(releases, active, target, share, d, timeout, now, plan, vs);
    requeue := if ramping || lingering then Some(timeout) else None;
    AdvanceKeeps(vs, at.spec, at.status, now);
    assert active.View() == o.releases[plan.active] && target.View() == o.releases[plan.target];
    UpdateStatus(at, active, target, changed, now, plan, vs);
  }

  /**
    One reconcile over the releases, newest first. It fails exactly when there are none; otherwise
    objects, target status and requeue delay end up as `Step` says.
   */
  method DeployReleases(at: AppTarget, releases: seq<AppRelease>, now: int) returns (failed: bool, requeue: Option<int>)
    requires Distinct(releases)
    modifies at`status, releases
    ensures failed == (releases == [])
    ensures failed ==> at.status == old(at.status) && requeue == None
    ensures !failed ==>
      var o := Step(old(Views(releases)), at.spec, old(at.status), now);
      Represents(releases, o.releases) && at.status == o.status && requeue == o.requeue
  {
    hide Advance, ReadinessTimeout;
    failed, requeue := releases == [], None;
    if failed {
      return;
    }
    ghost var vs := Views(releases);
    var active, target := FindRoles(releases, vs);
    if target == null {
      target := active;
    }
    if active != null && target != null && active != target {
      var timeout := ReadinessTimeout(at.spec);
      if Recent(now, at.status.deployUpdatedAt, timeout) {
        requeue := Some(timeout - (now - at.status.deployUpdatedAt.time));
        return;
      }
    }
    var first := GetFirstDeployableRelease(releases, vs);
    if first != null {
      requeue := AdvanceReleases(at, releases, active, target, first, now, vs, Advance(vs, at.spec, at.status, now));
    }
  }
}
