/**
  What one un-gated reconcile guarantees, whatever roles, shares, pods and statuses it starts from.
 */
module StepLaws {
  import opened Model
  import opened Rollout

  // ---------- Closed form ----------

  lemma {:induction false} TotalOfTwo(rs: seq<Release>, a: nat, t: nat)
    requires a < |rs| && t < |rs|
    requires forall i :: 0 <= i < |rs| && i != a && i != t ==> rs[i].traffic == 0
    ensures Total(rs) == if a == t then rs[a].traffic else rs[a].traffic + rs[t].traffic
  {
    var last := |rs| - 1;
    var rest := rs[..last];
    if a == last && t == last {
      TotalOfNone(rest);
    } else if a == last {
      TotalOfTwo(rest, t, t);
    } else if t == last {
      TotalOfTwo(rest, a, a);
    } else {
      TotalOfTwo(rest, a, t);
    }
  }

  lemma TotalOfNone(rs: seq<Release>)
    requires forall i :: 0 <= i < |rs| ==> rs[i].traffic == 0
    ensures Total(rs) == 0
  {
  }

  /** Where a release ends up, without any repair of the total. */
  function Intended(r: Release, i: nat, plan: Plan, d: int, timeout: int, now: int): Release {
    var role :=
      if i == plan.active then Active else if i == plan.target then Target
      else if r.role == Bad then Bad else NoRole;
    var traffic :=
      if i == plan.active == plan.target then 100
      else if i == plan.active then 100 - plan.share
      else if i == plan.target then plan.share
      else 0;
    var desired :=
      if i == plan.target then plan.pods
      else if i == plan.active then ShrunkPods(d, r.traffic)
      else if Lingers(r, timeout, now) then r.desired
      else 0;
    r.(role := role, traffic := traffic, desired := desired, marked := i == plan.target)
  }

  /** Shifting and then repairing the total is the same as giving every release its intended place. */
  lemma {:induction false} PlacedAsIntended(rs: seq<Release>, plan: Plan, d: int, timeout: int, now: int)
    requires plan.active < |rs| && plan.target < |rs|
    ensures var out := Repair(ShiftAll(rs, plan, d, timeout, now), plan.target);
      && |out| == |rs|
      && forall i :: 0 <= i < |rs| ==> out[i] == Intended(rs[i], i, plan, d, timeout, now)
  {
    hide Aged, ShrunkPods;
    TotalOfTwo(ShiftAll(rs, plan, d, timeout, now), plan.active, plan.target);
  }

  /** The shares total exactly 100 whatever share the plan gives the target. */
  lemma {:induction false} Conservation(rs: seq<Release>, plan: Plan, d: int, timeout: int, now: int)
    requires plan.active < |rs| && plan.target < |rs|
    ensures Total(Repair(ShiftAll(rs, plan, d, timeout, now), plan.target)) == 100
  {
    hide Lingers, ShrunkPods, Repair, ShiftAll;
    PlacedAsIntended(rs, plan, d, timeout, now);
    TotalOfTwo(Repair(ShiftAll(rs, plan, d, timeout, now), plan.target), plan.active, plan.target);
  }

  function PlanOf(rs: seq<Release>, spec: TargetSpec, status: TargetStatus): (plan: Plan)
    requires FirstDeployable(rs) >= 0
    ensures plan.active < |rs| && plan.target == FirstDeployable(rs)
  {
    MakePlan(rs, DesiredInstances(spec, status), Increment(spec))
  }

  lemma StepAsIntended(rs: seq<Release>, spec: TargetSpec, status: TargetStatus, now: int)
    requires Ungated(rs, spec, status, now)
    ensures var out := Step(rs, spec, status, now).releases;
      var plan := PlanOf(rs, spec, status);
      && |out| == |rs|
      && forall i :: 0 <= i < |rs| ==>
        out[i] == Intended(rs[i], i, plan, DesiredInstances(spec, status), ReadinessTimeout(spec), now)
  {
    hide Intended, NewStatus, MakePlan, AnyLingers, DesiredInstances, ReadinessTimeout, Repair, ShiftAll, Gated,
      FirstDeployable;
    PlacedAsIntended(
      rs, PlanOf(rs, spec, status), DesiredInstances(spec, status), ReadinessTimeout(spec), now);
  }

  // ---------- Traffic ----------

  /** Every un-gated reconcile leaves the shares totalling exactly 100, from any roles, shares and statuses. */
  lemma TrafficTotals100(rs: seq<Release>, spec: TargetSpec, status: TargetStatus, now: int)
    requires Ungated(rs, spec, status, now)
    ensures Total(Step(rs, spec, status, now).releases) == 100
  {
    hide NewStatus, MakePlan, AnyLingers, DesiredInstances, ReadinessTimeout, Repair, ShiftAll, Gated,
      FirstDeployable;
    Conservation(rs, PlanOf(rs, spec, status), DesiredInstances(spec, status), ReadinessTimeout(spec), now);
  }

  ghost predicate AllShares(rs: seq<Release>) {
    forall i :: 0 <= i < |rs| ==> 0 <= rs[i].traffic <= 100
  }

  /**
    A share can leave 0..100 only while another release stays active, and then exactly when the target's
    share was negative by more than one increment or its available pods count as negative.
   */
  lemma SharesInRange(rs: seq<Release>, spec: TargetSpec, status: TargetStatus, now: int)
    requires Ungated(rs, spec, status, now)
    ensures var plan := PlanOf(rs, spec, status);
      var d := DesiredInstances(spec, status);
      var t := rs[plan.target];
      AllShares(Step(rs, spec, status, now).releases) <==>
        (plan.active != plan.target ==>
          AvailablePercent(t.status.available, d) >= 0 && t.traffic >= -Increment(spec))
  {
    hide Step, Gated, DesiredInstances, ReadinessTimeout, Lingers, ShrunkPods, CurrentTarget;
    StepAsIntended(rs, spec, status, now);
    var plan, d := PlanOf(rs, spec, status), DesiredInstances(spec, status);
    var out := Step(rs, spec, status, now).releases;
    assert out[plan.target].traffic == if plan.active == plan.target then 100 else plan.share;
    if plan.active != plan.target {
      PercentAtMost100(rs[plan.target].status.available, d);
    }
  }

  lemma PercentAtMost100(available: int, d: int)
    requires d != 0
    ensures AvailablePercent(available, d) <= 100
    ensures d > 0 && available >= 0 ==> AvailablePercent(available, d) >= 0
    ensures d > 0 && available >= 0 ==> AvailablePercent(available, d) * d <= 100 * available
    ensures d > 0 ==> (AvailablePercent(available, d) >= 100 <==> available >= d)
  {
    if d > 0 && 0 <= available <= d {
      DivisionBounds(available * 100, d);
      QuotientAtMost(available * 100, d, 100);
    } else if d < 0 && available <= 0 {
      DivisionBounds(-available * 100, -d);
      QuotientAtMost(-available * 100, -d, 100);
    }
  }

  lemma DivisionBounds(n: int, d: int)
    requires n >= 0 && d > 0
    ensures 0 <= n / d && n / d * d <= n < (n / d + 1) * d
  {
  }

  lemma QuotientAtMost(n: int, d: int, k: int)
    requires n >= 0 && d > 0
    ensures n <= k * d ==> n / d <= k
    ensures n >= k * d ==> n / d >= k
  {
    DivisionBounds(n, d);
  }

  // ---------- Roles ----------

  /** Exactly one release is active, the target role exists iff the target is not the active release, the
      target label is on the target alone, and bad releases stay bad and lose traffic and pods. */
  ghost predicate Disciplined(rs: seq<Release>, active: int, target: int) {
    && 0 <= target <= active < |rs|
    && target == FirstDeployable(rs)
    && (forall i :: 0 <= i < |rs| ==> (rs[i].role == Active <==> i == active))
    && (forall i :: 0 <= i < |rs| ==> (rs[i].role == Target <==> i == target && target != active))
    && (forall i :: 0 <= i < |rs| ==> (rs[i].marked <==> i == target))
    && (forall i :: 0 <= i < |rs| && rs[i].role == Bad ==> rs[i].traffic == 0 && rs[i].desired == 0)
  }

  /** A release being moved towards is newer than any active one. */
  ghost predicate TargetBeforeActive(rs: seq<Release>) {
    forall i, j :: 0 <= i < |rs| && 0 <= j < |rs| && rs[i].role == Target && rs[j].role == Active ==> i < j
  }

  /** The release the reconcile makes (or leaves) active: the target takes over when nothing runs, when
      nothing is active, or once it has all traffic; otherwise the active release stays. */
  function NextActive(rs: seq<Release>, spec: TargetSpec, status: TargetStatus): int {
    var t, a := FirstDeployable(rs), LastWithRole(rs, Active);
    if t >= 0 && (DesiredInstances(spec, status) == 0 || a < 0 || rs[t].traffic == 100) then t else a
  }

  lemma PlanActive(rs: seq<Release>, spec: TargetSpec, status: TargetStatus)
    requires FirstDeployable(rs) >= 0
    ensures var plan := PlanOf(rs, spec, status);
      && plan.active == NextActive(rs, spec, status)
      && plan.target <= plan.active
      && (plan.active != plan.target ==> rs[plan.active].role == Active)
      && plan.ramping == (plan.active != plan.target)
  {
    hide DesiredInstances, RampPods, RampShare, Increment;
  }

  /** Each release's new role, label and idleness. */
  lemma RoleOfEach(rs: seq<Release>, spec: TargetSpec, status: TargetStatus, now: int)
    requires Ungated(rs, spec, status, now)
    ensures var out := Step(rs, spec, status, now).releases;
      var a, t := NextActive(rs, spec, status), FirstDeployable(rs);
      && |out| == |rs| && 0 <= t <= a < |rs|
      && forall i :: 0 <= i < |rs| ==>
        && out[i].role == (if i == a then Active else if i == t then Target else if rs[i].role == Bad then Bad else NoRole)
        && out[i].marked == (i == t)
        && (out[i].role == Bad ==> out[i].traffic == 0 && out[i].desired == 0)
  {
    hide Step, Gated, DesiredInstances, ReadinessTimeout, Aged, ShrunkPods, MakePlan, NextActive, FirstDeployable;
    StepAsIntended(rs, spec, status, now);
    PlanActive(rs, spec, status);
  }

  lemma SameBadSameFirst(rs: seq<Release>, out: seq<Release>)
    requires |out| == |rs| && forall i :: 0 <= i < |rs| ==> (out[i].role == Bad <==> rs[i].role == Bad)
    ensures FirstDeployable(out) == FirstDeployable(rs)
  {
    var k := FirstDeployable(rs);
    assert k >= 0 ==> out[k].role != Bad;
  }

  /** The chosen releases were not bad. */
  lemma ChosenAreGood(rs: seq<Release>, spec: TargetSpec, status: TargetStatus)
    requires FirstDeployable(rs) >= 0
    ensures var a, t := NextActive(rs, spec, status), FirstDeployable(rs);
      0 <= a < |rs| && rs[a].role != Bad && rs[t].role != Bad
  {
    hide DesiredInstances;
  }

  /** Role discipline, from any prior roles. */
  lemma RoleDiscipline(rs: seq<Release>, spec: TargetSpec, status: TargetStatus, now: int)
    requires Ungated(rs, spec, status, now)
    ensures var out := Step(rs, spec, status, now).releases;
      && Disciplined(out, NextActive(rs, spec, status), FirstDeployable(rs))
      && forall i :: 0 <= i < |rs| ==> (out[i].role == Bad <==> rs[i].role == Bad)
  {
    hide Step, Gated, NextActive, FirstDeployable;
    RoleOfEach(rs, spec, status, now);
    ChosenAreGood(rs, spec, status);
    SameBadSameFirst(rs, Step(rs, spec, status, now).releases);
  }

  /** No reconcile, gated or not, clears a bad role or gives a bad release more traffic. */
  lemma BadStaysDown(rs: seq<Release>, spec: TargetSpec, status: TargetStatus, now: int, i: nat)
    requires i < |rs| && rs[i].role == Bad && rs[i].traffic >= 0
    ensures var out := Step(rs, spec, status, now).releases;
      |out| == |rs| && out[i].role == Bad && 0 <= out[i].traffic <= rs[i].traffic
  {
    hide Advance, Disciplined, NextActive, ReadinessTimeout;
    if Ungated(rs, spec, status, now) {
      StepAsIntended(rs, spec, status, now);
      RoleDiscipline(rs, spec, status, now);
      assert Disciplined(Step(rs, spec, status, now).releases, NextActive(rs, spec, status), FirstDeployable(rs));
    }
  }

  // ---------- Capacity ----------

  /**
    While a ramp goes on, the target's available pods and the pods asked of the active release cover the
    demand exactly when the target's pods covered its old share (or the active share is worth less than
    one pod, which the code rounds up).
   */
  lemma CapacityCovered(d: int, available: int, share: int)
    requires d > 0 && 0 <= share < 100
    ensures available + ShrunkPods(d, 100 - share) >= d <==>
      (100 * available >= d * share || (d * (100 - share) < 100 && available >= d - 1))
  {
    var n := d * (100 - share);
    assert n == 100 * d - d * share;
    assert n > 0;
  }

  /** The same releases, with anything the release controller may have reported in between. */
  ghost predicate SameSpecs(rs: seq<Release>, ss: seq<Release>) {
    && |rs| == |ss|
    && forall i :: 0 <= i < |rs| ==> ss[i] == rs[i].(status := ss[i].status)
  }

  lemma SameRoles(rs: seq<Release>, ss: seq<Release>)
    requires SameSpecs(rs, ss)
    ensures FirstDeployable(rs) == FirstDeployable(ss)
    ensures forall role :: LastWithRole(rs, role) == LastWithRole(ss, role)
    ensures CurrentTarget(rs) == CurrentTarget(ss)
    ensures Total(rs) == Total(ss)
  {
    forall role ensures LastWithRole(rs, role) == LastWithRole(ss, role) {
      var k := LastWithRole(rs, role);
      assert k >= 0 ==> ss[k].role == role;
    }
    var k := FirstDeployable(rs);
    assert k >= 0 ==> ss[k].role != Bad;
    SameTotals(rs, ss);
  }

  /** A reconcile that ramps on: another release stays active and pods are wanted. */
  predicate RampsOn(rs: seq<Release>, spec: TargetSpec, status: TargetStatus, now: int) {
    && Ungated(rs, spec, status, now)
    && DesiredInstances(spec, status) > 0
    && NextActive(rs, spec, status) != FirstDeployable(rs)
  }

  /** The balance of a reconcile that ramps on from shares totalling 100. */
  lemma CapacityInRamp(rs: seq<Release>, spec: TargetSpec, status: TargetStatus, now: int)
    requires RampsOn(rs, spec, status, now)
    requires 0 <= rs[FirstDeployable(rs)].traffic <= 100
    requires rs[NextActive(rs, spec, status)].traffic == 100 - rs[FirstDeployable(rs)].traffic
    ensures var d, t, a := DesiredInstances(spec, status), FirstDeployable(rs), NextActive(rs, spec, status);
      var available, share := rs[t].status.available, rs[t].traffic;
      available + Step(rs, spec, status, now).releases[a].desired >= d <==>
        (100 * available >= d * share || (d * (100 - share) < 100 && available >= d - 1))
  {
    hide Step, Gated, DesiredInstances, ReadinessTimeout, Lingers, ShrunkPods, MakePlan, FirstDeployable,
      RampPods, RampShare, LastWithRole;
    PlanActive(rs, spec, status);
    StepAsIntended(rs, spec, status, now);
    var t := FirstDeployable(rs);
    CapacityCovered(DesiredInstances(spec, status), rs[t].status.available, rs[t].traffic);
  }

  /**
    No capacity dip: take an un-gated reconcile, any status reports, and a second un-gated reconcile that
    ramps on. The target's available pods plus the pods newly asked of the active release cover the
    demand exactly when the target's pods covered the share it had.
   */
  lemma NoCapacityDip(
    rs: seq<Release>, spec: TargetSpec, status: TargetStatus, now: int,
    ss: seq<Release>, spec2: TargetSpec, status2: TargetStatus, now2: int)
    requires Ungated(rs, spec, status, now)
    requires SameSpecs(Step(rs, spec, status, now).releases, ss) && AllShares(ss)
    requires RampsOn(ss, spec2, status2, now2)
    ensures var d, t, a := DesiredInstances(spec2, status2), FirstDeployable(ss), LastWithRole(ss, Active);
      var available, share := ss[t].status.available, ss[t].traffic;
      && a >= 0
      && (available + Step(ss, spec2, status2, now2).releases[a].desired >= d <==>
          (100 * available >= d * share || (d * (100 - share) < 100 && available >= d - 1)))
  {
    hide Step, Gated, DesiredInstances, ReadinessTimeout, Lingers, ShrunkPods, MakePlan, Disciplined, FirstDeployable,
      RampPods, RampShare, LastWithRole, CurrentTarget;
    var mid := Step(rs, spec, status, now).releases;
    RoleDiscipline(rs, spec, status, now);
    TrafficTotals100(rs, spec, status, now);
    SameRoles(mid, ss);
    OthersIdle(rs, spec, status, now);
    ActiveOfDisciplined(mid, NextActive(rs, spec, status), FirstDeployable(rs));
    TotalOfTwo(mid, LastWithRole(ss, Active), FirstDeployable(ss));
    CapacityInRamp(ss, spec2, status2, now2);
  }

  lemma ActiveOfDisciplined(rs: seq<Release>, active: int, target: int)
    requires Disciplined(rs, active, target)
    ensures LastWithRole(rs, Active) == active && CurrentTarget(rs) == target == FirstDeployable(rs)
    ensures LastWithRole(rs, Target) == if active == target then -1 else target
  {
    assert rs[active].role == Active;
    assert target != active ==> rs[target].role == Target;
  }

  /** After an un-gated reconcile only the active release and the target can have traffic. */
  lemma OthersIdle(rs: seq<Release>, spec: TargetSpec, status: TargetStatus, now: int)
    requires Ungated(rs, spec, status, now)
    ensures var out := Step(rs, spec, status, now).releases;
      && |out| == |rs|
      && forall i :: 0 <= i < |rs| && i != NextActive(rs, spec, status) && i != FirstDeployable(rs) ==> out[i].traffic == 0
  {
    hide Step, Gated, DesiredInstances, ReadinessTimeout, Lingers, ShrunkPods, MakePlan, NextActive;
    StepAsIntended(rs, spec, status, now);
    PlanActive(rs, spec, status);
  }

  /** The share a ramp gives the target is backed by available pods. */
  lemma ShareIsBacked(rs: seq<Release>, spec: TargetSpec, status: TargetStatus, now: int)
    requires Ungated(rs, spec, status, now)
    requires NextActive(rs, spec, status) != FirstDeployable(rs)
    requires DesiredInstances(spec, status) > 0
    ensures var t := FirstDeployable(rs);
      rs[t].status.available >= 0 ==>
        Step(rs, spec, status, now).releases[t].traffic * DesiredInstances(spec, status)
          <= 100 * rs[t].status.available
  {
    hide Step, Gated, DesiredInstances, ReadinessTimeout, Lingers, ShrunkPods, AvailablePercent;
    StepAsIntended(rs, spec, status, now);
    PlanActive(rs, spec, status);
    var t, d := FirstDeployable(rs), DesiredInstances(spec, status);
    if rs[t].status.available >= 0 {
      PercentAtMost100(rs[t].status.available, d);
      ProductMonotone(PlanOf(rs, spec, status).share, AvailablePercent(rs[t].status.available, d), d);
    }
  }

  lemma ProductMonotone(x: int, y: int, d: int)
    requires x <= y && d >= 0
    ensures x * d <= y * d
  {
  }

  lemma IncrementIsPositive(d: int, increment: int)
    ensures PodIncrement(d, increment) >= 1
  {
  }

  // ---------- Rest ----------

  /** Nothing is left to do: the newest good release is active with all traffic, the wanted pods and the
      label, and all others are idle. */
  ghost predicate Settled(rs: seq<Release>, d: int) {
    var t := FirstDeployable(rs);
    && t >= 0
    && rs[t].role == Active && rs[t].traffic == 100 && rs[t].desired == d && rs[t].marked
    && forall i :: 0 <= i < |rs| && i != t ==>
      rs[i].role in {NoRole, Bad} && rs[i].traffic == 0 && rs[i].desired == 0 && !rs[i].marked
  }

  /** Fixed point: a reconcile of a settled target changes no release and keeps the change time. */
  lemma SettledIsFixed(rs: seq<Release>, spec: TargetSpec, status: TargetStatus, now: int)
    requires Settled(rs, DesiredInstances(spec, status))
    ensures Ungated(rs, spec, status, now)
    ensures Step(rs, spec, status, now).releases == rs
    ensures status.deployUpdatedAt != Never ==>
      Step(rs, spec, status, now).status.deployUpdatedAt == status.deployUpdatedAt
  {
    hide DesiredInstances, ReadinessTimeout, Aged, Increment, RampPods, RampShare, ShrunkPods, ShiftAll, Repair;
    var t := FirstDeployable(rs);
    assert LastWithRole(rs, Active) == t;
    assert LastWithRole(rs, Target) < 0;
    StepAsIntended(rs, spec, status, now);
  }

  /** The releases the save loop writes: unsaved ones and those the reconcile changed. */
  function Written(before: seq<Release>, after: seq<Release>): set<nat>
    requires |before| == |after|
  {
    set i: nat | i < |after| && (after[i].meta.created == Never || after[i] != before[i])
  }

  lemma SettledWritesNothing(rs: seq<Release>, spec: TargetSpec, status: TargetStatus, now: int)
    requires Settled(rs, DesiredInstances(spec, status))
    requires forall i :: 0 <= i < |rs| ==> rs[i].meta.created != Never
    ensures Written(rs, Step(rs, spec, status, now).releases) == {}
  {
    hide Step, Settled;
    SettledIsFixed(rs, spec, status, now);
  }

  /** A reconcile whose target is (or comes up as) the active release settles everything, once the other
      releases have been out of use for longer than the timeout. */
  lemma SettlesOnceDrained(rs: seq<Release>, spec: TargetSpec, status: TargetStatus, now: int)
    requires Ungated(rs, spec, status, now)
    requires var a := LastWithRole(rs, Active);
      DesiredInstances(spec, status) == 0 || a < 0 || a == FirstDeployable(rs)
    requires forall i :: 0 <= i < |rs| && i != FirstDeployable(rs) && rs[i].role != Bad ==>
      rs[i].role != Active && Aged(now, rs[i].status.changedAt, ReadinessTimeout(spec))
    ensures Settled(Step(rs, spec, status, now).releases, DesiredInstances(spec, status))
  {
    hide Step, Gated, DesiredInstances, ReadinessTimeout, Aged, ShrunkPods, RampPods, RampShare, Increment;
    StepAsIntended(rs, spec, status, now);
    var t := FirstDeployable(rs);
    var out := Step(rs, spec, status, now).releases;
    assert FirstDeployable(out) == t by {
      assert out[t].role == Active;
      assert forall j :: 0 <= j < t ==> out[j].role == Bad;
    }
  }

  /**
    Halting ends: after one un-gated reconcile in halt mode the next is never gated, keeps the traffic
    totalling 100, and leaves no pods anywhere exactly when the change times of the other releases that
    still want pods are older than the timeout; bad releases lose theirs at once.
   */
  lemma HaltDrains(
    rs: seq<Release>, spec: TargetSpec, status: TargetStatus, now: int,
    ss: seq<Release>, spec2: TargetSpec, status2: TargetStatus, now2: int)
    requires Ungated(rs, spec, status, now) && spec.mode == Halt
    requires SameSpecs(Step(rs, spec, status, now).releases, ss) && spec2.mode == Halt
    ensures Ungated(ss, spec2, status2, now2)
    ensures var out := Step(ss, spec2, status2, now2).releases;
      && Total(out) == 100 && |out| == |ss|
      && ((forall i :: 0 <= i < |out| ==> out[i].desired == 0) <==>
        forall i :: 0 <= i < |ss| && i != FirstDeployable(ss) && ss[i].role != Bad && ss[i].desired != 0 ==>
          Aged(now2, ss[i].status.changedAt, ReadinessTimeout(spec2)))
  {
    hide Step, ReadinessTimeout, Aged, Disciplined;
    var mid := Step(rs, spec, status, now).releases;
    var t := FirstDeployable(rs);
    RoleDiscipline(rs, spec, status, now);
    assert NextActive(rs, spec, status) == t;
    ActiveOfDisciplined(mid, t, t);
    SameRoles(mid, ss);
    TrafficTotals100(ss, spec2, status2, now2);
    OnlyActive(mid, ss, t);
    HaltedPods(ss, spec2, status2, now2);
  }

  /** What a reconcile in halt mode leaves each release when no other than the target is active. */
  lemma HaltedPods(rs: seq<Release>, spec: TargetSpec, status: TargetStatus, now: int)
    requires Ungated(rs, spec, status, now) && spec.mode == Halt
    requires forall i :: 0 <= i < |rs| && i != FirstDeployable(rs) ==> rs[i].role != Active
    ensures var out := Step(rs, spec, status, now).releases;
      |out| == |rs| &&
      forall i :: 0 <= i < |rs| ==>
        var emptied :=
          i == FirstDeployable(rs) || rs[i].role == Bad || Aged(now, rs[i].status.changedAt, ReadinessTimeout(spec));
        out[i].desired == if emptied then 0 else rs[i].desired
  {
    hide Step, Gated, ReadinessTimeout, Aged, ShrunkPods, RampPods, RampShare, Increment, FirstDeployable;
    StepAsIntended(rs, spec, status, now);
  }

  lemma OnlyActive(mid: seq<Release>, ss: seq<Release>, t: int)
    requires Disciplined(mid, t, t) && SameSpecs(mid, ss)
    ensures forall i :: 0 <= i < |ss| && i != t ==> ss[i].role != Active
  {
  }

  // ---------- Waking up ----------

  /** A reconcile that asks not to be called back has nothing pending: the target is active and no other
      release keeps pods. */
  lemma NoLostWakeup(rs: seq<Release>, spec: TargetSpec, status: TargetStatus, now: int)
    requires Ungated(rs, spec, status, now)
    ensures var o := Step(rs, spec, status, now);
      var t := FirstDeployable(rs);
      o.requeue == None <==>
        NextActive(rs, spec, status) == t
        && forall i :: 0 <= i < |rs| && i != t ==> !Lingers(rs[i], ReadinessTimeout(spec), now)
    ensures var o := Step(rs, spec, status, now);
      o.requeue == None ==> forall i :: 0 <= i < |rs| && i != FirstDeployable(rs) ==> o.releases[i].desired == 0
  {
    hide Gated, DesiredInstances, ReadinessTimeout, Lingers, ShrunkPods, NextActive, MakePlan, FirstDeployable,
      Repair, ShiftAll, NewStatus;
    PlanActive(rs, spec, status);
    StepAsIntended(rs, spec, status, now);
  }

  /** A gated reconcile asks to be called back at the very moment the gate opens. */
  lemma GateOpensOnTime(rs: seq<Release>, spec: TargetSpec, status: TargetStatus, now: int, later: int)
    requires Gated(rs, spec, status, now) && now <= later
    ensures var o := Step(rs, spec, status, now);
      && o.releases == rs && o.status == status && o.requeue.Some?
      && (Gated(rs, spec, status, later) <==> later < now + o.requeue.value)
  {
    hide ReadinessTimeout, LastWithRole, CurrentTarget;
  }

  // ---------- Reported status ----------

  /** The demand is the known pod count held between the bounds, the upper one winning; nothing when halted. */
  lemma DemandIsClamped(spec: TargetSpec, status: TargetStatus)
    ensures var d := DesiredInstances(spec, status);
      if spec.mode == Halt then d == 0
      else
        && (spec.scaleMin >= spec.scaleMax || status.desired >= spec.scaleMax ==> d == spec.scaleMax)
        && (status.desired <= spec.scaleMin <= spec.scaleMax ==> d == spec.scaleMin)
        && (spec.scaleMin <= status.desired <= spec.scaleMax ==> d == status.desired)
  {
  }

  /** Probes with non-negative timeouts always leave at least a second between changes. */
  lemma TimeoutIsPositive(spec: TargetSpec)
    requires spec.readiness.Some? ==> spec.readiness.value.timeout >= 0
    ensures ReadinessTimeout(spec) >= SECOND
  {
  }

  /** The status names the active release and the target as the roles now say, reports a halt, and otherwise
      reports running exactly when no release is being moved towards and the target has its pods. */
  lemma StatusTellsRoles(rs: seq<Release>, spec: TargetSpec, status: TargetStatus, now: int)
    requires Ungated(rs, spec, status, now)
    ensures var o := Step(rs, spec, status, now);
      var a, t := LastWithRole(o.releases, Active), CurrentTarget(o.releases);
      && 0 <= t <= a < |o.releases| == |rs|
      && o.status.activeRelease == o.releases[a].meta.name
      && o.status.targetRelease == o.releases[t].meta.name
      && (o.status.phase == HaltedPhase <==> spec.mode == Halt)
      && (o.status.phase == Running <==>
        spec.mode == Latest && LastWithRole(o.releases, Target) < 0
        && o.releases[t].status.available >= o.releases[t].desired)
      && (a != t ==> o.status.desired == status.desired)
  {
    hide Gated, DesiredInstances, ReadinessTimeout, Lingers, ShrunkPods, MakePlan, NextActive, FirstDeployable,
      Repair, ShiftAll, AnyLingers, LastWithRole, CurrentTarget;
    StepAsIntended(rs, spec, status, now);
    PlanActive(rs, spec, status);
    RoleDiscipline(rs, spec, status, now);
    ActiveOfDisciplined(
      Step(rs, spec, status, now).releases, NextActive(rs, spec, status), FirstDeployable(rs));
  }
}
