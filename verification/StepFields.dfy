/**
  What an un-gated reconcile leaves in each field, in numbers: pods, shares, the target's status and the
  delay until the next look.
 */
module StepFields {
  import opened Model
  import opened Rollout
  import opened StepLaws

  // ---------- Numbers ----------

  /** `q` is `n / k` without its fraction. */
  ghost predicate Quotient(q: int, n: int, k: int) {
    k * q <= n < k * (q + 1)
  }

  /** What a ramp step may add, in percent: a quarter for an app with ports, everything for one without. */
  function RampPercent(spec: TargetSpec): int {
    if |spec.ports| > 0 then 25 else 100
  }

  /** `m` is that part of `d` pods without its fraction, but at least one pod. */
  ghost predicate PodStep(m: int, d: int, spec: TargetSpec) {
    m >= 1 && d * RampPercent(spec) < 100 * (m + 1) && (m == 1 || 100 * m <= d * RampPercent(spec))
  }

  /** `p` percent of `d` pods are available: a hundred when all are, without a fraction otherwise. */
  ghost predicate UpPercent(p: int, available: int, d: int) {
    if available >= d then p == 100 else Quotient(p, available * 100, d)
  }

  lemma PodStepIs(d: int, spec: TargetSpec)
    requires d > 0
    ensures PodStep(PodIncrement(d, Increment(spec)), d, spec)
  {
  }

  /** Conversion drops the fraction, towards zero. */
  lemma TruncateDropsFraction(num: int, den: int)
    requires den > 0
    ensures num >= 0 ==> Quotient(Truncate(num, den), num, den)
    ensures Truncate(-num, den) == -Truncate(num, den) == Truncate(num, -den)
  {
    if num >= 0 {
      DivisionBounds(num, den);
    }
  }

  /** There is only one such number. */
  lemma PodStepIsUnique(m: int, n: int, d: int, spec: TargetSpec)
    requires PodStep(m, d, spec) && PodStep(n, d, spec)
    ensures m == n
  {
  }

  lemma UpPercentIs(available: int, d: int)
    requires d > 0 && available >= 0
    ensures UpPercent(AvailablePercent(available, d), available, d)
  {
    if available < d {
      DivisionBounds(available * 100, d);
    } else if available == d {
      QuotientAtMost(available * 100, d, 100);
    }
  }

  lemma ShrunkPodsAre(d: int, traffic: int)
    requires d > 0 && traffic >= 0
    ensures exists q :: Quotient(q, d * traffic, 100) && ShrunkPods(d, traffic) == if q == 0 && traffic != 0 then 1 else q
  {
    DivisionBounds(d * traffic, 100);
    assert d * traffic >= 0;
    assert Quotient(d * traffic / 100, d * traffic, 100);
  }

  // ---------- Gate and roles ----------

  /**
    When a reconcile goes ahead: unless some release is active and another one has the target role, and the last
    change was less than a timeout ago; or all releases are bad. Otherwise it changes nothing, and asks to be
    called back only in the first case, at the end of the timeout.
   */
  lemma GateOfStep(rs: seq<Release>, spec: TargetSpec, status: TargetStatus, now: int)
    ensures var waits :=
        && (exists i :: 0 <= i < |rs| && rs[i].role == Active) && (exists i :: 0 <= i < |rs| && rs[i].role == Target)
        && status.deployUpdatedAt.At? && now - status.deployUpdatedAt.time < ReadinessTimeout(spec);
      var o := Step(rs, spec, status, now);
      && (Ungated(rs, spec, status, now) <==> !waits && exists i :: 0 <= i < |rs| && rs[i].role != Bad)
      && (!Ungated(rs, spec, status, now) ==> o.releases == rs && o.status == status)
      && (waits ==> o.requeue == Some(status.deployUpdatedAt.time + ReadinessTimeout(spec) - now))
      && (!waits && !Ungated(rs, spec, status, now) ==> o.requeue == None)
  {
    hide Advance, ReadinessTimeout, LastWithRole, FirstDeployable;
    var a, g := LastWithRole(rs, Active), LastWithRole(rs, Target);
    assert a >= 0 ==> rs[a].role == Active;
    assert g >= 0 ==> rs[g].role == Target;
    assert FirstDeployable(rs) >= 0 ==> rs[FirstDeployable(rs)].role != Bad;
  }

  /**
    Roles and label: the target becomes active when no pods are wanted, no release is active, or it has all the
    traffic; otherwise the release that was active last on the list stays so, and the target has the target role
    unless it is the same. No other release keeps a role, unless it is bad, and only the target is labelled.
   */
  lemma RolesOfStep(rs: seq<Release>, spec: TargetSpec, status: TargetStatus, now: int)
    requires Ungated(rs, spec, status, now)
    ensures var out := Step(rs, spec, status, now).releases;
      var t, was := FirstDeployable(rs), LastWithRole(rs, Active);
      var a := if DesiredInstances(spec, status) == 0 || was < 0 || rs[t].traffic == 100 then t else was;
      && |out| == |rs| && 0 <= t <= a && NextActive(rs, spec, status) == a
      && forall i :: 0 <= i < |rs| ==>
        && (out[i].role == Active <==> i == a)
        && (out[i].role == Target <==> i == t && t != a)
        && (out[i].role == Bad <==> rs[i].role == Bad)
        && (out[i].marked <==> i == t)
        && out[i].meta == rs[i].meta && out[i].status == rs[i].status
  {
    hide Step, Gated, DesiredInstances, FirstDeployable, LastWithRole, Intended;
    RoleOfEach(rs, spec, status, now);
    RoleDiscipline(rs, spec, status, now);
    KeepsIdentity(rs, spec, status, now);
  }

  lemma KeepsIdentity(rs: seq<Release>, spec: TargetSpec, status: TargetStatus, now: int)
    requires Ungated(rs, spec, status, now)
    ensures var out := Step(rs, spec, status, now).releases;
      |out| == |rs| && forall i :: 0 <= i < |rs| ==> out[i].meta == rs[i].meta && out[i].status == rs[i].status
  {
    hide Advance, Gated, FirstDeployable;
    AdvanceKeeps(rs, spec, status, now);
  }

  // ---------- Pods ----------

  /** Another release than the newest good one is active before the reconcile, and pods are wanted. */
  predicate Replacing(rs: seq<Release>, spec: TargetSpec, status: TargetStatus) {
    DesiredInstances(spec, status) > 0 && LastWithRole(rs, Active) >= 0 && LastWithRole(rs, Active) != FirstDeployable(rs)
  }

  /**
    The target's pods: none when none are wanted; all at once when nothing else is active; and beside another
    active release, in the reconcile that takes over from it as well, no fewer than before, and more only up
    to one step above those available.
   */
  lemma TargetPods(rs: seq<Release>, spec: TargetSpec, status: TargetStatus, now: int)
    requires Ungated(rs, spec, status, now)
    ensures var out := Step(rs, spec, status, now).releases;
      var t, d := FirstDeployable(rs), DesiredInstances(spec, status);
      && |out| == |rs|
      && (LastWithRole(rs, Active) < 0 || LastWithRole(rs, Active) == t || d == 0 ==> out[t].desired == d)
      && (Replacing(rs, spec, status) ==>
        exists m :: PodStep(m, d, spec) && out[t].desired == RaisedTo(rs[t].desired, rs[t].status.available + m, d))
  {
    hide Step, Gated, DesiredInstances, Lingers, ShrunkPods, RampShare, PodIncrement, Increment, FirstDeployable,
      LastWithRole, PodStep;
    StepAsIntended(rs, spec, status, now);
    var d := DesiredInstances(spec, status);
    if Replacing(rs, spec, status) {
      PodStepIs(d, spec);
      assert PodStep(PodIncrement(d, Increment(spec)), d, spec);
    }
  }

  /** The larger of `old` and the smaller of `wanted` and `most`. */
  function RaisedTo(before: int, wanted: int, most: int): (pods: int)
    ensures pods >= before && pods in {before, wanted, most}
    ensures pods > before ==> pods <= wanted && pods <= most
    ensures pods >= wanted || pods >= most
  {
    if wanted <= before || most <= before then before else if wanted < most then wanted else most
  }

  /** No new pods while earlier ones are not up: a target gets more only when those it has been asked for are
      available but for less than one step. */
  lemma NoPodsOnStalled(rs: seq<Release>, spec: TargetSpec, status: TargetStatus, now: int, m: int)
    requires Ungated(rs, spec, status, now) && Replacing(rs, spec, status)
    requires PodStep(m, DesiredInstances(spec, status), spec)
    ensures var out := Step(rs, spec, status, now).releases;
      var t := FirstDeployable(rs);
      && |out| == |rs| && out[t].desired >= rs[t].desired
      && (out[t].desired > rs[t].desired ==>
        && out[t].desired <= rs[t].status.available + m && out[t].desired <= DesiredInstances(spec, status)
        && rs[t].desired < rs[t].status.available + m)
  {
    hide Step, Ungated, DesiredInstances, PodStep, FirstDeployable, LastWithRole;
    TargetPods(rs, spec, status, now);
    forall n | PodStep(n, DesiredInstances(spec, status), spec) ensures n == m {
      PodStepIsUnique(m, n, DesiredInstances(spec, status), spec);
    }
  }

  /**
    The pods of every other release: an active one that the target has not replaced keeps its old share of
    the demand, rounded down but at least one pod while it had traffic; a bad one keeps none; and the rest keep
    what they have exactly while they were active or changed state no longer than a timeout ago.
   */
  lemma PodsOfOthers(rs: seq<Release>, spec: TargetSpec, status: TargetStatus, now: int, i: nat)
    requires Ungated(rs, spec, status, now) && i < |rs| && i != FirstDeployable(rs)
    ensures var out := Step(rs, spec, status, now).releases;
      var r := rs[i];
      var d := DesiredInstances(spec, status);
      && |out| == |rs|
      && (if i == NextActive(rs, spec, status) then
            d > 0 && r.traffic >= 0 ==>
              exists q :: Quotient(q, d * r.traffic, 100) && out[i].desired == if q == 0 && r.traffic != 0 then 1 else q
          else
            var kept := r.role == Active
              || (r.role != Bad && r.status.changedAt.At? && now - r.status.changedAt.time <= ReadinessTimeout(spec));
            out[i].desired == if kept then r.desired else 0)
  {
    hide Step, Gated, DesiredInstances, ReadinessTimeout, ShrunkPods, MakePlan, FirstDeployable, NextActive, Quotient;
    StepAsIntended(rs, spec, status, now);
    PlanActive(rs, spec, status);
    if DesiredInstances(spec, status) > 0 && rs[i].traffic >= 0 {
      ShrunkPodsAre(DesiredInstances(spec, status), rs[i].traffic);
    }
  }

  // ---------- Shares ----------

  /**
    The shares: all traffic for a target that is active next; otherwise the percentage of its pods that are
    available, but at most one step more than before, and the rest for the active release.
   */
  lemma SharesOfStep(rs: seq<Release>, spec: TargetSpec, status: TargetStatus, now: int)
    requires Ungated(rs, spec, status, now)
    ensures var out := Step(rs, spec, status, now).releases;
      var t, a, d := FirstDeployable(rs), NextActive(rs, spec, status), DesiredInstances(spec, status);
      && |out| == |rs| && 0 <= t <= a < |rs|
      && (forall i :: 0 <= i < |rs| && i != t && i != a ==> out[i].traffic == 0)
      && (a == t ==> out[t].traffic == 100)
      && (a != t ==> out[a].traffic == 100 - out[t].traffic)
      && (a != t && d > 0 && rs[t].status.available >= 0 ==>
        exists p :: UpPercent(p, rs[t].status.available, d) && out[t].traffic ==
          if p - rs[t].traffic > RampPercent(spec) then rs[t].traffic + RampPercent(spec) else p)
  {
    hide Step, Gated, DesiredInstances, ReadinessTimeout, Lingers, ShrunkPods, AvailablePercent, FirstDeployable, RampPods,
      UpPercent;
    StepAsIntended(rs, spec, status, now);
    PlanActive(rs, spec, status);
    var t, d := FirstDeployable(rs), DesiredInstances(spec, status);
    if d > 0 && rs[t].status.available >= 0 {
      UpPercentIs(rs[t].status.available, d);
      assert UpPercent(AvailablePercent(rs[t].status.available, d), rs[t].status.available, d);
    }
  }

  // ---------- Status and delay ----------

  /** The release being moved towards changes, the target takes over, or its pods are raised or dropped. */
  ghost predicate Changes(rs: seq<Release>, spec: TargetSpec, status: TargetStatus, pods: int) {
    var t, a, g := FirstDeployable(rs), LastWithRole(rs, Active), LastWithRole(rs, Target);
    || a < 0 || (if g >= 0 then g else a) != t
    || (DesiredInstances(spec, status) == 0 && t >= 0 && rs[t].desired != 0)
    || (DesiredInstances(spec, status) != 0 && a != t && t >= 0 && (rs[t].traffic == 100 || pods > rs[t].desired))
  }

  /**
    The status: the change time moves to now exactly when something changes or there was none; and the pod
    counts are those of the target, as soon as it is the saved active release, and the old ones otherwise.
   */
  lemma StatusOfStep(rs: seq<Release>, spec: TargetSpec, status: TargetStatus, now: int)
    requires Ungated(rs, spec, status, now)
    ensures var o := Step(rs, spec, status, now);
      var t, a := FirstDeployable(rs), NextActive(rs, spec, status);
      && |o.releases| == |rs|
      && o.status.deployUpdatedAt ==
        (if Changes(rs, spec, status, o.releases[t].desired) || status.deployUpdatedAt == Never then At(now)
         else status.deployUpdatedAt)
      && (if a == t && rs[t].meta.created != Never then
            && o.status.desired == rs[t].status.desired && o.status.ready == rs[t].status.ready
            && o.status.available == rs[t].status.available
          else
            && o.status.desired == status.desired && o.status.ready == status.ready
            && o.status.available == status.available)
  {
    hide Gated, DesiredInstances, ReadinessTimeout, Lingers, ShrunkPods, RampPods, RampShare, FirstDeployable, Increment,
      Repair, ShiftAll, AnyLingers, LastWithRole;
    StepAsIntended(rs, spec, status, now);
    PlanActive(rs, spec, status);
  }

  /** The delay of a reconcile that asks to be called back is one readiness timeout. */
  lemma DelayOfStep(rs: seq<Release>, spec: TargetSpec, status: TargetStatus, now: int)
    requires Ungated(rs, spec, status, now)
    ensures var o := Step(rs, spec, status, now);
      o.requeue.Some? ==> TimeoutOf(spec, o.requeue.value)
  {
    hide Gated, MakePlan, AnyLingers, FirstDeployable;
  }

  /** In seconds: the probe's initial delay if it has one, otherwise period and timeout together if it has a
      period, otherwise a minute. */
  ghost predicate TimeoutOf(spec: TargetSpec, timeout: int) {
    var second := 1_000_000_000;
    exists seconds :: timeout == seconds * second &&
      match spec.readiness
      case None => seconds == 60
      case Some(p) =>
        && (p.initialDelay > 0 ==> seconds == p.initialDelay)
        && (p.initialDelay <= 0 < p.period ==> seconds - p.timeout == p.period)
        && (p.initialDelay <= 0 && p.period <= 0 ==> seconds == 60)
  }

  lemma TimeoutIs(spec: TargetSpec)
    ensures TimeoutOf(spec, ReadinessTimeout(spec))
  {
    var second := 1_000_000_000;
    var seconds :=
      match spec.readiness
      case None => 60
      case Some(p) => if p.initialDelay > 0 then p.initialDelay else if p.period > 0 then p.period + p.timeout else 60;
    assert ReadinessTimeout(spec) == seconds * second;
  }
}
