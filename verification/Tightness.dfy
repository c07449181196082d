/**
  No rollout is faster than its increments allow, and some are exactly as slow as the convergence bound.
 */
module Tightness {
  import opened Model
  import opened Rollout
  import opened StepLaws
  import opened Selection
  import opened ReleaseController
  import opened Runs
  import opened RolloutRuns
  import opened Convergence

  // ---------- No faster ----------

  /** After `k` un-gated reconciles another release is still active, and `n` has at most `k` increments of
      pods and the share that one increment less of available pods can back. */
  ghost predicate Behind(w: World, n: string, k: nat, d: int, increment: int) {
    var t, a, m := FirstDeployable(w.releases), LastWithRole(w.releases, Active), PodIncrement(d, increment);
    && 0 <= t < a < RELEASES_TO_KEEP && w.releases[t].meta.name == n
    && Wanting(w.spec) && Increment(w.spec) == increment && DesiredInstances(w.spec, w.status) == d >= 1
    && w.releases[t].desired <= k * m
    && (if k == 0 then w.releases[t].traffic <= 0 else w.releases[t].traffic * d <= 100 * ((k - 1) * m))
  }

  /** No newer release, no rollback of `n` or of the active release, the same demand, and no more pods
      available than were asked for when a reconcile passes the gate. */
  ghost predicate Unaided(w: World, a: Action, n: string) {
    && Allowed(w, a)
    && match a
       case MarkBad(m) =>
         m != n && forall i :: 0 <= i < |w.releases| && w.releases[i].role == Active ==> w.releases[i].meta.name != m
       case Draft(_) => false
       case Edit(spec) =>
         Wanting(spec) && Increment(spec) == Increment(w.spec)
         && DesiredInstances(spec, w.status) == DesiredInstances(w.spec, w.status)
       case Deploy =>
         var t := FirstDeployable(w.releases);
         UngatedAt(w) ==> w.releases[t].status.available <= w.releases[t].desired
       case _ => true
  }

  /** The takeover cannot come with the next un-gated reconcile. */
  predicate TooEarly(k: nat, d: int, increment: int) {
    k == 0 || (k - 1) * PodIncrement(d, increment) < d
  }

  /** One ramp step, bounded from above. */
  lemma RampBounded(r: Release, d: int, k: nat, increment: int)
    requires d >= 1 && 0 <= r.status.available <= r.desired <= k * PodIncrement(d, increment)
    requires increment == 25 || increment == 100
    ensures r.desired <= RampPods(r, d, increment) <= (k + 1) * PodIncrement(d, increment)
    ensures RampShare(r, d, increment) * d <= 100 * (k * PodIncrement(d, increment))
  {
    hide PodIncrement, AvailablePercent;
    var m := PodIncrement(d, increment);
    assert (k + 1) * m == k * m + m;
    IncrementBounds(d, increment);
    PercentAtMost100(r.status.available, d);
    ProductMonotone(RampShare(r, d, increment), AvailablePercent(r.status.available, d), d);
  }

  /** A share that too few pods back is not a full one. */
  lemma BehindIsNotFull(traffic: int, d: int, k: nat, increment: int)
    requires d >= 1 && TooEarly(k, d, increment)
    requires if k == 0 then traffic <= 0 else traffic * d <= 100 * ((k - 1) * PodIncrement(d, increment))
    ensures traffic < 100
  {
    hide PodIncrement;
    if k > 0 {
      assert traffic * d < 100 * d;
      if traffic >= 100 {
        ProductMonotone(100, traffic, d);
      }
    }
  }

  lemma BehindDeploy(w: World, n: string, k: nat, d: int, increment: int)
    requires Orderly(w) && Behind(w, n, k, d, increment) && Unaided(w, Deploy, n)
    requires UngatedAt(w) ==> TooEarly(k, d, increment)
    ensures Behind(Next(w, Deploy), n, if UngatedAt(w) then k + 1 else k, d, increment)
    ensures FirstDeployable(Next(w, Deploy).releases) == FirstDeployable(w.releases)
    ensures var t := FirstDeployable(w.releases); Next(w, Deploy).releases[t].desired >= w.releases[t].desired
  {
    hide Advance, Survivors, NewestFirst, TargetBeforeActive, Ungated, FirstDeployable, DesiredInstances, RampPods,
      RampShare, PodIncrement, LastWithRole, CurrentTarget, Gated, TooEarly, Increment;
    var rs, out := w.releases, StepOf(w).releases;
    DeployKeeps(w);
    KeptRoles(out, Next(w, Deploy).releases, w.now);
    if UngatedAt(w) {
      var t := FirstDeployable(rs);
      BehindIsNotFull(rs[t].traffic, d, k, increment);
      RoleDiscipline(rs, w.spec, w.status, w.now);
      ActiveOfDisciplined(out, NextActive(rs, w.spec, w.status), t);
      RampGrowth(w);
      RampBounded(rs[t], d, k, increment);
      DemandIsFrozen(w);
    } else {
      StepChangesNothing(w);
    }
  }

  lemma BehindNext(w: World, a: Action, n: string, k: nat, d: int, increment: int)
    requires Orderly(w) && Behind(w, n, k, d, increment) && Unaided(w, a, n)
    requires a == Deploy && UngatedAt(w) ==> TooEarly(k, d, increment)
    ensures Behind(Next(w, a), n, if a == Deploy && UngatedAt(w) then k + 1 else k, d, increment)
  {
    hide StepOf, Survivors, Ungated, Orderly, SyncedStatus, MarkAll, FirstDeployable, LastWithRole, PodIncrement, TooEarly,
      DesiredInstances, Wanting, Increment;
    match a
    case Deploy => BehindDeploy(w, n, k, d, increment);
    case Sync(_, _, _, _) => SameRoles(w.releases, Next(w, a).releases);
    case MarkBad(m) => MarkSpares(w.releases, m);
    case Tick(_) =>
    case Edit(_) =>
  }

  /**
    No shortcut: without rollback, retargeting or extra pods, another release is still active after `c`
    un-gated reconciles whenever c - 2 pod increments fall short of the demand.
   */
  lemma {:induction false} NoEarlyTakeover(w: World, acts: seq<Action>, n: string, k: nat, d: int, increment: int)
    requires Orderly(w) && Behind(w, n, k, d, increment)
    requires Along(w, acts, (v, a) => Unaided(v, a, n))
    ensures var c := k + UngatedCount(w, acts);
      (c > k ==> TooEarly(c - 1, d, increment)) ==> Behind(Run(w, acts), n, c, d, increment)
    decreases |acts|
  {
    hide Orderly, Behind, Allowed, Next, UngatedAt, TooEarly;
    var c := k + UngatedCount(w, acts);
    if acts != [] && (c > k ==> TooEarly(c - 1, d, increment)) {
      var k' := if acts[0] == Deploy && UngatedAt(w) then k + 1 else k;
      if c > k {
        EarlierIsEarlier(k, c - 1, d, increment);
      }
      BehindNext(w, acts[0], n, k, d, increment);
      OrderlyNext(w, acts[0]);
      NoEarlyTakeover(Next(w, acts[0]), acts[1..], n, k', d, increment);
    }
  }

  lemma EarlierIsEarlier(j: nat, k: nat, d: int, increment: int)
    requires j <= k && TooEarly(k, d, increment)
    ensures TooEarly(j, d, increment)
  {
    hide PodIncrement;
    if j > 0 {
      assert PodIncrement(d, increment) >= 1 by { IncrementIsPositive(d, increment); }
      ProductMonotone(j - 1, k - 1, PodIncrement(d, increment));
    }
  }

  /** The demands for which the convergence bound leaves no slack: seven pods, and any for an app without ports. */
  predicate Slackless(d: int, increment: int) {
    d >= 1 && (increment == 100 || (increment == 25 && d == 7))
  }

  lemma OneStepShort(d: int, increment: int)
    requires d >= 1 && (increment == 25 || increment == 100)
    ensures TooEarly(StepsNeeded(increment) - 2, d, increment) <==> Slackless(d, increment)
  {
  }

  /** Nothing faster: for these demands another release is active through all un-gated reconciles but the
      last that the convergence bound allows for, in every such run. */
  lemma NoFasterThanBound(w: World, acts: seq<Action>, n: string, d: int, increment: int)
    requires Orderly(w) && Behind(w, n, 0, d, increment) && Slackless(d, increment)
    requires Along(w, acts, (v, a) => Unaided(v, a, n))
    requires UngatedCount(w, acts) < StepsNeeded(increment)
    ensures var v := Run(w, acts);
      LastWithRole(v.releases, Active) > FirstDeployable(v.releases) >= 0
  {
    hide Orderly, Run, UngatedCount, Along, FirstDeployable, LastWithRole, DesiredInstances, Increment, PodIncrement, TooEarly;
    var c := UngatedCount(w, acts);
    OneStepShort(d, increment);
    if c > 0 {
      EarlierIsEarlier(c - 1, StepsNeeded(increment) - 2, d, increment);
    }
    NoEarlyTakeover(w, acts, n, 0, d, increment);
  }

  // ---------- And there are such runs ----------

  /** Nothing is dated in the future, and the newest good release has a sensible pod count. */
  predicate Datable(w: World) {
    && (w.status.deployUpdatedAt.At? ==> w.status.deployUpdatedAt.time <= w.now)
    && (FirstDeployable(w.releases) >= 0 ==> w.releases[FirstDeployable(w.releases)].desired >= 0)
  }

  ghost predicate HelpingUnaided(w: World, a: Action, n: string) {
    Helping(w, a, n) && Unaided(w, a, n)
  }

  /** A full timeout goes by, and the release controller finds as many pods available as were asked for. */
  function Wait(w: World): Action {
    var timeout := ReadinessTimeout(w.spec);
    Tick(if timeout < 0 then 0 else timeout)
  }

  function AllUp(w: World): Action
    requires FirstDeployable(w.releases) >= 0
  {
    var r := w.releases[FirstDeployable(w.releases)];
    Sync(r.meta.name, Some(ReplicaSet(r.desired, r.desired, r.desired)), Pods(1, None), 0)
  }

  /** After that a reconcile passes the gate, with as many pods as asked for. */
  lemma ReadyToDeploy(w: World)
    requires FirstDeployable(w.releases) >= 0 && Datable(w)
    ensures var v := Next(Next(w, Wait(w)), AllUp(w));
      && Datable(v) && Allowed(Next(w, Wait(w)), AllUp(w))
      && FirstDeployable(v.releases) == FirstDeployable(w.releases)
      && v.releases[FirstDeployable(w.releases)].desired == w.releases[FirstDeployable(w.releases)].desired
      && v.releases[FirstDeployable(w.releases)].status.available == w.releases[FirstDeployable(w.releases)].desired
      && UngatedAt(v)
  {
    hide FirstDeployable, LastWithRole, CurrentTarget, ReadinessTimeout, GaveUp, Classify;
    var v := Next(Next(w, Wait(w)), AllUp(w));
    SameRoles(w.releases, v.releases);
  }

  lemma StillDatable(w: World, n: string, k: nat, d: int, increment: int)
    requires Orderly(w) && Datable(w) && UngatedAt(w) && Behind(w, n, k, d, increment) && Unaided(w, Deploy, n)
    requires TooEarly(k, d, increment)
    ensures Datable(Next(w, Deploy))
  {
    hide FirstDeployable, Orderly, Behind, Unaided, TooEarly, Gated, DesiredInstances, MakePlan, Survivors, Repair,
      ShiftAll, AnyLingers, ReadinessTimeout;
    BehindDeploy(w, n, k, d, increment);
  }

  lemma {:induction false} SlowRunFrom(w: World, n: string, k: nat, d: int, increment: int, rounds: nat)
    returns (acts: seq<Action>)
    requires Orderly(w) && Datable(w) && Behind(w, n, k, d, increment)
    requires rounds > 0 ==> TooEarly(k + rounds - 1, d, increment)
    ensures Along(w, acts, (v, a) => HelpingUnaided(v, a, n)) && UngatedCount(w, acts) == rounds
    decreases rounds
  {
    hide Orderly, Behind, Datable, Next, UngatedAt, TooEarly, HelpingUnaided;
    acts := [];
    if rounds > 0 {
      EarlierIsEarlier(k, k + rounds - 1, d, increment);
      var v := OneRound(w, n, k, d, increment);
      var rest := SlowRunFrom(Next(v, Deploy), n, k + 1, d, increment, rounds - 1);
      var deploys := [Deploy] + rest;
      StartsWith(v, Deploy, rest, n);
      StartsWith(Next(w, Wait(w)), AllUp(w), deploys, n);
      StartsWith(w, Wait(w), [AllUp(w)] + deploys, n);
      acts := [Wait(w)] + ([AllUp(w)] + deploys);
    }
  }

  lemma StartsWith(w: World, a: Action, rest: seq<Action>, n: string)
    ensures Along(w, [a] + rest, (v, b) => HelpingUnaided(v, b, n)) <==>
      HelpingUnaided(w, a, n) && Along(Next(w, a), rest, (v, b) => HelpingUnaided(v, b, n))
    ensures UngatedCount(w, [a] + rest) ==
      (if a == Deploy && UngatedAt(w) then 1 else 0) + UngatedCount(Next(w, a), rest)
  {
    hide HelpingUnaided, Next, UngatedAt;
    assert ([a] + rest)[1..] == rest;
  }

  /** One round: wait, have all pods up, deploy. */
  lemma OneRound(w: World, n: string, k: nat, d: int, increment: int) returns (v: World)
    requires Orderly(w) && Datable(w) && Behind(w, n, k, d, increment) && TooEarly(k, d, increment)
    ensures FirstDeployable(w.releases) >= 0 && v == Next(Next(w, Wait(w)), AllUp(w)) && UngatedAt(v)
    ensures HelpingUnaided(w, Wait(w), n) && HelpingUnaided(Next(w, Wait(w)), AllUp(w), n) && HelpingUnaided(v, Deploy, n)
    ensures Orderly(Next(v, Deploy)) && Datable(Next(v, Deploy)) && Behind(Next(v, Deploy), n, k + 1, d, increment)
  {
    hide Orderly, FirstDeployable, LastWithRole, DesiredInstances, Increment, PodIncrement, TooEarly, ReadinessTimeout,
      Next, UngatedAt, NextActive, Datable;
    v := Next(Next(w, Wait(w)), AllUp(w));
    ReadyToDeploy(w);
    OrderlyNext(w, Wait(w));
    OrderlyNext(Next(w, Wait(w)), AllUp(w));
    OrderlyNext(v, Deploy);
    BehindNext(w, Wait(w), n, k, d, increment);
    BehindNext(Next(w, Wait(w)), AllUp(w), n, k, d, increment);
    BehindNext(v, Deploy, n, k, d, increment);
    StillDatable(v, n, k, d, increment);
  }

  /**
    The convergence bound is tight: from every such world there is a run that meets all its conditions, has
    one un-gated reconcile less than it asks for, and does not converge.
   */
  lemma BoundIsTight(w: World, n: string, d: int, increment: int)
    requires Orderly(w) && Datable(w) && Behind(w, n, 0, d, increment) && Slackless(d, increment)
    ensures Newest(w, n) && StepsNeeded(increment) == if NeedsService(w.spec) then 9 else 3
    ensures exists acts ::
      && Along(w, acts, (v, a) => Helping(v, a, n))
      && UngatedCount(w, acts) == StepsNeeded(increment) - 1
      && !Converged(Run(w, acts), n)
  {
    hide Orderly, Along, Run, UngatedCount, FirstDeployable, LastWithRole, DesiredInstances, PodIncrement, TooEarly, Datable;
    OneStepShort(d, increment);
    var acts := SlowRunFrom(w, n, 0, d, increment, StepsNeeded(increment) - 1);
    Weaken(w, acts, n);
    NoFasterThanBound(w, acts, n, d, increment);
    assert !Converged(Run(w, acts), n);
  }

  lemma {:induction false} Weaken(w: World, acts: seq<Action>, n: string)
    requires Along(w, acts, (v, a) => HelpingUnaided(v, a, n))
    ensures Along(w, acts, (v, a) => Helping(v, a, n)) && Along(w, acts, (v, a) => Unaided(v, a, n))
    decreases |acts|
  {
    hide Helping, Unaided, Next;
    if acts != [] {
      Weaken(Next(w, acts[0]), acts[1..], n);
    }
  }

  /** Such worlds exist: a new release beside the active one that has all the traffic. */
  function FreshWorld(ports: seq<Port>, d: int): World {
    World(
      [ Release(Meta("new", At(1), "", "", ports), NoRole, 0, 0, false, ReleaseStatus(New, Never, 0, 0, 0)),
        Release(Meta("old", At(0), "", "", ports), Active, 100, d, true, ReleaseStatus(Released, At(0), d, d, d)) ],
      TargetSpec("app", Latest, ports, None, d, d, 0, None),
      TargetStatus(Running, "old", "old", At(0), d, d, d),
      1)
  }

  lemma FreshWorldIsBehind(ports: seq<Port>, d: int)
    requires d >= 1
    ensures var w := FreshWorld(ports, d);
      Orderly(w) && Datable(w) && Behind(w, "new", 0, d, Increment(w.spec))
  {
    hide PodIncrement;
    var rs := FreshWorld(ports, d).releases;
    assert rs[1].role == Active && rs[0].role == NoRole;
    assert LastWithRole(rs, Active) == 1 && LastWithRole(rs, Target) < 0 && FirstDeployable(rs) == 0;
  }
}
