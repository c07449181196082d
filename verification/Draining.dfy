/**
  How long a replaced release keeps its pods, over whole runs.
 */
module Draining {
  import opened Model
  import opened Rollout
  import opened StepLaws
  import opened Selection
  import opened ReleaseController
  import opened Runs
  import opened RolloutRuns

  // ---------- Surviving ----------

  ghost predicate HasName(rs: seq<Release>, n: string) {
    exists i :: 0 <= i < |rs| && rs[i].meta.name == n
  }

  ghost predicate Present(w: World, n: string) {
    HasName(w.releases, n)
  }

  ghost predicate Named(w: World, n: string, p: Release -> bool) {
    forall i :: 0 <= i < |w.releases| && w.releases[i].meta.name == n ==> p(w.releases[i])
  }

  /** A deployment reconcile in this world does not delete the release named `n`: it is among the ten newest
      or younger than 48 hours. */
  ghost predicate Spared(w: World, n: string) {
    exists i :: 0 <= i < |w.releases| && w.releases[i].meta.name == n && SavedSurvives(w, i)
  }

  predicate SavedSurvives(w: World, i: nat)
    requires i < |w.releases|
  {
    i < RELEASES_TO_KEEP || Young(Saved(w.releases[i], w.now), w.now)
  }

  /** The release named `n` is not rolled back, not deployed again, and the probes stay. */
  ghost predicate LeftAlone(w: World, a: Action, n: string, timeout: int) {
    && Allowed(w, a)
    && match a
       case MarkBad(m) => m != n
       case Draft(r) => r.meta.name != n
       case Edit(spec) => ReadinessTimeout(spec) == timeout
       case Deploy =>
         var t := FirstDeployable(w.releases);
         t >= 0 ==> w.releases[t].meta.name != n
       case _ => true
  }

  /** Exactly the releases that survive are left. */
  lemma WhoSurvives(w: World)
    requires Orderly(w)
    ensures |Next(w, Deploy).releases| <= |w.releases|
    ensures forall i :: 0 <= i < |w.releases| ==> (i < |Next(w, Deploy).releases| <==> SavedSurvives(w, i))
  {
    hide Step, Orderly, Survivors;
    DeployKeeps(w);
    StepKeepsMeta(w);
    var all := SaveAll(StepOf(w).releases, w.now);
    PruningKeepsPrefix(all, w.now);
    forall i | 0 <= i < |w.releases| ensures i < |Next(w, Deploy).releases| <==> SavedSurvives(w, i) {
      assert all[i].meta == Saved(w.releases[i], w.now).meta;
      assert i < |Survivors(all, w.now)| <==> Survives(all, w.now, i);
    }
  }

  lemma PresentAfterDeploy(w: World, n: string)
    requires Orderly(w)
    ensures Present(Next(w, Deploy), n) <==> Spared(w, n)
    ensures Spared(w, n) ==> Present(w, n)
  {
    hide Step, Survivors, Orderly, SavedSurvives;
    DeployKeeps(w);
    StepKeepsMeta(w);
    WhoSurvives(w);
    var next := Next(w, Deploy).releases;
    assert forall i :: 0 <= i < |next| ==> next[i].meta.name == w.releases[i].meta.name;
  }

  lemma PresentNext(w: World, a: Action, n: string, timeout: int)
    requires Orderly(w) && LeftAlone(w, a, n, timeout)
    ensures Present(Next(w, a), n) <==> Present(w, n) && (a == Deploy ==> Spared(w, n))
  {
    hide Next, Orderly, Spared, Allowed, ReadinessTimeout, HasName, FirstDeployable;
    if a == Deploy {
      PresentAfterDeploy(w, n);
    } else {
      OthersKeepNames(w, a, n);
    }
  }

  lemma OthersKeepNames(w: World, a: Action, n: string)
    requires a != Deploy && (a.Draft? ==> a.release.meta.name != n)
    ensures Present(Next(w, a), n) <==> Present(w, n)
  {
    hide StepOf, SyncedStatus, HasName, Survivors, MarkAll, SyncAll;
    match a
    case Draft(r) => NameInFront(r, w.releases, n);
    case Sync(_, _, _, _) => SameNames(w.releases, SyncAll(w.releases, a, w.now), n);
    case MarkBad(m) => SameNames(w.releases, MarkAll(w.releases, m), n);
    case _ =>
  }

  lemma NameInFront(r: Release, rs: seq<Release>, n: string)
    ensures HasName([r] + rs, n) <==> r.meta.name == n || HasName(rs, n)
  {
    assert ([r] + rs)[0] == r;
    if i :| 0 <= i < |rs| && rs[i].meta.name == n {
      assert ([r] + rs)[i + 1].meta.name == n;
    }
  }

  lemma SameNames(rs: seq<Release>, next: seq<Release>, n: string)
    requires |next| == |rs| && forall i :: 0 <= i < |rs| ==> next[i].meta == rs[i].meta
    ensures HasName(next, n) <==> HasName(rs, n)
  {
  }

  /** A release that is left alone is still there at the end of a run exactly when no reconcile deleted it. */
  lemma {:induction false} PresentInRun(w: World, acts: seq<Action>, n: string, timeout: int)
    requires Orderly(w) && Along(w, acts, (v, a) => LeftAlone(v, a, n, timeout))
    ensures Present(Run(w, acts), n) <==>
      Present(w, n) && Along(w, acts, (v, a) => a == Deploy ==> Spared(v, n))
    decreases |acts|
  {
    hide Orderly, Allowed, Next, ReadinessTimeout, Present, Spared;
    if acts != [] {
      PresentNext(w, acts[0], n, timeout);
      OrderlyNext(w, acts[0]);
      PresentInRun(Next(w, acts[0]), acts[1..], n, timeout);
    }
  }

  // ---------- Draining ----------

  /** A replaced release the release controller saw as retiring at `since` or later. */
  ghost predicate Draining(r: Release, pods: int, since: int) {
    && r.role == NoRole && r.desired == pods && pods != 0
    && r.status.state in {Retiring, Failed}
    && r.status.changedAt.At? && r.status.changedAt.time >= since
  }

  /** What a reconcile leaves a release without a role: its pods, until it passes the gate with the change
      time older than the timeout. */
  lemma DrainingDeploy(w: World, i: nat)
    requires i < |w.releases| && w.releases[i].role == NoRole && i != FirstDeployable(w.releases)
    ensures var out := StepOf(w).releases;
      && |out| == |w.releases|
      && out[i].role == NoRole && out[i].status == w.releases[i].status && out[i].meta == w.releases[i].meta
      && out[i].desired ==
        if UngatedAt(w) && Aged(w.now, w.releases[i].status.changedAt, ReadinessTimeout(w.spec)) then 0
        else w.releases[i].desired
  {
    hide Advance, Gated, FirstDeployable, ReadinessTimeout, DesiredInstances, MakePlan, Aged;
    if UngatedAt(w) {
      StepAsIntended(w.releases, w.spec, w.status, w.now);
      PlanActive(w.releases, w.spec, w.status);
    }
  }

  lemma DrainingNext(w: World, a: Action, n: string, pods: int, since: int)
    requires Orderly(w) && LeftAlone(w, a, n, ReadinessTimeout(w.spec))
    requires Named(w, n, r => Draining(r, pods, since))
    requires since <= w.now <= since + ReadinessTimeout(w.spec)
    ensures Named(Next(w, a), n, r => Draining(r, pods, since))
  {
    hide StepOf, Survivors, Orderly, ReadinessTimeout, FirstDeployable;
    match a
    case Deploy =>
      DeployKeeps(w);
      var out, next := StepOf(w).releases, Next(w, a).releases;
      forall i | 0 <= i < |next| && next[i].meta.name == n ensures Draining(next[i], pods, since) {
        StepKeepsMeta(w);
        assert w.releases[i].meta.name == n;
        DrainingDeploy(w, i);
      }
    case _ =>
  }

  lemma {:induction false} DrainingLasts(w: World, acts: seq<Action>, n: string, pods: int, since: int)
    requires Orderly(w) && since <= w.now
    requires Named(w, n, r => Draining(r, pods, since))
    requires Along(w, acts, (v, a) => LeftAlone(v, a, n, ReadinessTimeout(w.spec)))
    requires Run(w, acts).now <= since + ReadinessTimeout(w.spec)
    ensures Named(Run(w, acts), n, (r: Release) => r.desired == pods)
    decreases |acts|
  {
    hide Orderly, Allowed, Next, ReadinessTimeout;
    if acts != [] {
      TimeGoesOn(w, acts);
      DrainingNext(w, acts[0], n, pods, since);
      OrderlyNext(w, acts[0]);
      TimeoutStays(w, acts[0], n);
      DrainingLasts(Next(w, acts[0]), acts[1..], n, pods, since);
    }
  }

  lemma TimeoutStays(w: World, a: Action, n: string)
    requires LeftAlone(w, a, n, ReadinessTimeout(w.spec))
    ensures ReadinessTimeout(Next(w, a).spec) == ReadinessTimeout(w.spec) && Next(w, a).now >= w.now
  {
    hide StepOf, ReadinessTimeout, Allowed;
  }

  // ---------- From the demotion on ----------

  /** Neither controller touches the release named `n`. */
  ghost predicate Unseen(w: World, a: Action, n: string, timeout: int) {
    LeftAlone(w, a, n, timeout) && a != Deploy && (a.Sync? ==> a.name != n)
  }

  lemma {:induction false} UnseenStays(w: World, acts: seq<Action>, n: string, r: Release)
    requires Orderly(w) && Named(w, n, x => x == r)
    requires Along(w, acts, (v, a) => Unseen(v, a, n, ReadinessTimeout(w.spec)))
    ensures Orderly(Run(w, acts)) && Named(Run(w, acts), n, x => x == r)
    ensures ReadinessTimeout(Run(w, acts).spec) == ReadinessTimeout(w.spec) && Run(w, acts).now >= w.now
    ensures Present(Run(w, acts), n) <==> Present(w, n)
    decreases |acts|
  {
    hide Orderly, Allowed, Next, ReadinessTimeout, Named, Present;
    if acts != [] {
      UnseenNext(w, acts[0], n, r);
      OrderlyNext(w, acts[0]);
      TimeoutStays(w, acts[0], n);
      PresentNext(w, acts[0], n, ReadinessTimeout(w.spec));
      UnseenStays(Next(w, acts[0]), acts[1..], n, r);
    }
  }

  lemma UnseenNext(w: World, a: Action, n: string, r: Release)
    requires Named(w, n, x => x == r) && Unseen(w, a, n, ReadinessTimeout(w.spec))
    ensures Named(Next(w, a), n, x => x == r)
  {
    hide SyncedStatus, ReadinessTimeout, Allowed;
  }

  /** This reconcile replaces the active release `i`, which still has pods. */
  ghost predicate Demotes(w: World, i: nat) {
    && UngatedAt(w) && i < |w.releases|
    && w.releases[i].role == Active && w.releases[i].desired != 0
    && i != NextActive(w.releases, w.spec, w.status) && i != FirstDeployable(w.releases)
    && forall j :: 0 <= j < |w.releases| && w.releases[j].meta.name == w.releases[i].meta.name ==> j == i
  }

  /** The replaced release as the reconcile leaves it, if it leaves it at all. */
  function DemotedRelease(w: World, i: nat): Release
    requires i < |w.releases|
  {
    Saved(w.releases[i], w.now).(role := NoRole, traffic := 0, marked := false)
  }

  lemma DemotionKeepsPods(w: World, i: nat)
    requires Orderly(w) && Demotes(w, i)
    ensures Named(Next(w, Deploy), w.releases[i].meta.name, x => x == DemotedRelease(w, i))
  {
    hide Step, Survivors, Orderly, NextActive, FirstDeployable, DesiredInstances, ReadinessTimeout, MakePlan, Gated;
    DeployKeeps(w);
    StepAsIntended(w.releases, w.spec, w.status, w.now);
    PlanActive(w.releases, w.spec, w.status);
  }

  /** The world in which the release controller has looked at the replaced release for the first time. */
  function Looked(w: World, before: seq<Action>, sync: Action): World {
    Next(Run(Next(w, Deploy), before), sync)
  }

  /** The deployment reconcile that replaces release `i`, and a first look at it with neither controller
      touching it in between. */
  ghost predicate ReplacedAndSeen(w: World, i: nat, before: seq<Action>, sync: Action) {
    && Orderly(w) && Demotes(w, i)
    && var n := w.releases[i].meta.name;
      && Along(Next(w, Deploy), before, (v, a) => Unseen(v, a, n, ReadinessTimeout(w.spec)))
      && sync.Sync? && sync.name == n && Allowed(Run(Next(w, Deploy), before), sync)
  }

  /** What the first look leaves. */
  lemma AfterFirstLook(w: World, i: nat, before: seq<Action>, sync: Action)
    requires ReplacedAndSeen(w, i, before, sync)
    ensures var n, looked := w.releases[i].meta.name, Looked(w, before, sync);
      && Orderly(looked) && looked.now >= w.now && ReadinessTimeout(looked.spec) == ReadinessTimeout(w.spec)
      && Named(looked, n, x => x == Synced(DemotedRelease(w, i), sync, looked.now))
      && (Present(looked, n) <==> Spared(w, n))
  {
    hide Orderly, NextActive, FirstDeployable, Ungated, LeftAlone, ReadinessTimeout, StepOf, Survivors, MarkAll,
      SyncedStatus, Spared, Present;
    var n, demoted := w.releases[i].meta.name, Next(w, Deploy);
    DemotionKeepsPods(w, i);
    OrderlyNext(w, Deploy);
    UnseenStays(demoted, before, n, DemotedRelease(w, i));
    PresentAfterDeploy(w, n);
    var seen := Run(demoted, before);
    OrderlyNext(seen, sync);
    assert LeftAlone(seen, sync, n, ReadinessTimeout(w.spec)) by { SyncLeavesAlone(seen, sync, n, ReadinessTimeout(w.spec)); }
    PresentNext(seen, sync, n, ReadinessTimeout(w.spec));
  }

  lemma SyncLeavesAlone(w: World, sync: Action, n: string, timeout: int)
    requires sync.Sync? && Allowed(w, sync)
    ensures LeftAlone(w, sync, n, timeout)
  {
  }

  /**
    Drain: until one readiness timeout after the first look at it, a replaced active release that was not
    already recorded as retiring is there with all its pods exactly when no reconcile has deleted it as old:
    in every interleaving, with neither a rollback nor a new deployment of it.
   */
  lemma ReplacedReleaseDrains(w: World, i: nat, before: seq<Action>, sync: Action, after: seq<Action>)
    requires ReplacedAndSeen(w, i, before, sync) && w.releases[i].status.state != Retiring
    requires var n, looked := w.releases[i].meta.name, Looked(w, before, sync);
      && Along(looked, after, (v, a) => LeftAlone(v, a, n, ReadinessTimeout(w.spec)))
      && Run(looked, after).now <= looked.now + ReadinessTimeout(w.spec)
    ensures var n, looked := w.releases[i].meta.name, Looked(w, before, sync);
      var end := Run(looked, after);
      && Named(end, n, (r: Release) => r.desired == w.releases[i].desired)
      && (Present(end, n) <==> Spared(w, n) && Along(looked, after, (v, a) => a == Deploy ==> Spared(v, n)))
  {
    hide Orderly, NextActive, Ungated, FirstDeployable, LeftAlone, ReadinessTimeout, Next, Spared, Present, Along, Run, Allowed;
    var n, looked := w.releases[i].meta.name, Looked(w, before, sync);
    AfterFirstLook(w, i, before, sync);
    PresentInRun(looked, after, n, ReadinessTimeout(w.spec));
    SeenIsDraining(w, i, sync, looked.now);
    DrainingLasts(looked, after, n, w.releases[i].desired, looked.now);
  }

  lemma SeenIsDraining(w: World, i: nat, sync: Action, now: int)
    requires Demotes(w, i) && sync.Sync? && sync.name == w.releases[i].meta.name
    requires w.releases[i].status.state != Retiring
    ensures Draining(Synced(DemotedRelease(w, i), sync, now), w.releases[i].desired, now)
  {
    hide GaveUp, Ungated, NextActive;
  }

  /**
    The drain clock: a reconcile later on, with no other look at the replaced release in between, leaves it
    its pods exactly when it does not pass the gate or the clock has not run out. The clock starts at the
    first look, unless the release was already recorded as retiring: then at the time recorded.
   */
  lemma DrainClock(w: World, i: nat, before: seq<Action>, sync: Action, after: seq<Action>, j: nat)
    requires ReplacedAndSeen(w, i, before, sync)
    requires var n, looked := w.releases[i].meta.name, Looked(w, before, sync);
      var end := Run(looked, after);
      && Along(looked, after, (v, a) => Unseen(v, a, n, ReadinessTimeout(w.spec)))
      && j < |end.releases| && end.releases[j].meta.name == n && j != FirstDeployable(end.releases)
    ensures var looked := Looked(w, before, sync);
      var end, out := Run(looked, after), StepOf(Run(looked, after)).releases;
      var r, timeout := w.releases[i], ReadinessTimeout(w.spec);
      var running :=
        if r.status.state == Retiring then !Aged(end.now, r.status.changedAt, timeout)
        else end.now - looked.now <= timeout;
      |out| == |end.releases| && (out[j].desired == r.desired <==> !UngatedAt(end) || running)
  {
    hide Orderly, LeftAlone, ReadinessTimeout, Next, Along, Run, Allowed, Ungated, NextActive, StepOf, FirstDeployable, GaveUp;
    var n, looked := w.releases[i].meta.name, Looked(w, before, sync);
    AfterFirstLook(w, i, before, sync);
    UnseenStays(looked, after, n, Synced(DemotedRelease(w, i), sync, looked.now));
    DrainingDeploy(Run(looked, after), j);
  }

  // ---------- When there is no drain ----------

  /** A replaced release that is neither among the ten newest nor young is deleted, pods and all, by the very
      reconcile that replaces it. */
  lemma DeletedWhenReplaced(w: World, i: nat)
    requires Orderly(w) && Demotes(w, i)
    ensures !Present(Next(w, Deploy), w.releases[i].meta.name) <==> !SavedSurvives(w, i)
  {
    hide Orderly, Ungated, NextActive, FirstDeployable, SavedSurvives, Present;
    PresentAfterDeploy(w, w.releases[i].meta.name);
  }

  /** Eleven old releases, halted, with the oldest one active. */
  function CrowdedRelease(i: nat): Release {
    var meta := Meta(seq(i, _ => 'r'), At(0), "", "", []);
    var status := ReleaseStatus(Released, At(0), 3, 3, 3);
    if i == 10 then Release(meta, Active, 100, 3, true, status) else Release(meta, NoRole, 0, 0, false, status)
  }

  function Crowd(): (rs: seq<Release>)
    ensures |rs| == 11 && forall i :: 0 <= i < 11 ==> rs[i] == CrowdedRelease(i)
  {
    seq(11, i requires 0 <= i < 11 => CrowdedRelease(i))
  }

  function CrowdedWorld(): World {
    World(
      Crowd(),
      TargetSpec("app", Halt, [], None, 3, 3, 0, None),
      TargetStatus(Running, "", "", At(0), 3, 3, 3),
      72 * 3600 * SECOND)
  }

  lemma CrowdedOutOnHalt()
    ensures var w := CrowdedWorld();
      && Orderly(w) && Demotes(w, 10) && w.releases[10].desired == 3
      && !Present(Next(w, Deploy), w.releases[10].meta.name)
  {
    hide Next, Present, CrowdedWorld, Ungated, NextActive, FirstDeployable;
    var w := CrowdedWorld();
    CrowdedOrder(w);
    CrowdedRoles(w);
    assert Demotes(w, 10);
    DeletedWhenReplaced(w, 10);
  }

  lemma CrowdedOrder(w: World)
    requires w == CrowdedWorld()
    ensures Orderly(w) && |w.releases| == 11 && !SavedSurvives(w, 10)
    ensures w.releases[10].role == Active && w.releases[10].desired == 3
    ensures forall i, j :: 0 <= i < 11 && 0 <= j < 11 && w.releases[i].meta.name == w.releases[j].meta.name ==> i == j
  {
    hide Crowd, CrowdedRelease;
    forall i: nat | i < 11 ensures |w.releases[i].meta.name| == i {
      CrowdedOne(i);
    }
    forall i: nat | i < 11 ensures w.releases[i].meta.created == At(0) && w.releases[i].role in {Active, NoRole} {
      CrowdedOne(i);
    }
    forall i: nat | i < 11 ensures w.releases[i].traffic >= 0 && w.releases[i].status.available >= 0 {
      CrowdedOne(i);
    }
    CrowdedOne(10);
  }

  lemma CrowdedOne(i: nat)
    ensures var r := CrowdedRelease(i);
      && |r.meta.name| == i && r.meta.created == At(0) && r.traffic >= 0 && r.status.available >= 0
      && r.role == (if i == 10 then Active else NoRole) && r.desired == if i == 10 then 3 else 0
  {
  }

  lemma CrowdedRoles(w: World)
    requires w == CrowdedWorld()
    ensures UngatedAt(w) && NextActive(w.releases, w.spec, w.status) == FirstDeployable(w.releases) == 0
  {
    var rs := w.releases;
    NewestIsGood(rs);
    OldestActive(rs);
  }

  lemma NewestIsGood(rs: seq<Release>)
    requires rs != [] && rs[0].role != Bad
    ensures FirstDeployable(rs) == 0
  {
  }

  lemma OldestActive(rs: seq<Release>)
    requires rs != [] && rs[|rs| - 1].role == Active && forall i :: 0 <= i < |rs| ==> rs[i].role != Target
    ensures LastWithRole(rs, Active) == |rs| - 1 && LastWithRole(rs, Target) < 0
  {
  }

  /** A release recorded as retiring for longer than the timeout before it is replaced gets no drain: when
      the target takes over from it, the next reconcile removes its pods, at the same moment. */
  lemma StaleIsNotDrained(w: World, i: nat, sync: Action)
    requires ReplacedAndSeen(w, i, [], sync) && i < RELEASES_TO_KEEP
    requires NextActive(w.releases, w.spec, w.status) == FirstDeployable(w.releases)
    requires w.releases[i].status.state == Retiring
      && Aged(w.now, w.releases[i].status.changedAt, ReadinessTimeout(w.spec))
    ensures var looked := Looked(w, [], sync);
      var rs, next := looked.releases, Next(looked, Deploy).releases;
      && looked.now == w.now && i < |rs| && i < |next|
      && rs[i].meta.name == next[i].meta.name == w.releases[i].meta.name
      && rs[i].desired == w.releases[i].desired && next[i].desired == 0
  {
    hide Next, Orderly, Demotes, ReadinessTimeout, Ungated, NextActive, SyncedStatus, Aged;
    var looked := Looked(w, [], sync);
    DemotedIsOther(w, i);
    RolesAtFirstLook(w, sync);
    AfterFirstLook(w, i, [], sync);
    SamePlaceAtFirstLook(w, sync, i);
    StaleTimeStays(w, i, sync);
    DrainingDeploy(looked, i);
    SamePlaceAfterDeploy(looked, i);
  }

  lemma SamePlaceAfterDeploy(w: World, i: nat)
    requires Orderly(w) && i < RELEASES_TO_KEEP && i < |w.releases|
    ensures i < |Next(w, Deploy).releases| && i < |StepOf(w).releases|
    ensures Next(w, Deploy).releases[i].meta.name == w.releases[i].meta.name
    ensures Next(w, Deploy).releases[i].desired == StepOf(w).releases[i].desired
  {
    hide Step, Orderly, Survivors;
    DeployKeeps(w);
    StepKeepsMeta(w);
  }

  lemma SamePlaceAtFirstLook(w: World, sync: Action, i: nat)
    requires Orderly(w) && i < RELEASES_TO_KEEP && i < |w.releases| && sync.Sync?
    ensures var looked := Looked(w, [], sync);
      i < |looked.releases| && looked.releases[i].meta.name == w.releases[i].meta.name
  {
    hide Step, Orderly, Survivors, SyncedStatus;
    SamePlaceAfterDeploy(w, i);
  }

  /** After a takeover, and whatever a look at a release reports, the gate is open. */
  lemma RolesAtFirstLook(w: World, sync: Action)
    requires Orderly(w) && UngatedAt(w) && sync.Sync?
    requires NextActive(w.releases, w.spec, w.status) == FirstDeployable(w.releases) < RELEASES_TO_KEEP
    ensures var looked := Looked(w, [], sync);
      && |looked.releases| == |Next(w, Deploy).releases| && looked.now == w.now
      && FirstDeployable(looked.releases) == FirstDeployable(w.releases) && UngatedAt(looked)
  {
    hide Step, Orderly, Ungated, NextActive, Survivors, SyncedStatus, FirstDeployable, LastWithRole;
    var t, demoted := FirstDeployable(w.releases), Next(w, Deploy);
    DeployKeeps(w);
    RoleDiscipline(w.releases, w.spec, w.status, w.now);
    ActiveOfDisciplined(StepOf(w).releases, t, t);
    KeptRoles(StepOf(w).releases, demoted.releases, w.now);
    SameRoles(demoted.releases, Looked(w, [], sync).releases);
    NoTargetNotGated(Looked(w, [], sync), t);
  }

  lemma DemotedIsOther(w: World, i: nat)
    requires Demotes(w, i)
    ensures UngatedAt(w) && 0 <= FirstDeployable(w.releases) < i < |w.releases| && w.releases[i].desired != 0
  {
  }

  lemma StaleTimeStays(w: World, i: nat, sync: Action)
    requires i < |w.releases| && w.releases[i].status.state == Retiring && w.releases[i].desired != 0 && sync.Sync?
    ensures var r := Synced(DemotedRelease(w, i), sync, w.now);
      r.role == NoRole && r.desired == w.releases[i].desired && r.status.changedAt == w.releases[i].status.changedAt
  {
    hide GaveUp;
  }

  lemma NoTargetNotGated(w: World, t: int)
    requires 0 <= t == FirstDeployable(w.releases) == LastWithRole(w.releases, Active) && LastWithRole(w.releases, Target) < 0
    ensures UngatedAt(w)
  {
  }

  /** A release put back into service and replaced again before the release controller saw it in service. */
  function StaleWorld(): World {
    World(
      [ Release(Meta("b", At(1), "", "", []), Target, 100, 3, true, ReleaseStatus(Releasing, At(0), 3, 3, 3)),
        Release(Meta("a", At(0), "", "", []), Active, 0, 3, false, ReleaseStatus(Retiring, At(0), 3, 3, 3)) ],
      TargetSpec("app", Latest, [], None, 3, 3, 0, None),
      TargetStatus(Deploying, "a", "b", At(0), 3, 3, 3),
      1000 * SECOND)
  }

  /** Its three pods are gone two deployment reconciles later, with no time passing and one look at it in between. */
  lemma StaleRetiringLosesPods()
    ensures var w, sync := StaleWorld(), Sync("a", Some(ReplicaSet(3, 3, 3)), Pods(3, Some(0)), 60 * SECOND);
      var seen := Next(Next(w, Deploy), sync);
      var end := Next(seen, Deploy);
      && Orderly(w) && Demotes(w, 1) && w.releases[1].status.state == Retiring && Allowed(Next(w, Deploy), sync)
      && |seen.releases| == 2 && seen.releases[1].meta.name == "a" && seen.releases[1].desired == 3
      && |end.releases| == 2 && end.releases[1].meta.name == "a" && end.releases[1].desired == 0
      && end.now == w.now
  {
    hide Next, NextActive, SyncedStatus;
    var w, sync := StaleWorld(), Sync("a", Some(ReplicaSet(3, 3, 3)), Pods(3, Some(0)), 60 * SECOND);
    var rs := w.releases;
    StaleRoles(w);
    assert Orderly(w);
    assert Demotes(w, 1);
    assert ReplacedAndSeen(w, 1, [], sync);
    StaleIsNotDrained(w, 1, sync);
    TwoStayTwo(w, sync);
    assert Looked(w, [], sync) == Next(Next(w, Deploy), sync);
  }

  lemma StaleRoles(w: World)
    requires w == StaleWorld()
    ensures UngatedAt(w) && NextActive(w.releases, w.spec, w.status) == FirstDeployable(w.releases) == 0
  {
    var rs := w.releases;
    assert rs[0].role == Target && rs[1].role == Active;
    assert LastWithRole(rs, Active) == 1 && LastWithRole(rs, Target) == 0 && FirstDeployable(rs) == 0;
  }

  lemma TwoStayTwo(w: World, sync: Action)
    requires Orderly(w) && |w.releases| == 2 && sync.Sync? && Allowed(Next(w, Deploy), sync)
    ensures var seen := Next(Next(w, Deploy), sync);
      |seen.releases| == 2 && |Next(seen, Deploy).releases| == 2 && Next(seen, Deploy).now == w.now
  {
    hide StepOf, Orderly, Survivors, SyncedStatus, Allowed;
    DeployKeeps(w);
    OrderlyDeploy(w);
    OrderlyNext(Next(w, Deploy), sync);
    DeployKeeps(Next(Next(w, Deploy), sync));
  }
}
