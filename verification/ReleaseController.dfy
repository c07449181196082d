/**
  The release controller: it turns a release's pod count into a replica set, and reports back the state
  of the release, when that state last changed, and how many pods are there.
 */
module ReleaseController {
  import opened Model

  datatype ReplicaSet = ReplicaSet(replicas: int, ready: int, available: int)

  /** The release's pods: how many run or have finished, and when the oldest was created. */
  datatype Pods = Pods(successful: nat, oldest: Option<int>)

  /** Creates the replica set, or sets the pod count of the existing one, and reads it back. */
  function UpdateReplicaSet(wanted: ReplicaSet, live: Option<ReplicaSet>): ReplicaSet {
    if live.Some? then live.value.(replicas := wanted.replicas) else ReplicaSet(wanted.replicas, 0, 0)
  }

  /** The active release that is also the target: its pod count belongs to the autoscaler. */
  predicate Autoscaled(r: Release) {
    r.role == Active && r.marked
  }

  /** The replica set the status is read from. */
  function Observed(r: Release, live: Option<ReplicaSet>): ReplicaSet {
    if Autoscaled(r) && live.Some? then live.value
    else if r.desired == 0 then ReplicaSet(0, 0, 0)
    else UpdateReplicaSet(ReplicaSet(r.desired, 0, 0), live)
  }

  /** The replica set a reconcile leaves behind: none for a release that wants no pods. */
  function ReplicaSetAfter(r: Release, live: Option<ReplicaSet>): Option<ReplicaSet> {
    if r.desired == 0 then None else Some(Observed(r, live))
  }

  function Classify(r: Release, seen: ReplicaSet): State {
    match r.role
    case Active =>
      if seen.replicas == 0 then Halted
      else if seen.replicas == seen.available && seen.ready > 0 then Released
      else Releasing
    case Target => Releasing
    case Bad => MarkedBad
    case NoRole => if r.desired == 0 then Retired else Retiring
  }

  /** No pod ever came up within the timeout. */
  predicate GaveUp(r: Release, seen: ReplicaSet, pods: Pods, timeout: int, now: int) {
    && r.desired >= 0 && seen.available < r.desired
    && pods.successful == 0 && pods.oldest.Some? && now - pods.oldest.value > timeout
  }

  function SyncedStatus(r: Release, live: Option<ReplicaSet>, pods: Pods, timeout: int, now: int): ReleaseStatus {
    var seen := Observed(r, live);
    var state := Classify(r, seen);
    ReleaseStatus(
      if GaveUp(r, seen, pods, timeout, now) then Failed else state,
      if r.meta.created == Never || state != r.status.state then At(now) else r.status.changedAt,
      seen.replicas, seen.ready, seen.available)
  }

  /** One reconcile of a release, step by step; `live` is its replica set before, `after` the one left behind. */
  method Reconcile(r: Release, live: Option<ReplicaSet>, pods: Pods, timeout: int, now: int)
    returns (after: Option<ReplicaSet>, status: ReleaseStatus)
    ensures status == SyncedStatus(r, live, pods, timeout, now)
    ensures after == ReplicaSetAfter(r, live)
  {
    var rs := ReplicaSet(r.desired, 0, 0);
    after := live;
    var shouldUpdate := true;
    if r.role == Active && r.marked {
      if live.Some? {
        rs := live.value;
        if r.desired != 0 && rs.replicas != 0 {
          shouldUpdate := false;
        }
      }
    }
    if r.desired == 0 {
      after := None;
    } else if shouldUpdate {
      rs := UpdateReplicaSet(rs, live);
      after := Some(rs);
    }

    status := ReleaseStatus(New, r.status.changedAt, rs.replicas, rs.ready, rs.available);
    if r.role == Active {
      if status.desired == status.available && status.ready > 0 {
        status := status.(state := Released);
      } else {
        status := status.(state := Releasing);
      }
      if status.desired == 0 {
        status := status.(state := Halted);
      }
    } else if r.role == Target {
      status := status.(state := Releasing);
    } else if r.role == Bad {
      status := status.(state := MarkedBad);
    } else {
      if r.desired == 0 {
        status := status.(state := Retired);
      } else {
        status := status.(state := Retiring);
      }
    }
    if r.meta.created == Never || status.state != r.status.state {
      status := status.(changedAt := At(now));
    }
    if r.desired >= 0 && status.available < r.desired {
      if pods.successful == 0 && pods.oldest.Some? && now - pods.oldest.value > timeout {
        status := status.(state := Failed);
      }
    }
  }

  /**
    A reconcile leaves an existing replica set as it is exactly when the release wants pods and either the
    pod count belongs to the autoscaler or it is right already. The autoscaler's count stays even when it
    has dropped to 0, because what the controller saves back then is the replica set it has just read.
   */
  lemma LeftAsItIs(r: Release, live: ReplicaSet)
    ensures ReplicaSetAfter(r, Some(live)) == Some(live) <==>
      r.desired != 0 && (Autoscaled(r) || live.replicas == r.desired)
  {
  }

  /** Whatever its replica set looks like, the controller leaves it as it is. */
  ghost predicate LeavesAlone(r: Release) {
    forall live: ReplicaSet :: ReplicaSetAfter(r, Some(live)) == Some(live)
  }

  /** The replica set of a release is left alone, whatever it looks like, exactly when the release is the
      active labelled one and wants pods. */
  lemma LeftAloneIffAutoscaled(r: Release)
    ensures LeavesAlone(r) <==> Autoscaled(r) && r.desired != 0
  {
    if LeavesAlone(r) && !Autoscaled(r) {
      var other := ReplicaSet(r.desired + 1, 0, 0);
      assert ReplicaSetAfter(r, Some(other)) == Some(other);
      LeftAsItIs(r, other);
    }
    if Autoscaled(r) && r.desired != 0 {
      forall live: ReplicaSet ensures ReplicaSetAfter(r, Some(live)) == Some(live) {
        LeftAsItIs(r, live);
      }
    } else if Autoscaled(r) {
      var live := ReplicaSet(0, 0, 0);
      assert ReplicaSetAfter(r, Some(live)) != Some(live);
    }
  }

  /**
    What is reported and left behind, from the replica set found: an autoscaled release keeps what is there, one
    that wants no pods has none, and any other one has the pods it wants and, if its replica set is new, none
    of them up yet.
   */
  lemma PodsReported(r: Release, live: Option<ReplicaSet>, pods: Pods, timeout: int, now: int)
    ensures var s, after := SyncedStatus(r, live, pods, timeout, now), ReplicaSetAfter(r, live);
      && (if r.role == Active && r.marked && live.Some? then
            s.desired == live.value.replicas && s.ready == live.value.ready && s.available == live.value.available
          else
            && s.desired == r.desired
            && (r.desired != 0 && live.Some? ==> s.ready == live.value.ready && s.available == live.value.available)
            && (r.desired == 0 || live.None? ==> s.ready == 0 && s.available == 0))
      && (after.None? <==> r.desired == 0)
      && (after.Some? ==>
        after.value.replicas == s.desired && after.value.ready == s.ready && after.value.available == s.available)
  {
    hide Classify, GaveUp;
  }

  /** Which state is reported: failed when fewer pods than wanted are available, none has come up, and the
      oldest is older than the timeout; otherwise the one that role and pods say. */
  lemma StateTells(r: Release, live: Option<ReplicaSet>, pods: Pods, timeout: int, now: int)
    ensures var s := SyncedStatus(r, live, pods, timeout, now);
      var failed := 0 <= r.desired && s.available < r.desired
        && pods.successful == 0 && pods.oldest.Some? && now - pods.oldest.value > timeout;
      var up := s.available == s.desired && s.ready > 0;
      && (s.state == Failed <==> failed)
      && s.state != New
      && (!failed ==>
        && (s.state == Halted <==> r.role == Active && s.desired == 0)
        && (s.state == Released <==> r.role == Active && s.desired != 0 && up)
        && (s.state == Releasing <==> r.role == Target || (r.role == Active && s.desired != 0 && !up))
        && (s.state == MarkedBad <==> r.role == Bad)
        && (s.state == Retiring <==> r.role == NoRole && r.desired != 0)
        && (s.state == Retired <==> r.role == NoRole && r.desired == 0))
  {
    hide Observed;
  }

  /** The change time: now for an unsaved release or when the state that role and pods say, leaving failures
      aside, is not the one recorded; otherwise the one recorded. */
  lemma ChangeTime(r: Release, live: Option<ReplicaSet>, pods: Pods, timeout: int, now: int)
    ensures var s := SyncedStatus(r, live, pods, timeout, now);
      var asIfUp := SyncedStatus(r, live, Pods(1, None), timeout, now).state;
      s.changedAt == if r.meta.created == Never || asIfUp != r.status.state then At(now) else r.status.changedAt
  {
    hide Observed, Classify;
  }

  /** Seeing the same pods again keeps the change time, except that a failed release is stamped anew each
      time, because the failure is only noted after the time has been chosen. */
  lemma ResyncKeepsTime(
    r: Release, live: Option<ReplicaSet>, pods: Pods, timeout: int, now: int,
    live2: Option<ReplicaSet>, pods2: Pods, timeout2: int, now2: int)
    requires r.meta.created != Never && Observed(r, live2) == Observed(r, live)
    ensures var s := SyncedStatus(r, live, pods, timeout, now);
      var again := SyncedStatus(r.(status := s), live2, pods2, timeout2, now2);
      again.changedAt == if s.state == Failed then At(now2) else s.changedAt
  {
    hide GaveUp;
    var s := SyncedStatus(r, live, pods, timeout, now);
    assert Observed(r.(status := s), live2) == Observed(r, live2);
  }
}
