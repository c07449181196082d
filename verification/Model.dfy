/**
  The objects the deployment operator works on, as values: releases of an app, the app target that
  owns them, and the small pure computations their methods offer.

  Counts, percentages and durations are unbounded integers; times are integers in nanoseconds.
 */
module Model {
  datatype Option<+T> = None | Some(value: T)

  /** A stored time. `Never` is the zero time, which is older than any timeout. */
  datatype Stamp = Never | At(time: int)

  datatype Role = NoRole | Active | Target | Bad

  datatype State = New | Releasing | Released | Retiring | Retired | Failed | MarkedBad | Halted

  datatype Port = Port(name: string, number: int)

  datatype ReleaseStatus = ReleaseStatus(
    state: State, changedAt: Stamp, desired: int, ready: int, available: int)

  /** What identifies a release and does not change as it rolls out; `created` is `Never` until the
      release is first saved. */
  datatype Meta = Meta(name: string, created: Stamp, hash: string, config: string, ports: seq<Port>)

  /** An app release; `marked` says that it carries the target-release label. */
  datatype Release = Release(
    meta: Meta, role: Role, traffic: int, desired: int, marked: bool, status: ReleaseStatus)

  datatype DeployMode = Latest | Halt

  datatype Probe = Probe(initialDelay: int, period: int, timeout: int)

  datatype Ingress = Ingress(hosts: seq<string>, paths: seq<string>, port: string)

  datatype TargetSpec = TargetSpec(
    app: string, mode: DeployMode, ports: seq<Port>, ingress: Option<Ingress>,
    scaleMin: int, scaleMax: int, cpuTarget: int, readiness: Option<Probe>)

  datatype Phase = Running | Deploying | HaltedPhase

  datatype TargetStatus = TargetStatus(
    phase: Phase, activeRelease: string, targetRelease: string, deployUpdatedAt: Stamp,
    desired: int, ready: int, available: int)

  const SECOND := 1_000_000_000

  /** Go's conversion of the quotient num/den to an integer: it drops the fraction. */
  function Truncate(num: int, den: int): int
    requires den != 0
  {
    if num >= 0 && den > 0 then num / den
    else if num < 0 && den < 0 then (-num) / (-den)
    else if num < 0 then -((-num) / den)
    else -(num / (-den))
  }

  function ReadinessTimeout(spec: TargetSpec): int {
    match spec.readiness
    case None => 60 * SECOND
    case Some(p) =>
      if p.initialDelay > 0 then p.initialDelay * SECOND
      else if p.period > 0 then (p.period + p.timeout) * SECOND
      else 60 * SECOND
  }

  function DesiredInstances(spec: TargetSpec, status: TargetStatus): int {
    if spec.mode == Halt then 0
    else
      var instances := if status.desired > spec.scaleMin then status.desired else spec.scaleMin;
      if instances > spec.scaleMax then spec.scaleMax else instances
  }

  predicate NeedsService(spec: TargetSpec) {
    |spec.ports| > 0
  }

  /** Less than `timeout` has passed since `stamp`. */
  predicate Recent(now: int, stamp: Stamp, timeout: int) {
    stamp.At? && now - stamp.time < timeout
  }

  /** More than `timeout` has passed since `stamp`. */
  predicate Aged(now: int, stamp: Stamp, timeout: int) {
    stamp.At? ==> now - stamp.time > timeout
  }

  /** The sum of the traffic shares of a list of releases. */
  function Total(rs: seq<Release>): int {
    if rs == [] then 0 else Total(rs[..|rs| - 1]) + rs[|rs| - 1].traffic
  }

  lemma {:induction false} SameTotals(rs: seq<Release>, ss: seq<Release>)
    requires |rs| == |ss| && forall i :: 0 <= i < |rs| ==> rs[i].traffic == ss[i].traffic
    ensures Total(rs) == Total(ss)
  {
    if rs != [] {
      SameTotals(rs[..|rs| - 1], ss[..|ss| - 1]);
    }
  }

  ghost predicate NoDuplicates<T>(s: seq<T>) {
    forall i, j :: 0 <= i < j < |s| ==> s[i] != s[j]
  }

  /** `out` is what a filter leaves of `s`, in order: `at` lists the places of exactly the elements kept. */
  ghost predicate Filtered<T(!new)>(s: seq<T>, keep: T -> bool, out: seq<T>, at: seq<nat>) {
    && |at| == |out|
    && (forall j :: 0 <= j < |at| ==> at[j] < |s| && out[j] == s[at[j]])
    && (forall i, j :: 0 <= i < j < |at| ==> at[i] < at[j])
    && forall i: nat :: i < |s| ==> (i in at <==> keep(s[i]))
  }

  /** Filtering one element more. */
  lemma FilteredOneMore<T(!new)>(s: seq<T>, x: T, keep: T -> bool, out: seq<T>, at: seq<nat>)
    requires Filtered(s, keep, out, at)
    ensures keep(x) ==> Filtered(s + [x], keep, out + [x], at + [|s|])
    ensures !keep(x) ==> Filtered(s + [x], keep, out, at)
  {
    assert forall i: nat :: i in at ==> i < |s|;
    assert forall i: nat :: i in at + [|s|] <==> i in at || i == |s|;
  }
}
