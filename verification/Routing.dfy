/**
  Turning traffic shares into routes: the virtual service and the destination rule of an app target.
 */
module Routing {
  import opened Model
  import opened Rollout
  import opened StepLaws
  import Selection
  import Sorting

  datatype Gateway = Mesh | IngressGateway

  datatype Match = Match(gateway: Gateway, port: int, prefix: Option<string>)

  datatype Destination = Destination(host: string, port: int, subset: string, weight: int)

  datatype Route = Route(matches: seq<Match>, destinations: seq<Destination>)

  // ---------- What the routes are made of ----------

  /** The releases that get traffic. */
  function WithTraffic(rs: seq<Release>): seq<Release> {
    if rs == [] then []
    else WithTraffic(rs[..|rs| - 1]) + (if rs[|rs| - 1].traffic > 0 then [rs[|rs| - 1]] else [])
  }

  /** All ports the releases expose, in order and with repetitions. */
  function ExposedPorts(rs: seq<Release>): seq<int> {
    if rs == [] then [] else ExposedPorts(rs[..|rs| - 1]) + Numbers(rs[|rs| - 1].meta.ports)
  }

  function Numbers(ports: seq<Port>): (out: seq<int>)
    ensures |out| == |ports| && forall i :: 0 <= i < |ports| ==> out[i] == ports[i].number
  {
    seq(|ports|, i requires 0 <= i < |ports| => ports[i].number)
  }

  /** How often a release exposes a port. */
  function Exposures(ports: seq<Port>, p: int): nat {
    if ports == [] then 0
    else Exposures(ports[..|ports| - 1], p) + (if ports[|ports| - 1].number == p then 1 else 0)
  }

  function Repeat(r: Release, n: nat): (out: seq<Release>)
    ensures |out| == n && forall i :: 0 <= i < n ==> out[i] == r
  {
    seq(n, i => r)
  }

  /** The releases exposing a port, each as often as it does. */
  function OnPort(rs: seq<Release>, p: int): (out: seq<Release>)
    ensures forall i :: 0 <= i < |out| ==> out[i] in rs
  {
    if rs == [] then []
    else OnPort(rs[..|rs| - 1], p) + Repeat(rs[|rs| - 1], Exposures(rs[|rs| - 1].meta.ports, p))
  }

  function Destinations(host: string, port: int, rs: seq<Release>): (out: seq<Destination>)
    ensures |out| == |rs|
    ensures forall i :: 0 <= i < |rs| ==> out[i] == Destination(host, port, rs[i].meta.name, rs[i].traffic)
  {
    seq(|rs|, i requires 0 <= i < |rs| => Destination(host, port, rs[i].meta.name, rs[i].traffic))
  }

  function InternalRoute(host: string, port: int, rs: seq<Release>): Route {
    Route([Match(Mesh, port, None)], Destinations(host, port, OnPort(rs, port)))
  }

  predicate Ascending(x: int, y: int) {
    x < y
  }

  function RoutedPorts(rs: seq<Release>): seq<int> {
    Sorting.Sort(ExposedPorts(rs), Ascending)
  }

  function InternalRoutes(host: string, ports: seq<int>, rs: seq<Release>): (out: seq<Route>)
    ensures |out| == |ports| && forall i :: 0 <= i < |ports| ==> out[i] == InternalRoute(host, ports[i], rs)
  {
    seq(|ports|, i requires 0 <= i < |ports| => InternalRoute(host, ports[i], rs))
  }

  /** The port ingress traffic goes to: the first one with the wanted name, or else the first non-zero one. */
  function IngressPort(ports: seq<Port>, wanted: string): int {
    if ports == [] then 0
    else if ports[0].name == wanted then ports[0].number
    else
      var rest := ports[1..];
      if ports[0].number == 0 || exists i :: 0 <= i < |rest| && rest[i].name == wanted then IngressPort(rest, wanted)
      else ports[0].number
  }

  function PathMatches(paths: seq<string>): seq<Match> {
    if paths == [] then []
    else
      var path := paths[|paths| - 1];
      PathMatches(paths[..|paths| - 1]) + (if path == "/" then [] else [Match(IngressGateway, 80, Some(path))])
  }

  function IngressMatches(paths: seq<string>): seq<Match> {
    PathMatches(paths) + (if paths == [] || "/" in paths then [Match(IngressGateway, 80, None)] else [])
  }

  function ExternalRoutes(spec: TargetSpec, host: string, rs: seq<Release>): seq<Route> {
    match spec.ingress
    case None => []
    case Some(ingress) =>
      var port := IngressPort(spec.ports, ingress.port);
      if port == 0 then [] else [Route(IngressMatches(ingress.paths), Destinations(host, port, rs))]
  }

  function Routes(spec: TargetSpec, host: string, rs: seq<Release>): seq<Route> {
    InternalRoutes(host, RoutedPorts(rs), rs) + ExternalRoutes(spec, host, rs)
  }

  // ---------- Building them ----------

  method FilterWithTraffic(rs: seq<Release>) returns (out: seq<Release>)
    ensures out == WithTraffic(rs)
  {
    out := [];
    for i := 0 to |rs|
      invariant out == WithTraffic(rs[..i])
    {
      assert rs[..i + 1][..i] == rs[..i];
      if rs[i].traffic > 0 {
        out := out + [rs[i]];
      }
    }
    assert rs[..|rs|] == rs;
  }

  /** One subset for each release. */
  function Subsets(rs: seq<Release>): (out: seq<string>)
    ensures |out| == |rs| && forall i :: 0 <= i < |rs| ==> out[i] == rs[i].meta.name
  {
    seq(|rs|, i requires 0 <= i < |rs| => rs[i].meta.name)
  }

  /** The subsets the destination rule declares. */
  method NewDestinationRule(rs: seq<Release>) returns (subsets: seq<string>)
    ensures subsets == Subsets(rs)
  {
    subsets := [];
    for i := 0 to |rs|
      invariant subsets == Subsets(rs)[..i]
    {
      subsets := subsets + [rs[i].meta.name];
    }
  }

  function Lookup(byPort: map<int, seq<Release>>, p: int): seq<Release> {
    if p in byPort then byPort[p] else []
  }

  /** The releases found under each port once the first `i` ports of `r` are added to those of `rs`. */
  ghost function OnPortSoFar(rs: seq<Release>, r: Release, i: nat, p: int): seq<Release>
    requires i <= |r.meta.ports|
  {
    OnPort(rs, p) + Repeat(r, Exposures(r.meta.ports[..i], p))
  }

  lemma OnPortOneMore(rs: seq<Release>, r: Release, i: nat, p: int)
    requires i < |r.meta.ports|
    ensures OnPortSoFar(rs, r, i + 1, p) ==
      if r.meta.ports[i].number == p then OnPortSoFar(rs, r, i, p) + [r] else OnPortSoFar(rs, r, i, p)
  {
    assert r.meta.ports[..i + 1][..i] == r.meta.ports[..i];
  }

  lemma OnPortAppend(rs: seq<Release>, r: Release, p: int)
    ensures OnPortSoFar(rs, r, 0, p) == OnPort(rs, p)
    ensures OnPortSoFar(rs, r, |r.meta.ports|, p) == OnPort(rs + [r], p)
  {
    assert (rs + [r])[..|rs|] == rs;
    assert r.meta.ports[..|r.meta.ports|] == r.meta.ports;
  }

  /** Files a release under each port it exposes. */
  method AddPorts(r: Release, ports: seq<int>, byPort: map<int, seq<Release>>, ghost rs: seq<Release>)
    returns (ports': seq<int>, byPort': map<int, seq<Release>>)
    requires forall p :: Lookup(byPort, p) == OnPort(rs, p)
    ensures ports' == ports + Numbers(r.meta.ports)
    ensures forall p :: Lookup(byPort', p) == OnPort(rs + [r], p)
  {
    hide OnPort, OnPortSoFar;
    ports', byPort' := ports, byPort;
    forall p { OnPortAppend(rs, r, p); }
    for i := 0 to |r.meta.ports|
      invariant ports' == ports + Numbers(r.meta.ports)[..i]
      invariant forall p :: Lookup(byPort', p) == OnPortSoFar(rs, r, i, p)
    {
      ghost var found := byPort';
      var port := r.meta.ports[i].number;
      byPort' := byPort'[port := Lookup(byPort', port) + [r]];
      ports' := ports' + [port];
      forall p ensures Lookup(byPort', p) == OnPortSoFar(rs, r, i + 1, p) {
        OnPortOneMore(rs, r, i, p);
        assert Lookup(found, p) == OnPortSoFar(rs, r, i, p);
      }
    }
  }

  method CollectPorts(rs: seq<Release>) returns (ports: seq<int>, byPort: map<int, seq<Release>>)
    ensures ports == ExposedPorts(rs)
    ensures forall p :: Lookup(byPort, p) == OnPort(rs, p)
  {
    hide Lookup, OnPort;
    byPort, ports := map[], [];
    assert forall p :: Lookup(byPort, p) == OnPort(rs[..0], p) by {
      NoPorts(rs);
    }
    for i := 0 to |rs|
      invariant ports == ExposedPorts(rs[..i])
      invariant forall p :: Lookup(byPort, p) == OnPort(rs[..i], p)
    {
      assert rs[..i + 1] == rs[..i] + [rs[i]];
      assert rs[..i + 1][..i] == rs[..i];
      ports, byPort := AddPorts(rs[i], ports, byPort, rs[..i]);
    }
    assert rs[..|rs|] == rs;
  }

  lemma NoPorts(rs: seq<Release>)
    ensures forall p :: Lookup(map[], p) == OnPort(rs[..0], p)
  {
  }

  method FindIngressPort(ports: seq<Port>, wanted: string) returns (targetPort: int)
    ensures targetPort == IngressPort(ports, wanted)
  {
    targetPort := 0;
    for i := 0 to |ports|
      invariant forall j :: 0 <= j < i ==> ports[j].name != wanted
      invariant IngressPort(ports, wanted) ==
        if targetPort != 0 && (forall j :: i <= j < |ports| ==> ports[j].name != wanted) then targetPort
        else IngressPort(ports[i..], wanted)
    {
      assert ports[i..][1..] == ports[i + 1..];
      if targetPort == 0 {
        targetPort := ports[i].number;
      }
      if ports[i].name == wanted {
        targetPort := ports[i].number;
        break;
      }
    }
  }

  method NewIngressMatches(paths: seq<string>) returns (matches: seq<Match>)
    ensures matches == IngressMatches(paths)
  {
    matches := [];
    var defaultRoute := |paths| == 0;
    for i := 0 to |paths|
      invariant matches == PathMatches(paths[..i])
      invariant defaultRoute == (|paths| == 0 || "/" in paths[..i])
    {
      assert paths[..i + 1][..i] == paths[..i];
      if paths[i] == "/" {
        defaultRoute := true;
        continue;
      }
      matches := matches + [Match(IngressGateway, 80, Some(paths[i]))];
    }
    assert paths[..|paths|] == paths;
    if defaultRoute {
      matches := matches + [Match(IngressGateway, 80, None)];
    }
  }

  method NewVirtualService(spec: TargetSpec, host: string, rs: seq<Release>) returns (routes: seq<Route>)
    ensures routes == Routes(spec, host, rs)
  {
    hide OnPort, Sorting.Sort, ExposedPorts, IngressPort, IngressMatches;
    var ports, byPort := CollectPorts(rs);
    ports := Sorting.Sort(ports, Ascending);

    routes := [];
    for i := 0 to |ports|
      invariant routes == InternalRoutes(host, ports, rs)[..i]
    {
      var portReleases := Lookup(byPort, ports[i]);
      routes := routes + [Route([Match(Mesh, ports[i], None)], Destinations(host, ports[i], portReleases))];
    }

    if spec.ingress.Some? {
      var targetPort := FindIngressPort(spec.ports, spec.ingress.value.port);
      var matches := NewIngressMatches(spec.ingress.value.paths);
      if targetPort != 0 {
        routes := routes + [Route(matches, Destinations(host, targetPort, rs))];
      }
    }
  }

  // ---------- What the routes promise ----------

  function Weight(destinations: seq<Destination>): int {
    if destinations == [] then 0
    else Weight(destinations[..|destinations| - 1]) + destinations[|destinations| - 1].weight
  }

  lemma {:induction false} WeightIsTotal(host: string, port: int, rs: seq<Release>)
    ensures Weight(Destinations(host, port, rs)) == Total(rs)
  {
    if rs != [] {
      var last := |rs| - 1;
      assert Destinations(host, port, rs)[..last] == Destinations(host, port, rs[..last]);
      WeightIsTotal(host, port, rs[..last]);
    }
  }

  /** Routing never points at a subset the destination rule does not declare. */
  lemma SubsetsAreDeclared(spec: TargetSpec, host: string, rs: seq<Release>, i: nat, j: nat)
    requires i < |Routes(spec, host, rs)| && j < |Routes(spec, host, rs)[i].destinations|
    ensures Routes(spec, host, rs)[i].destinations[j].subset in Subsets(rs)
  {
    hide RoutedPorts, IngressPort, IngressMatches;
    var route := Routes(spec, host, rs)[i];
    if i < |RoutedPorts(rs)| {
      var port := RoutedPorts(rs)[i];
      assert route == InternalRoute(host, port, rs);
      assert OnPort(rs, port)[j] in rs;
      var k :| 0 <= k < |rs| && rs[k] == OnPort(rs, port)[j];
      assert route.destinations[j].subset == Subsets(rs)[k];
    } else {
      assert route == ExternalRoutes(spec, host, rs)[i - |RoutedPorts(rs)|];
      assert route.destinations[j].subset == Subsets(rs)[j];
    }
  }

  /** Internal routes come in ascending port order, one for each exposure of a port by a release. */
  lemma InternalPorts(rs: seq<Release>)
    ensures var ports := RoutedPorts(rs);
      && (forall i, j :: 0 <= i < j < |ports| ==> ports[i] <= ports[j])
      && forall p :: multiset(ports)[p] == |OnPort(rs, p)|
  {
    Sorting.SortIsStable(ExposedPorts(rs), Ascending);
    forall p ensures multiset(ExposedPorts(rs))[p] == |OnPort(rs, p)| {
      CountOfPort(rs, p);
    }
  }

  lemma {:induction false} CountOfPort(rs: seq<Release>, p: int)
    ensures multiset(ExposedPorts(rs))[p] == |OnPort(rs, p)|
  {
    if rs != [] {
      var last := |rs| - 1;
      CountOfPort(rs[..last], p);
      CountOfNumber(rs[last].meta.ports, p);
    }
  }

  lemma {:induction false} CountOfNumber(ports: seq<Port>, p: int)
    ensures multiset(Numbers(ports))[p] == Exposures(ports, p)
  {
    if ports != [] {
      var last := |ports| - 1;
      assert Numbers(ports) == Numbers(ports[..last]) + [ports[last].number];
      CountOfNumber(ports[..last], p);
    }
  }

  /** A release's share counts once for each time it exposes the port. */
  function ExposedTraffic(rs: seq<Release>, p: int): int {
    if rs == [] then 0
    else
      var r := rs[|rs| - 1];
      ExposedTraffic(rs[..|rs| - 1], p) + r.traffic * Exposures(r.meta.ports, p)
  }

  lemma {:induction false} TotalOfRepeat(r: Release, n: nat)
    ensures Total(Repeat(r, n)) == r.traffic * n
  {
    if n > 0 {
      assert Repeat(r, n)[..n - 1] == Repeat(r, n - 1);
      TotalOfRepeat(r, n - 1);
      assert r.traffic * (n - 1) + r.traffic == r.traffic * n;
    }
  }

  lemma {:induction false} TotalOnPort(rs: seq<Release>, p: int)
    ensures Total(OnPort(rs, p)) == ExposedTraffic(rs, p)
  {
    if rs != [] {
      var last := |rs| - 1;
      var n := Exposures(rs[last].meta.ports, p);
      TotalOnPort(rs[..last], p);
      TotalOfRepeat(rs[last], n);
      Selection.TotalOfParts(OnPort(rs[..last], p), Repeat(rs[last], n));
    }
  }

  lemma InternalWeight(host: string, p: int, rs: seq<Release>)
    ensures Weight(InternalRoute(host, p, rs).destinations) == ExposedTraffic(rs, p)
  {
    WeightIsTotal(host, p, OnPort(rs, p));
    TotalOnPort(rs, p);
  }

  lemma {:induction false} ExposedAtMostOnce(rs: seq<Release>, p: int)
    requires forall i :: 0 <= i < |rs| ==> rs[i].traffic > 0 && Exposures(rs[i].meta.ports, p) <= 1
    ensures ExposedTraffic(rs, p) <= Total(rs)
    ensures ExposedTraffic(rs, p) == Total(rs) <==>
      forall i :: 0 <= i < |rs| ==> Exposures(rs[i].meta.ports, p) == 1
  {
    if rs != [] {
      var last := |rs| - 1;
      ExposedAtMostOnce(rs[..last], p);
      assert forall i :: 0 <= i < last ==> rs[..last][i] == rs[i];
    }
  }

  /**
    When no release exposes the port twice, the weights of its internal route sum to 100 exactly when
    every traffic-carrying release exposes the port. So while two releases share the traffic, a port only
    one of them has is routed with less than 100.
   */
  lemma InternalRouteSums(host: string, p: int, rs: seq<Release>)
    requires Total(rs) == 100
    requires forall i :: 0 <= i < |rs| ==> rs[i].traffic > 0 && Exposures(rs[i].meta.ports, p) <= 1
    ensures Weight(InternalRoute(host, p, rs).destinations) == 100 <==>
      forall i :: 0 <= i < |rs| ==> Exposures(rs[i].meta.ports, p) == 1
  {
    hide ExposedTraffic, InternalRoute, Total, Weight, Exposures;
    InternalWeight(host, p, rs);
    ExposedAtMostOnce(rs, p);
  }

  lemma {:induction false} TrafficTotal(rs: seq<Release>)
    requires AllShares(rs)
    ensures Total(WithTraffic(rs)) == Total(rs)
    ensures forall i :: 0 <= i < |WithTraffic(rs)| ==> WithTraffic(rs)[i].traffic > 0 && WithTraffic(rs)[i] in rs
  {
    if rs != [] {
      var last := |rs| - 1;
      TrafficTotal(rs[..last]);
      Selection.TotalOfParts(WithTraffic(rs[..last]), if rs[last].traffic > 0 then [rs[last]] else []);
      assert [rs[last]][..0] == [];
    }
  }

  /**
    Routing refines the split: after an un-gated reconcile that leaves the shares in range, the external
    route, when there is one, sends exactly 100 percent to the traffic-carrying releases, provided the
    active release is among the ten newest.
   */
  lemma ExternalRouteSums(rs: seq<Release>, spec: TargetSpec, status: TargetStatus, now: int, host: string)
    requires Ungated(rs, spec, status, now)
    requires NextActive(rs, spec, status) < Selection.RELEASES_TO_KEEP
    requires AllShares(Step(rs, spec, status, now).releases)
    ensures var serving := WithTraffic(Selection.Routed(Step(rs, spec, status, now).releases));
      && Total(serving) == 100
      && forall i :: 0 <= i < |ExternalRoutes(spec, host, serving)| ==>
        Weight(ExternalRoutes(spec, host, serving)[i].destinations) == 100
  {
    hide Step, Ungated, NextActive, FirstDeployable, WithTraffic, Total, IngressPort, IngressMatches, Weight;
    Selection.RoutedTotal(rs, spec, status, now);
    var routed := Selection.Routed(Step(rs, spec, status, now).releases);
    TrafficTotal(routed);
    var serving := WithTraffic(routed);
    if spec.ingress.Some? {
      WeightIsTotal(host, IngressPort(spec.ports, spec.ingress.value.port), serving);
    }
  }

  /** Which port the external route goes to. */
  lemma {:induction false} IngressPortChoice(ports: seq<Port>, wanted: string)
    ensures forall k ::
      0 <= k < |ports| && ports[k].name == wanted && (forall j :: 0 <= j < k ==> ports[j].name != wanted) ==>
        IngressPort(ports, wanted) == ports[k].number
    ensures (forall j :: 0 <= j < |ports| ==> ports[j].name != wanted) ==>
      (forall k :: 0 <= k < |ports| && ports[k].number != 0 && (forall j :: 0 <= j < k ==> ports[j].number == 0) ==>
        IngressPort(ports, wanted) == ports[k].number)
  {
    if ports != [] {
      var rest := ports[1..];
      IngressPortChoice(rest, wanted);
      assert forall j :: 0 <= j < |rest| ==> rest[j] == ports[j + 1];
      forall k | 0 < k < |ports| && ports[k].name == wanted && (forall j :: 0 <= j < k ==> ports[j].name != wanted)
        ensures IngressPort(ports, wanted) == ports[k].number
      {
        assert rest[k - 1].name == wanted;
      }
      forall k | 0 < k < |ports| && ports[k].number != 0 && (forall j :: 0 <= j < k ==> ports[j].number == 0)
        && (forall j :: 0 <= j < |ports| ==> ports[j].name != wanted)
        ensures IngressPort(ports, wanted) == ports[k].number
      {
        assert rest[k - 1].number != 0;
      }
    }
  }

  /** The releases routed to are exactly those with a positive share. */
  lemma {:induction false} WithTrafficMembers(rs: seq<Release>, r: Release)
    ensures r in WithTraffic(rs) <==> r in rs && r.traffic > 0
  {
    if rs != [] {
      WithTrafficMembers(rs[..|rs| - 1], r);
    }
  }

  /** The external route matches exactly the configured paths, the root standing for everything, and always
      matches something. */
  lemma {:induction false} IngressMatchesPaths(paths: seq<string>, path: string)
    ensures Match(IngressGateway, 80, Some(path)) in IngressMatches(paths) <==> path in paths && path != "/"
    ensures Match(IngressGateway, 80, None) in IngressMatches(paths) <==> paths == [] || "/" in paths
    ensures IngressMatches(paths) != []
  {
    PathMatchesPaths(paths, path);
    if paths != [] && "/" !in paths {
      PathMatchesPaths(paths, paths[0]);
    }
  }

  lemma {:induction false} PathMatchesPaths(paths: seq<string>, path: string)
    ensures Match(IngressGateway, 80, Some(path)) in PathMatches(paths) <==> path in paths && path != "/"
    ensures Match(IngressGateway, 80, None) !in PathMatches(paths)
  {
    if paths != [] {
      PathMatchesPaths(paths[..|paths| - 1], path);
    }
  }
}
