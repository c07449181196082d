/**
  Who gets what share through the routes of an app target: destination by destination, read off the virtual
  service alone.
 */
module Splits {
  import opened Model
  import opened Routing
  import Sorting

  // ---------- Serving releases ----------

  /** The releases routed to are exactly those with a positive share, in order. */
  lemma {:induction false} ServingReleases(rs: seq<Release>) returns (at: seq<nat>)
    ensures Filtered(rs, (r: Release) => r.traffic > 0, WithTraffic(rs), at)
  {
    at := [];
    if rs != [] {
      hide Filtered;
      var rest, last := rs[..|rs| - 1], rs[|rs| - 1];
      var before := ServingReleases(rest);
      FilteredOneMore(rest, last, (r: Release) => r.traffic > 0, WithTraffic(rest), before);
      assert rs == rest + [last];
      at := if last.traffic > 0 then before + [|rest|] else before;
    }
  }

  // ---------- The external route ----------

  predicate External(route: Route) {
    route.matches != [] && route.matches[0].gateway == IngressGateway
  }

  ghost predicate FirstNamed(ports: seq<Port>, wanted: string, k: int) {
    0 <= k < |ports| && ports[k].name == wanted && forall j :: 0 <= j < k ==> ports[j].name != wanted
  }

  ghost predicate FirstUsed(ports: seq<Port>, k: int) {
    0 <= k < |ports| && ports[k].number != 0 && forall j :: 0 <= j < k ==> ports[j].number == 0
  }

  /** External traffic goes to port `p`: the first one with the wanted name, or when none has it the first
      non-zero one, or when there is none of these nowhere, which is port 0. */
  ghost predicate GoesTo(ports: seq<Port>, wanted: string, p: int) {
    if exists k :: FirstNamed(ports, wanted, k) then exists k :: FirstNamed(ports, wanted, k) && p == ports[k].number
    else if exists k :: FirstUsed(ports, k) then exists k :: FirstUsed(ports, k) && p == ports[k].number
    else p == 0
  }

  lemma IngressPortIs(ports: seq<Port>, wanted: string, p: int)
    ensures GoesTo(ports, wanted, p) <==> p == IngressPort(ports, wanted)
  {
    hide IngressPort;
    IngressPortChoice(ports, wanted);
    NamedOrNot(ports, wanted);
    UsedOrNot(ports);
    if forall k :: !FirstNamed(ports, wanted, k) && !FirstUsed(ports, k) {
      NoPort(ports, wanted);
    }
  }

  lemma {:induction false} NamedOrNot(ports: seq<Port>, wanted: string)
    ensures (exists k :: FirstNamed(ports, wanted, k)) || forall j :: 0 <= j < |ports| ==> ports[j].name != wanted
  {
    if ports != [] {
      var last := |ports| - 1;
      NamedOrNot(ports[..last], wanted);
      if k :| FirstNamed(ports[..last], wanted, k) {
        assert FirstNamed(ports, wanted, k);
      } else if ports[last].name == wanted {
        assert forall j :: 0 <= j < last ==> ports[..last][j].name != wanted;
        assert FirstNamed(ports, wanted, last);
      }
    }
  }

  lemma {:induction false} UsedOrNot(ports: seq<Port>)
    ensures (exists k :: FirstUsed(ports, k)) || forall j :: 0 <= j < |ports| ==> ports[j].number == 0
  {
    if ports != [] {
      var last := |ports| - 1;
      UsedOrNot(ports[..last]);
      if k :| FirstUsed(ports[..last], k) {
        assert FirstUsed(ports, k);
      } else if ports[last].number != 0 {
        assert forall j :: 0 <= j < last ==> ports[..last][j].number == 0;
        assert FirstUsed(ports, last);
      }
    }
  }

  lemma {:induction false} NoPort(ports: seq<Port>, wanted: string)
    requires forall j :: 0 <= j < |ports| ==> ports[j].name != wanted && ports[j].number == 0
    ensures IngressPort(ports, wanted) == 0
  {
    if ports != [] {
      NoPort(ports[1..], wanted);
    }
  }

  /** One destination for each release, with its name and its share, on one host and port. */
  ghost predicate Splits(route: Route, host: string, port: int, rs: seq<Release>) {
    && |route.destinations| == |rs|
    && forall j :: 0 <= j < |rs| ==> route.destinations[j] == Destination(host, port, rs[j].meta.name, rs[j].traffic)
  }

  /** The matches are a prefix for each of the paths but the root, and everything if there are no paths or the
      root is one, all of them at the ingress gateway's port 80. */
  ghost predicate MatchesPaths(matches: seq<Match>, paths: seq<string>) {
    && (forall i :: 0 <= i < |matches| ==> matches[i].gateway == IngressGateway && matches[i].port == 80)
    && (forall path :: Match(IngressGateway, 80, Some(path)) in matches <==> path in paths && path != "/")
    && (Match(IngressGateway, 80, None) in matches <==> paths == [] || "/" in paths)
  }

  lemma {:induction false} GatewayOfPaths(paths: seq<string>)
    ensures forall i :: 0 <= i < |PathMatches(paths)| ==>
      PathMatches(paths)[i].gateway == IngressGateway && PathMatches(paths)[i].port == 80
  {
    if paths != [] {
      GatewayOfPaths(paths[..|paths| - 1]);
    }
  }

  lemma MatchesArePaths(paths: seq<string>)
    ensures MatchesPaths(IngressMatches(paths), paths) && IngressMatches(paths) != []
  {
    GatewayOfPaths(paths);
    forall path { IngressMatchesPaths(paths, path); }
  }

  /**
    External traffic: there is a route for it exactly when the app has an ingress and a port for it to go to. It
    is the last route, matches the paths of the ingress, and has one destination for each serving release, with
    its own name and its own share.
   */
  ghost predicate ExternalAsSplit(spec: TargetSpec, host: string, rs: seq<Release>, routes: seq<Route>) {
    && (forall i :: 0 <= i < |routes| && External(routes[i]) ==> i == |routes| - 1 && spec.ingress.Some?)
    && (spec.ingress.Some? ==>
      exists port :: GoesTo(spec.ports, spec.ingress.value.port, port) &&
        if port == 0 then forall i :: 0 <= i < |routes| ==> !External(routes[i])
        else
          && routes != [] && External(routes[|routes| - 1])
          && MatchesPaths(routes[|routes| - 1].matches, spec.ingress.value.paths)
          && Splits(routes[|routes| - 1], host, port, rs))
  }

  lemma ExternalSplit(spec: TargetSpec, host: string, rs: seq<Release>)
    ensures ExternalAsSplit(spec, host, rs, Routes(spec, host, rs))
  {
    hide RoutedPorts, IngressPort, IngressMatches, OnPort, GoesTo, MatchesPaths;
    var routes := Routes(spec, host, rs);
    var n := |RoutedPorts(rs)|;
    assert forall i :: 0 <= i < n ==> !External(routes[i]);
    if spec.ingress.Some? {
      var ingress := spec.ingress.value;
      var port := IngressPort(spec.ports, ingress.port);
      IngressPortIs(spec.ports, ingress.port, port);
      MatchesArePaths(ingress.paths);
      MatchesAtIngress(ingress.paths);
      assert port != 0 ==> routes[n] == Route(IngressMatches(ingress.paths), Destinations(host, port, rs));
    }
  }

  lemma MatchesAtIngress(paths: seq<string>)
    ensures forall i :: 0 <= i < |IngressMatches(paths)| ==> IngressMatches(paths)[i].gateway == IngressGateway
  {
    GatewayOfPaths(paths);
  }

  // ---------- Internal routes ----------

  /** How often port `p` is on the list. */
  ghost function PortCount(ports: seq<Port>, p: int): nat {
    |set i: nat | i < |ports| && ports[i].number == p|
  }

  lemma {:induction false} ExposuresAreCounted(ports: seq<Port>, p: int)
    ensures Exposures(ports, p) == PortCount(ports, p)
  {
    CountOfNumber(ports, p);
    PlacesOfPort(Numbers(ports), p);
    var places := set i: nat | i < |Numbers(ports)| && Numbers(ports)[i] == p;
    assert places == set i: nat | i < |ports| && ports[i].number == p;
  }

  /** `from` names the releases behind the destinations of port `p`: each as often as it exposes the port, in
      the order of the list. */
  ghost predicate Behind(rs: seq<Release>, p: int, from: seq<nat>) {
    && (forall j :: 0 <= j < |from| ==> from[j] < |rs|)
    && (forall i, j :: 0 <= i < j < |from| ==> from[i] <= from[j])
    && forall k: nat :: k < |rs| ==> multiset(from)[k] == PortCount(rs[k].meta.ports, p)
  }

  /** The route of port `p` inside the mesh: a destination with name and share for each of `from`. */
  ghost predicate MeshRoute(route: Route, host: string, p: int, rs: seq<Release>, from: seq<nat>) {
    && route.matches == [Match(Mesh, p, None)]
    && |route.destinations| == |from|
    && forall j :: 0 <= j < |from| && from[j] < |rs| ==>
      route.destinations[j] == Destination(host, p, rs[from[j]].meta.name, rs[from[j]].traffic)
  }

  function Fill(k: nat, n: nat): (s: seq<nat>)
    ensures |s| == n && forall i :: 0 <= i < n ==> s[i] == k
  {
    seq(n, i => k)
  }

  lemma {:induction false} CountOfFill(k: nat, n: nat)
    ensures forall x: nat :: multiset(Fill(k, n))[x] == if x == k then n else 0
  {
    if n > 0 {
      assert Fill(k, n) == Fill(k, n - 1) + [k];
      CountOfFill(k, n - 1);
    }
  }

  lemma {:induction false} SourcesOfPort(rs: seq<Release>, p: int) returns (from: seq<nat>)
    ensures Behind(rs, p, from) && |from| == |OnPort(rs, p)|
    ensures forall j :: 0 <= j < |from| ==> OnPort(rs, p)[j] == rs[from[j]]
  {
    hide Behind, PortCount;
    from := [];
    if rs == [] {
      BehindNothing(p);
    } else {
      var last := |rs| - 1;
      var before := SourcesOfPort(rs[..last], p);
      var n := Exposures(rs[last].meta.ports, p);
      from := before + Fill(last, n);
      ExposuresAreCounted(rs[last].meta.ports, p);
      BehindOneMore(rs, p, before, n);
      BehindIsInside(rs[..last], p, before);
      assert forall j :: 0 <= j < |before| ==> rs[from[j]] == rs[..last][before[j]];
    }
  }

  lemma BehindNothing(p: int)
    ensures Behind([], p, [])
  {
  }

  lemma BehindIsInside(rs: seq<Release>, p: int, from: seq<nat>)
    requires Behind(rs, p, from)
    ensures forall j :: 0 <= j < |from| ==> from[j] < |rs|
  {
  }

  lemma BehindOneMore(rs: seq<Release>, p: int, before: seq<nat>, n: nat)
    requires rs != [] && Behind(rs[..|rs| - 1], p, before) && n == PortCount(rs[|rs| - 1].meta.ports, p)
    ensures Behind(rs, p, before + Fill(|rs| - 1, n))
  {
    hide PortCount;
    var last := |rs| - 1;
    var from: seq<nat> := before + Fill(last, n);
    CountOfFill(last, n);
    NoneBeyond(before, last);
    forall k: nat | k < |rs| ensures multiset(from)[k] == PortCount(rs[k].meta.ports, p) {
      assert multiset(from)[k] == multiset(before)[k] + multiset(Fill(last, n))[k];
      assert k < last ==> rs[..last][k] == rs[k];
    }
  }

  lemma NoneBeyond(from: seq<nat>, k: nat)
    requires forall j :: 0 <= j < |from| ==> from[j] < k
    ensures multiset(from)[k] == 0
  {
    assert k !in from;
  }

  /** The places of the routes for port `p` inside the mesh. */
  ghost function MeshRoutes(routes: seq<Route>, p: int): set<nat> {
    set i: nat | i < |routes| && routes[i].matches == [Match(Mesh, p, None)]
  }

  lemma {:induction false} PlacesOfPort(ports: seq<int>, p: int)
    ensures |set i: nat | i < |ports| && ports[i] == p| == multiset(ports)[p]
  {
    if ports != [] {
      var last := |ports| - 1;
      PlacesOfPort(ports[..last], p);
      assert ports == ports[..last] + [ports[last]];
      var before, now := set i: nat | i < last && ports[..last][i] == p, set i: nat | i < |ports| && ports[i] == p;
      assert now == if ports[last] == p then before + {last} else before;
    }
  }

  /** Internal traffic to port `p`: as many routes as the releases expose the port, each of them with a destination
      for every such exposure, with the release's own name and its own share. */
  ghost predicate InternalAsSplit(host: string, rs: seq<Release>, routes: seq<Route>, p: int) {
    exists from :: Behind(rs, p, from) && |MeshRoutes(routes, p)| == |from|
      && forall i :: i in MeshRoutes(routes, p) ==> MeshRoute(routes[i], host, p, rs, from)
  }

  lemma InternalSplit(spec: TargetSpec, host: string, rs: seq<Release>, p: int)
    ensures InternalAsSplit(host, rs, Routes(spec, host, rs), p)
  {
    hide RoutedPorts, IngressPort, IngressMatches, OnPort, Behind;
    var routes, ports := Routes(spec, host, rs), RoutedPorts(rs);
    var from := SourcesOfPort(rs, p);
    NotMesh(spec, host, rs);
    var places := set i: nat | i < |ports| && ports[i] == p;
    assert MeshRoutes(routes, p) == places;
    PlacesOfPort(ports, p);
    InternalPorts(rs);
    forall i | i in places ensures MeshRoute(routes[i], host, p, rs, from) {
      assert routes[i] == InternalRoute(host, p, rs);
    }
  }

  /** The routes after those for the mesh ports are external. */
  lemma NotMesh(spec: TargetSpec, host: string, rs: seq<Release>)
    ensures var routes, n := Routes(spec, host, rs), |RoutedPorts(rs)|;
      n <= |routes| && forall i, p :: n <= i < |routes| ==> routes[i].matches != [Match(Mesh, p, None)]
  {
    hide RoutedPorts, IngressPort, IngressMatches, OnPort;
    var routes, n := Routes(spec, host, rs), |RoutedPorts(rs)|;
    if spec.ingress.Some? {
      MatchesArePaths(spec.ingress.value.paths);
      MatchesAtIngress(spec.ingress.value.paths);
    }
    assert forall i :: n <= i < |routes| ==> External(routes[i]);
    forall i, p | n <= i < |routes| ensures routes[i].matches != [Match(Mesh, p, None)] {
      assert External(routes[i]);
    }
  }

  /** Every route is external or for a port inside the mesh, and the latter come in ascending order. */
  ghost predicate PortsAscend(routes: seq<Route>) {
    && (forall i :: 0 <= i < |routes| && !External(routes[i]) ==>
      |routes[i].matches| == 1 && routes[i].matches[0] == Match(Mesh, routes[i].matches[0].port, None))
    && forall i, j :: 0 <= i < j < |routes| && !External(routes[i]) && !External(routes[j]) ==>
      routes[i].matches != [] && routes[j].matches != [] && routes[i].matches[0].port <= routes[j].matches[0].port
  }

  lemma PortsInOrder(spec: TargetSpec, host: string, rs: seq<Release>)
    ensures PortsAscend(Routes(spec, host, rs))
  {
    hide RoutedPorts, IngressPort, IngressMatches, OnPort;
    InternalPorts(rs);
    if spec.ingress.Some? {
      MatchesArePaths(spec.ingress.value.paths);
      MatchesAtIngress(spec.ingress.value.paths);
    }
  }

  /**
    The split of all routes: external traffic and the traffic inside the mesh, port by port, go to the serving
    releases by their shares, and there are no other routes.
   */
  ghost predicate SplitByShares(spec: TargetSpec, host: string, rs: seq<Release>, routes: seq<Route>) {
    && ExternalAsSplit(spec, host, rs, routes)
    && (forall p :: InternalAsSplit(host, rs, routes, p))
    && PortsAscend(routes)
  }

  lemma RoutesSplitByShares(spec: TargetSpec, host: string, rs: seq<Release>)
    ensures SplitByShares(spec, host, rs, Routes(spec, host, rs))
  {
    hide Routes, ExternalAsSplit, InternalAsSplit, PortsAscend;
    ExternalSplit(spec, host, rs);
    PortsInOrder(spec, host, rs);
    forall p { InternalSplit(spec, host, rs, p); }
  }
}
