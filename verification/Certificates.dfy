/**
  Choosing certificates for the hosts of an ingress, and what the load balancer listens on.
 */
module Certificates {
  import opened Model

  // ---------- Names ----------

  /** The index of the first dot, or the length of the name. */
  function FirstDot(s: string): (k: nat)
    ensures k <= |s| && '.' !in s[..k] && (k < |s| ==> s[k] == '.')
  {
    if s == "" || s[0] == '.' then 0
    else
      assert forall k: nat :: k <= |s| - 1 ==> s[..k + 1] == [s[0]] + s[1..][..k];
      1 + FirstDot(s[1..])
  }

  /** The labels of a name. */
  function Split(s: string): (parts: seq<string>)
    ensures parts != []
    decreases |s|
  {
    var k := FirstDot(s);
    if k == |s| then [s] else [s[..k]] + Split(s[k + 1..])
  }

  /** A name without its first label: what is left from the first dot on. */
  function Tail(s: string): string {
    s[FirstDot(s)..]
  }

  function FirstLabel(s: string): string {
    s[..FirstDot(s)]
  }

  function Join(parts: seq<string>): string
    requires parts != []
  {
    if |parts| == 1 then parts[0] else parts[0] + "." + Join(parts[1..])
  }

  lemma CutAtDot(s: string, k: nat)
    requires k < |s| && s[k] == '.'
    ensures s[k..] == "." + s[k + 1..] && s == s[..k] + "." + s[k + 1..]
  {
  }

  /** A dotted name is its first label, a dot, and the rest. */
  lemma Dotted(s: string)
    requires FirstDot(s) < |s|
    ensures var rest := s[FirstDot(s) + 1..];
      Split(s) == [FirstLabel(s)] + Split(rest) && Tail(s) == "." + rest && s == FirstLabel(s) + "." + rest
  {
    hide Split, FirstDot;
    CutAtDot(s, FirstDot(s));
    SplitDotted(s);
  }

  lemma SplitDotted(s: string)
    requires FirstDot(s) < |s|
    ensures Split(s) == [FirstLabel(s)] + Split(s[FirstDot(s) + 1..])
  {
    hide FirstDot;
  }

  lemma Plain(s: string)
    requires FirstDot(s) == |s|
    ensures Split(s) == [s] && Tail(s) == "" && FirstLabel(s) == s
  {
    hide FirstDot;
  }

  /** Joining the labels gives the name back, so different names have different labels. */
  lemma {:induction false} JoinOfSplit(s: string)
    ensures Join(Split(s)) == s
    ensures Split(s)[0] == FirstLabel(s)
    ensures Tail(s) == if |Split(s)| == 1 then "" else "." + Join(Split(s)[1..])
    decreases |s|
  {
    hide FirstDot, Split, FirstLabel, Tail;
    if FirstDot(s) < |s| {
      var rest := s[FirstDot(s) + 1..];
      JoinOfSplit(rest);
      Dotted(s);
      assert Split(s)[1..] == Split(rest);
      assert Join(Split(s)) == FirstLabel(s) + "." + rest;
    } else {
      Plain(s);
    }
  }

  /** The labels after the first one are equal exactly when the tails are. */
  lemma TailsAndLabels(s: string, t: string)
    requires |Split(s)| == |Split(t)|
    ensures Split(s)[1..] == Split(t)[1..] <==> Tail(s) == Tail(t)
  {
    JoinOfSplit(s);
    JoinOfSplit(t);
    if Tail(s) == Tail(t) && |Split(s)| > 1 {
      SplitOfTail(s);
      SplitOfTail(t);
    }
  }

  lemma SplitOfTail(s: string)
    requires |Split(s)| > 1
    ensures |Tail(s)| > 0 && Split(s)[1..] == Split(Tail(s)[1..])
  {
    var k := FirstDot(s);
    assert Tail(s)[1..] == s[k + 1..];
    assert Split(s)[1..] == Split(s[k + 1..]);
  }

  lemma WildcardOf(s: string)
    ensures FirstLabel("*." + s) == "*" && Split("*." + s) == ["*"] + Split(s)
  {
    var w := "*." + s;
    assert w[1..][0] == '.';
    assert FirstDot(w[1..]) == 0;
    assert FirstDot(w) == 1;
    assert w[2..] == s;
  }

  lemma SameTailSameCount(s: string, t: string)
    requires Tail(s) == Tail(t)
    ensures |Split(s)| == |Split(t)|
  {
    var j, k := FirstDot(s), FirstDot(t);
    if j < |s| {
      assert s[j + 1..] == Tail(s)[1..] && t[k + 1..] == Tail(t)[1..];
    }
  }

  /** A certificate covers a host if the names are equal, if it is the wildcard directly under the host, or
      if they differ in the first label only and the certificate's is a star. */
  predicate Covers(cert: string, host: string) {
    cert == host || cert == "*." + host || (FirstLabel(cert) == "*" && Tail(cert) == Tail(host))
  }

  /** Coverage, read off the labels. */
  lemma CoversByLabels(cert: string, host: string)
    ensures var p, q := Split(cert), Split(host);
      Covers(cert, host) <==>
        if |p| != |q| then cert == "*." + host
        else (p[0] == q[0] || p[0] == "*") && p[1..] == q[1..]
  {
    hide Split, FirstDot, Join;
    WildcardOf(host);
    if |Split(cert)| != |Split(host)| {
      if Tail(cert) == Tail(host) {
        SameTailSameCount(cert, host);
      }
    } else {
      TailsAndLabels(cert, host);
      JoinOfSplit(cert);
      JoinOfSplit(host);
      assert cert == FirstLabel(cert) + Tail(cert);
      assert host == FirstLabel(host) + Tail(host);
    }
  }

  method CertificateCovers(certDomain: string, domain: string) returns (covers: bool)
    ensures covers == Covers(certDomain, domain)
  {
    hide Covers, Split;
    var certParts, domainParts := Split(certDomain), Split(domain);
    CoversByLabels(certDomain, domain);
    if |certParts| != |domainParts| {
      return certDomain == "*." + domain;
    }
    for i := 0 to |certParts|
      invariant forall j :: 0 <= j < i ==> certParts[j] == domainParts[j] || (j == 0 && certParts[j] == "*")
    {
      if certParts[i] != domainParts[i] {
        if i == 0 && certParts[i] == "*" {
          continue;
        }
        assert i > 0 ==> certParts[1..][i - 1] != domainParts[1..][i - 1];
        return false;
      }
    }
    assert certParts[1..] == domainParts[1..];
    return true;
  }

  // ---------- Choosing ----------

  datatype Certificate = Certificate(domain: string, arn: string, expires: int)

  /** The covering certificate kept for a host after looking through the list. */
  function Best(certs: seq<Certificate>, host: string): Option<Certificate> {
    if certs == [] then None
    else
      var best, cert := Best(certs[..|certs| - 1], host), certs[|certs| - 1];
      if Covers(cert.domain, host) && (best.None? || cert.expires > best.value.expires) then Some(cert) else best
  }

  /** A host gets a certificate iff one covers it, and then a covering one that no other outlives, the
      first of those. */
  lemma {:induction false} BestLastsLongest(certs: seq<Certificate>, host: string)
    ensures Best(certs, host).None? <==> forall i :: 0 <= i < |certs| ==> !Covers(certs[i].domain, host)
    ensures Best(certs, host).Some? ==>
      exists k ::
        && 0 <= k < |certs| && Best(certs, host).value == certs[k] && Covers(certs[k].domain, host)
        && (forall i :: 0 <= i < |certs| && Covers(certs[i].domain, host) ==> certs[i].expires <= certs[k].expires)
        && forall i :: 0 <= i < k && Covers(certs[i].domain, host) ==> certs[i].expires < certs[k].expires
  {
    hide Covers;
    if certs != [] {
      var last := |certs| - 1;
      BestLastsLongest(certs[..last], host);
    }
  }

  method GetCertificatesForHosts(certs: seq<Certificate>, hosts: seq<string>)
    returns (chosen: map<string, Certificate>)
    ensures forall h :: h in chosen ==> h in hosts
    ensures forall h :: h in hosts ==> Best(certs, h) == if h in chosen then Some(chosen[h]) else None
  {
    chosen := map[];
    for i := 0 to |certs|
      invariant forall h :: h in chosen ==> h in hosts
      invariant forall h :: h in hosts ==> Best(certs[..i], h) == Held(chosen, h)
    {
      chosen := OfferCertificate(certs[i], hosts, chosen, certs[..i]);
      assert certs[..i + 1] == certs[..i] + [certs[i]];
    }
    assert certs[..|certs|] == certs;
  }

  function Held(chosen: map<string, Certificate>, h: string): Option<Certificate> {
    if h in chosen then Some(chosen[h]) else None
  }

  method OfferCertificate(
    cert: Certificate, hosts: seq<string>, before: map<string, Certificate>, ghost seen: seq<Certificate>)
    returns (chosen: map<string, Certificate>)
    requires forall h :: h in before ==> h in hosts
    requires forall h :: h in hosts ==> Best(seen, h) == Held(before, h)
    ensures forall h :: h in chosen ==> h in hosts
    ensures forall h :: h in hosts ==> Best(seen + [cert], h) == Held(chosen, h)
  {
    hide Covers, Best;
    chosen := before;
    for j := 0 to |hosts|
      invariant forall h :: h in chosen ==> h in hosts
      invariant forall h :: h in hosts ==>
        Held(chosen, h) == if h in hosts[..j] then Best(seen + [cert], h) else Best(seen, h)
    {
      var host := hosts[j];
      BestOfOneMore(seen, cert, host);
      var covers := CertificateCovers(cert.domain, host);
      if !covers {
        continue;
      }
      if host !in chosen || cert.expires > chosen[host].expires {
        chosen := chosen[host := cert];
      }
    }
  }

  lemma BestOfOneMore(seen: seq<Certificate>, cert: Certificate, host: string)
    ensures var best := Best(seen, host);
      var next := Best(seen + [cert], host);
      && next == (if Covers(cert.domain, host) && (best.None? || cert.expires > best.value.expires) then Some(cert) else best)
      && (next == best || next == Some(cert))
      && (best == Some(cert) ==> next == best)
  {
    assert (seen + [cert])[..|seen|] == seen;
  }

  // ---------- The load balancer ----------

  /** What an ingress request asks for. */
  datatype Request = Request(
    hosts: seq<string>, requireHttps: bool, grpc: bool, annotations: map<string, string>)

  datatype Listener = Http80 | Https443

  /** What the ingress is configured with; `custom` are the annotations taken over from a request. */
  datatype Balancer = Balancer(
    hosts: seq<string>, tlsHosts: seq<string>, arns: seq<string>, listeners: seq<Listener>, redirect: bool,
    custom: Option<map<string, string>>)

  /** The elements of `s` in the order of their first occurrence. */
  function Unique(s: seq<string>): (out: seq<string>)
    ensures NoDuplicates(out) && forall x :: x in out <==> x in s
  {
    if s == [] then []
    else
      var out := Unique(s[..|s| - 1]);
      if s[|s| - 1] in out then out else out + [s[|s| - 1]]
  }

  lemma UniqueAppend(s: seq<string>, x: string)
    ensures Unique(s + [x]) == if x in Unique(s) then Unique(s) else Unique(s) + [x]
  {
    assert (s + [x])[..|s|] == s;
  }

  function AllHosts(requests: seq<Request>): seq<string> {
    if requests == [] then [] else AllHosts(requests[..|requests| - 1]) + requests[|requests| - 1].hosts
  }

  /** Some request is for this host. */
  ghost predicate Requested(requests: seq<Request>, h: string) {
    exists i :: 0 <= i < |requests| && h in requests[i].hosts
  }

  lemma {:induction false} HostsOfRequests(requests: seq<Request>, h: string)
    ensures h in AllHosts(requests) <==> Requested(requests, h)
  {
    if requests != [] {
      var last := |requests| - 1;
      HostsOfRequests(requests[..last], h);
      if i :| 0 <= i < |requests| && h in requests[i].hosts && i != last {
        assert h in requests[..last][i].hosts;
      }
    }
  }

  /** The elements stay in the order of their first occurrence. */
  lemma {:induction false} FirstOccurrences(s: seq<string>, i: nat, j: nat)
    requires i < j < |Unique(s)|
    ensures exists p :: 0 <= p < |s| && s[p] == Unique(s)[i] && Unique(s)[j] !in s[..p]
  {
    var rest, out := s[..|s| - 1], Unique(s);
    if j < |Unique(rest)| {
      FirstOccurrences(rest, i, j);
      var p :| 0 <= p < |rest| && rest[p] == Unique(rest)[i] && Unique(rest)[j] !in rest[..p];
      assert s[..p] == rest[..p] && s[p] == rest[p];
    } else {
      assert out[i] in rest && out[j] !in rest;
      var p :| 0 <= p < |rest| && rest[p] == out[i];
      assert s[..p] == rest[..p] && s[p] == rest[p];
    }
  }

  /** The custom annotations after a request: they are replaced only when there are some already. */
  function TakeOver(custom: Option<map<string, string>>, annotations: map<string, string>): Option<map<string, string>> {
    if |annotations| != 0 && custom.Some? then Some(annotations) else custom
  }

  method CollectHosts(requests: seq<Request>)
    returns (hosts: seq<string>, requiresHttps: bool, custom: Option<map<string, string>>)
    ensures hosts == Unique(AllHosts(requests))
    ensures NoDuplicates(hosts) && forall h :: h in hosts <==> Requested(requests, h)
    ensures requiresHttps <==> exists i :: 0 <= i < |requests| && requests[i].requireHttps
    ensures custom == None
  {
    hide Unique, AllHosts, NoDuplicates, Requested;
    hosts, requiresHttps, custom := [], false, None;
    var hostsSeen: set<string> := {};
    assert requests[..0] == [];
    NoHosts();
    for i := 0 to |requests|
      invariant hosts == Unique(AllHosts(requests[..i]))
      invariant forall h :: h in hostsSeen <==> h in hosts
      invariant requiresHttps <==> exists j :: 0 <= j < i && requests[j].requireHttps
      invariant custom == None
    {
      OneMoreRequest(requests, i);
      hosts, hostsSeen := AddHosts(requests[i].hosts, hosts, hostsSeen, AllHosts(requests[..i]));
      if requests[i].requireHttps {
        requiresHttps := true;
      }
      custom := TakeOver(custom, requests[i].annotations);
    }
    assert requests[..|requests|] == requests;
    forall h { HostsOfRequests(requests, h); }
  }

  lemma NoHosts()
    ensures Unique(AllHosts([])) == []
  {
  }

  lemma OneMoreRequest(requests: seq<Request>, i: nat)
    requires i < |requests|
    ensures AllHosts(requests[..i + 1]) == AllHosts(requests[..i]) + requests[i].hosts
  {
    assert requests[..i + 1][..i] == requests[..i];
  }

  method AddHosts(added: seq<string>, before: seq<string>, seenBefore: set<string>, ghost all: seq<string>)
    returns (hosts: seq<string>, hostsSeen: set<string>)
    requires before == Unique(all) && forall h :: h in seenBefore <==> h in before
    ensures hosts == Unique(all + added) && forall h :: h in hostsSeen <==> h in hosts
  {
    hosts, hostsSeen := before, seenBefore;
    assert all + added[..0] == all;
    for j := 0 to |added|
      invariant hosts == Unique(all + added[..j])
      invariant forall h :: h in hostsSeen <==> h in hosts
    {
      assert all + added[..j + 1] == (all + added[..j]) + [added[j]];
      UniqueAppend(all + added[..j], added[j]);
      if added[j] !in hostsSeen {
        hostsSeen := hostsSeen + {added[j]};
        hosts := hosts + [added[j]];
      }
    }
    assert added[..|added|] == added;
  }

  /** The hosts that are served with TLS: those a certificate was found for, or all of them for gRPC. */
  method TlsHosts(hosts: seq<string>, chosen: map<string, Certificate>, grpc: bool) returns (tlsHosts: seq<string>)
    ensures forall h :: h in tlsHosts <==> h in hosts && (h in chosen || grpc)
    ensures NoDuplicates(hosts) ==> NoDuplicates(tlsHosts)
  {
    tlsHosts := [];
    for i := 0 to |hosts|
      invariant forall h :: h in tlsHosts <==> h in hosts[..i] && (h in chosen || grpc)
      invariant NoDuplicates(hosts) ==> NoDuplicates(tlsHosts)
    {
      if hosts[i] in chosen || grpc {
        tlsHosts := tlsHosts + [hosts[i]];
      }
    }
    assert hosts[..|hosts|] == hosts;
  }

  method CertificateArns(hosts: seq<string>, chosen: map<string, Certificate>) returns (arns: seq<string>)
    ensures NoDuplicates(arns)
    ensures forall a :: a in arns <==> exists h :: h in hosts && h in chosen && chosen[h].arn == a
  {
    arns := [];
    var seenCerts: set<string> := {};
    for i := 0 to |hosts|
      invariant NoDuplicates(arns) && forall a :: a in seenCerts <==> a in arns
      invariant forall a :: a in arns <==> exists h :: h in hosts[..i] && h in chosen && chosen[h].arn == a
    {
      var host := hosts[i];
      assert forall h :: h in hosts[..i + 1] <==> h in hosts[..i] || h == host;
      if host !in chosen {
        continue;
      }
      var arn := chosen[host].arn;
      if arn in seenCerts {
        continue;
      }
      seenCerts := seenCerts + {arn};
      arns := arns + [arn];
    }
    assert hosts[..|hosts|] == hosts;
  }

  /**
    The certificate and listener part of configuring the ingress. Each host is listed once and served by
    its best certificate; outside gRPC the TLS hosts are exactly the covered ones; the certificate list
    has no duplicates and is exactly the chosen certificates; HTTPS is listened on iff it is not empty,
    and HTTP iff the mode is not gRPC. No request's annotations are ever taken over.
   */
  method ConfigureIngress(requests: seq<Request>, certs: seq<Certificate>) returns (lb: Balancer)
    ensures var grpc := exists i :: 0 <= i < |requests| && requests[i].grpc;
      var https := exists i :: 0 <= i < |requests| && requests[i].requireHttps;
      && lb.hosts == Unique(AllHosts(requests))
      && NoDuplicates(lb.hosts) && (forall h :: h in lb.hosts <==> Requested(requests, h))
      && (forall h :: h in lb.tlsHosts <==> h in lb.hosts && (grpc || exists i :: 0 <= i < |certs| && Covers(certs[i].domain, h)))
      && NoDuplicates(lb.tlsHosts) && NoDuplicates(lb.arns)
      && (forall a :: a in lb.arns <==> exists h :: h in lb.hosts && Best(certs, h).Some? && Best(certs, h).value.arn == a)
      && (Https443 in lb.listeners <==> exists h, i :: h in lb.hosts && 0 <= i < |certs| && Covers(certs[i].domain, h))
      && (Http80 in lb.listeners <==> !grpc)
      && (lb.listeners == [Http80, Https443] || |lb.listeners| <= 1)
      && (lb.redirect <==> Https443 in lb.listeners && https && !grpc)
      && lb.custom == None
  {
    hide Covers, Best, Unique, AllHosts, Requested, NoDuplicates;
    var isGrpc := false;
    for i := 0 to |requests|
      invariant isGrpc <==> exists j :: 0 <= j < i && requests[j].grpc
    {
      if requests[i].grpc {
        isGrpc := true;
      }
    }
    var listeners: seq<Listener> := if isGrpc then [] else [Http80];
    var hosts, requiresHttps, custom := CollectHosts(requests);
    var chosen := GetCertificatesForHosts(certs, hosts);
    forall h | h in hosts
      ensures h in chosen <==> exists i :: 0 <= i < |certs| && Covers(certs[i].domain, h)
    {
      BestLastsLongest(certs, h);
    }
    var tlsHosts := TlsHosts(hosts, chosen, isGrpc);
    var arns := CertificateArns(hosts, chosen);
    assert arns != [] <==> exists h :: h in hosts && h in chosen by {
      if arns != [] {
        assert arns[0] in arns;
      }
      if h :| h in hosts && h in chosen {
        assert chosen[h].arn in arns;
      }
    }
    var redirect := false;
    if |arns| > 0 {
      listeners := listeners + [Https443];
      redirect := requiresHttps && !isGrpc;
    }
    lb := Balancer(hosts, tlsHosts, arns, listeners, redirect, custom);
  }
}
