/**
  Rewriting a kubeconfig: the entries of this tool's clusters are replaced, everything else stays.
 */
module Kubeconfig {
  import Model

  const KON_PREFIX := "kon-"

  datatype ClusterConfig = ClusterConfig(cloud: string, cluster: string, endpoint: string, caData: string)

  datatype Cluster = Cluster(name: string, server: string, caData: string)

  datatype User = User(name: string, command: string, args: seq<string>)

  datatype Context = Context(name: string, cluster: string, user: string)

  datatype Config = Config(clusters: seq<Cluster>, users: seq<User>, contexts: seq<Context>, current: string)

  function ContextName(cloud: string, cluster: string): string {
    KON_PREFIX + cloud + "-" + cluster
  }

  function NameOf(c: ClusterConfig): string {
    ContextName(c.cloud, c.cluster)
  }

  function UserOf(c: ClusterConfig): string {
    NameOf(c) + "-user"
  }

  predicate Ours(name: string) {
    KON_PREFIX <= name
  }

  // ---------- The rewrite ----------

  /** The entries that are not ours, in order. */
  function Foreign<T>(entries: seq<T>, name: T -> string): seq<T> {
    if entries == [] then []
    else
      var last := entries[|entries| - 1];
      Foreign(entries[..|entries| - 1], name) + (if Ours(name(last)) then [] else [last])
  }

  function ClusterFor(c: ClusterConfig): Cluster {
    Cluster(NameOf(c), c.endpoint, c.caData)
  }

  function UserFor(c: ClusterConfig, cliPath: string): User {
    User(UserOf(c), cliPath, ["cluster", "get-token", "--cluster", c.cluster])
  }

  function ContextFor(c: ClusterConfig): Context {
    Context(NameOf(c), NameOf(c), UserOf(c))
  }

  function Mapped<S, T>(s: seq<S>, f: S -> T): (out: seq<T>)
    ensures |out| == |s| && forall i :: 0 <= i < |s| ==> out[i] == f(s[i])
  {
    seq(|s|, i requires 0 <= i < |s| => f(s[i]))
  }

  function ClusterName(c: Cluster): string { c.name }

  function UserName(u: User): string { u.name }

  function NameOfContext(c: Context): string { c.name }

  function Updated(k: Config, cliPath: string, clusters: seq<ClusterConfig>, selected: int): Config {
    Config(
      Foreign(k.clusters, ClusterName) + Mapped(clusters, ClusterFor),
      Foreign(k.users, UserName) + Mapped(clusters, c => UserFor(c, cliPath)),
      Foreign(k.contexts, NameOfContext) + Mapped(clusters, ContextFor),
      if 0 <= selected < |clusters| then NameOf(clusters[selected])
      else if Ours(k.current) then "" else k.current)
  }

  method KeepForeign<T>(entries: seq<T>, name: T -> string) returns (kept: seq<T>)
    ensures kept == Foreign(entries, name)
  {
    kept := [];
    for i := 0 to |entries|
      invariant kept == Foreign(entries[..i], name)
    {
      assert entries[..i + 1][..i] == entries[..i];
      if !Ours(name(entries[i])) {
        kept := kept + [entries[i]];
      }
    }
    assert entries[..|entries|] == entries;
  }

  class KubeConfig {
    var clusters: seq<Cluster>
    var users: seq<User>
    var contexts: seq<Context>
    var current: string

    function View(): Config
      reads this
    {
      Config(clusters, users, contexts, current)
    }

    constructor (k: Config)
      ensures View() == k
    {
      clusters, users, contexts, current := k.clusters, k.users, k.contexts, k.current;
    }

    /** Replaces our entries by those of the given clusters, and selects one of them. */
    method Update(cliPath: string, ours: seq<ClusterConfig>, selected: int)
      modifies this
      ensures View() == Updated(old(View()), cliPath, ours, selected)
    {
      clusters := KeepForeign(clusters, ClusterName);
      users := KeepForeign(users, UserName);
      contexts := KeepForeign(contexts, NameOfContext);
      if Ours(current) {
        current := "";
      }
      Append(cliPath, ours, selected);
    }

    method Append(cliPath: string, ours: seq<ClusterConfig>, selected: int)
      modifies this
      ensures clusters == old(clusters) + Mapped(ours, ClusterFor)
      ensures users == old(users) + Mapped(ours, c => UserFor(c, cliPath))
      ensures contexts == old(contexts) + Mapped(ours, ContextFor)
      ensures current == if 0 <= selected < |ours| then NameOf(ours[selected]) else old(current)
    {
      hide NameOf, ClusterFor, UserFor, ContextFor;
      ghost var cs, us, xs := Mapped(ours, ClusterFor), Mapped(ours, c => UserFor(c, cliPath)), Mapped(ours, ContextFor);
      for i := 0 to |ours|
        invariant clusters == old(clusters) + cs[..i]
        invariant users == old(users) + us[..i]
        invariant contexts == old(contexts) + xs[..i]
        invariant current == if 0 <= selected < i then NameOf(ours[selected]) else old(current)
      {
        if i == selected {
          current := NameOf(ours[i]);
        }
        clusters := clusters + [ClusterFor(ours[i])];
        users := users + [UserFor(ours[i], cliPath)];
        contexts := contexts + [ContextFor(ours[i])];
      }
    }

    /** Every named cluster of the cloud has a context. */
    method ContainsClusters(cloud: string, names: seq<string>) returns (containsAll: bool)
      ensures containsAll == Contains(View(), cloud, names)
    {
      containsAll := true;
      for i := 0 to |names|
        invariant containsAll
        invariant forall j :: 0 <= j < i ==> HasContext(contexts, ContextName(cloud, names[j]))
      {
        var containsCluster := false;
        for j := 0 to |contexts|
          invariant !containsCluster
          invariant forall l :: 0 <= l < j ==> contexts[l].name != ContextName(cloud, names[i])
        {
          if contexts[j].name == ContextName(cloud, names[i]) {
            containsCluster := true;
            break;
          }
        }
        if !containsCluster {
          containsAll := false;
          break;
        }
      }
    }
  }

  predicate HasContext(contexts: seq<Context>, name: string) {
    exists i :: 0 <= i < |contexts| && contexts[i].name == name
  }

  predicate Contains(k: Config, cloud: string, names: seq<string>) {
    forall j :: 0 <= j < |names| ==> HasContext(k.contexts, ContextName(cloud, names[j]))
  }

  // ---------- What it promises ----------

  lemma ForeignAppend<T>(entries: seq<T>, x: T, name: T -> string)
    ensures Foreign(entries + [x], name) == if Ours(name(x)) then Foreign(entries, name) else Foreign(entries, name) + [x]
  {
    assert (entries + [x])[..|entries|] == entries;
  }

  lemma {:induction false} ForeignOfForeign<T>(entries: seq<T>, name: T -> string)
    ensures Foreign(Foreign(entries, name), name) == Foreign(entries, name)
    ensures forall i :: 0 <= i < |Foreign(entries, name)| ==> !Ours(name(Foreign(entries, name)[i]))
  {
    hide Ours;
    if entries != [] {
      var rest, last := entries[..|entries| - 1], entries[|entries| - 1];
      ForeignOfForeign(rest, name);
      assert entries == rest + [last];
      ForeignAppend(rest, last, name);
      ForeignAppend(Foreign(rest, name), last, name);
    }
  }

  lemma {:induction false} ForeignIgnoresOurs<T>(kept: seq<T>, ours: seq<T>, name: T -> string)
    requires forall i :: 0 <= i < |ours| ==> Ours(name(ours[i]))
    ensures Foreign(kept + ours, name) == Foreign(kept, name)
  {
    if ours == [] {
      assert kept + ours == kept;
    } else {
      assert (kept + ours)[..|kept + ours| - 1] == kept + ours[..|ours| - 1];
      ForeignIgnoresOurs(kept, ours[..|ours| - 1], name);
    }
  }

  /** All entries of other tools are kept, in their order. */
  lemma ForeignIsKept(k: Config, cliPath: string, clusters: seq<ClusterConfig>, selected: int)
    ensures var u := Updated(k, cliPath, clusters, selected);
      && Foreign(u.clusters, ClusterName) == Foreign(k.clusters, ClusterName)
      && Foreign(u.users, UserName) == Foreign(k.users, UserName)
      && Foreign(u.contexts, NameOfContext) == Foreign(k.contexts, NameOfContext)
  {
    hide Foreign;
    ForeignOfForeign(k.clusters, ClusterName);
    ForeignOfForeign(k.users, UserName);
    ForeignOfForeign(k.contexts, NameOfContext);
    ForeignIgnoresOurs(Foreign(k.clusters, ClusterName), Mapped(clusters, ClusterFor), ClusterName);
    ForeignIgnoresOurs(Foreign(k.users, UserName), Mapped(clusters, c => UserFor(c, cliPath)), UserName);
    ForeignIgnoresOurs(Foreign(k.contexts, NameOfContext), Mapped(clusters, ContextFor), NameOfContext);
  }

  /** What is kept: exactly the entries whose names do not begin with our prefix, in order. */
  lemma {:induction false} ForeignEntries<T(!new)>(entries: seq<T>, name: T -> string) returns (at: seq<nat>)
    ensures Model.Filtered(entries, x => !("kon-" <= name(x)), Foreign(entries, name), at)
  {
    at := [];
    if entries != [] {
      hide Model.Filtered;
      var rest, last := entries[..|entries| - 1], entries[|entries| - 1];
      var before := ForeignEntries(rest, name);
      Model.FilteredOneMore(rest, last, x => !("kon-" <= name(x)), Foreign(rest, name), before);
      assert entries == rest + [last];
      at := if "kon-" <= name(last) then before else before + [|rest|];
    }
  }

  /** What is written: after the entries kept, a cluster, a user and a context for each cluster given, and the
      context of the selected one as the current one. */
  lemma WrittenEntries(k: Config, cliPath: string, clusters: seq<ClusterConfig>, selected: int, i: nat)
    requires i < |clusters|
    ensures var u := Updated(k, cliPath, clusters, selected);
      var c, name := clusters[i], "kon-" + clusters[i].cloud + "-" + clusters[i].cluster;
      var cs, us, xs := |Foreign(k.clusters, ClusterName)|, |Foreign(k.users, UserName)|, |Foreign(k.contexts, NameOfContext)|;
      && |u.clusters| == cs + |clusters| && |u.users| == us + |clusters| && |u.contexts| == xs + |clusters|
      && u.clusters[cs + i] == Cluster(name, c.endpoint, c.caData)
      && u.users[us + i] == User(name + "-user", cliPath, ["cluster", "get-token", "--cluster", c.cluster])
      && u.contexts[xs + i] == Context(name, name, name + "-user")
      && (selected == i ==> u.current == name)
  {
    hide Foreign;
    var c := clusters[i];
    assert NameOf(c) == "kon-" + c.cloud + "-" + c.cluster;
  }

  /** With nothing selected, the current context stays unless it was one of ours. */
  lemma CurrentStays(k: Config, cliPath: string, clusters: seq<ClusterConfig>, selected: int)
    requires !(0 <= selected < |clusters|)
    ensures Updated(k, cliPath, clusters, selected).current == if "kon-" <= k.current then "" else k.current
  {
  }

  /** Writing the same clusters again changes nothing. */
  lemma UpdateIsIdempotent(k: Config, cliPath: string, clusters: seq<ClusterConfig>, selected: int)
    ensures var u := Updated(k, cliPath, clusters, selected);
      Updated(u, cliPath, clusters, selected) == u
  {
    hide Foreign;
    ForeignIsKept(k, cliPath, clusters, selected);
  }

  predicate Writes(clusters: seq<ClusterConfig>, name: string) {
    exists i :: 0 <= i < |clusters| && NameOf(clusters[i]) == name
  }

  /** After a rewrite the check for a cloud's clusters passes exactly when each of them was written, up to
      the way context names are put together. */
  lemma ContainsExactlyWritten(
    k: Config, cliPath: string, clusters: seq<ClusterConfig>, selected: int, cloud: string, names: seq<string>)
    ensures Contains(Updated(k, cliPath, clusters, selected), cloud, names) <==>
      forall j :: 0 <= j < |names| ==> Writes(clusters, ContextName(cloud, names[j]))
  {
    hide Foreign, NameOf, ContextName;
    var u := Updated(k, cliPath, clusters, selected);
    var kept, written := Foreign(k.contexts, NameOfContext), Mapped(clusters, ContextFor);
    ForeignOfForeign(k.contexts, NameOfContext);
    assert u.contexts == kept + written;
    forall j | 0 <= j < |names|
      ensures HasContext(u.contexts, ContextName(cloud, names[j])) <==> Writes(clusters, ContextName(cloud, names[j]))
    {
      OursByName(cloud, names[j]);
      WrittenContext(kept, clusters, ContextName(cloud, names[j]));
    }
  }

  lemma OursByName(cloud: string, cluster: string)
    ensures Ours(ContextName(cloud, cluster))
  {
  }

  lemma WrittenContext(kept: seq<Context>, clusters: seq<ClusterConfig>, name: string)
    requires Ours(name) && forall i :: 0 <= i < |kept| ==> !Ours(kept[i].name)
    ensures HasContext(kept + Mapped(clusters, ContextFor), name) <==> Writes(clusters, name)
  {
    hide NameOf, Ours;
    var all := kept + Mapped(clusters, ContextFor);
    if i :| 0 <= i < |clusters| && NameOf(clusters[i]) == name {
      assert all[|kept| + i].name == name;
    }
  }

  /** One cloud's name, with a dash after it, begins the other's. */
  predicate Nested(cloud: string, other: string) {
    cloud + "-" <= other || other + "-" <= cloud
  }

  /** Context names tell the clusters of two clouds apart exactly when the clouds are not nested; in
      particular they always do within one cloud. */
  lemma NamesAreUnambiguous(cloud: string, other: string)
    ensures !Nested(cloud, other) <==>
      forall m, n :: ContextName(cloud, m) == ContextName(other, n) <==> cloud == other && m == n
  {
    if Nested(cloud, other) {
      if cloud + "-" <= other {
        NestedClash(cloud, other, "");
      } else {
        NestedClash(other, cloud, "");
      }
    } else {
      forall m, n | ContextName(cloud, m) == ContextName(other, n) ensures cloud == other && m == n {
        SameContextName(cloud, m, other, n);
      }
    }
  }

  /** Equal context names either are put together from the same parts or nest the clouds. */
  lemma SameContextName(cloud: string, cluster: string, other: string, otherCluster: string)
    requires ContextName(cloud, cluster) == ContextName(other, otherCluster)
    ensures (cloud == other && cluster == otherCluster) || Nested(cloud, other)
  {
    var s, t, n := cloud + "-" + cluster, other + "-" + otherCluster, |KON_PREFIX|;
    assert ContextName(cloud, cluster)[n..] == s && ContextName(other, otherCluster)[n..] == t;
    var c, o := cloud + "-", other + "-";
    assert c == s[..|c|] && o == t[..|o|];
    if |cloud| == |other| {
      assert c[..|cloud|] == cloud && o[..|other|] == other;
      assert s[|c|..] == cluster && t[|o|..] == otherCluster;
    } else {
      assert cloud == s[..|cloud|] && other == t[..|other|];
    }
  }

  /** When a cloud's name and a dash begin another's, every cluster of the other shares its context name
      with a cluster of the first. */
  lemma NestedClash(cloud: string, other: string, cluster: string)
    requires cloud + "-" <= other
    ensures ContextName(other, cluster) == ContextName(cloud, other[|cloud| + 1..] + "-" + cluster) && cloud != other
  {
    assert cloud + "-" == other[..|cloud| + 1];
    assert other == cloud + "-" + other[|cloud| + 1..];
  }

  /** The cluster was among those written. */
  predicate Lists(clusters: seq<ClusterConfig>, cloud: string, cluster: string) {
    exists i :: 0 <= i < |clusters| && clusters[i].cloud == cloud && clusters[i].cluster == cluster
  }

  /** So as long as no two clouds in play are nested, and always with a single cloud, the check after a
      rewrite passes exactly when every cluster asked for was itself among those written. */
  lemma ContainsExactlyListed(
    k: Config, cliPath: string, clusters: seq<ClusterConfig>, selected: int, cloud: string, names: seq<string>)
    requires forall i :: 0 <= i < |clusters| ==> clusters[i].cloud == cloud || !Nested(clusters[i].cloud, cloud)
    ensures Contains(Updated(k, cliPath, clusters, selected), cloud, names) <==>
      forall j :: 0 <= j < |names| ==> Lists(clusters, cloud, names[j])
  {
    hide Updated, Contains, ContextName;
    ContainsExactlyWritten(k, cliPath, clusters, selected, cloud, names);
    forall j | 0 <= j < |names|
      ensures Writes(clusters, ContextName(cloud, names[j])) <==> Lists(clusters, cloud, names[j])
    {
      forall i | 0 <= i < |clusters|
        ensures NameOf(clusters[i]) == ContextName(cloud, names[j]) <==>
          clusters[i].cloud == cloud && clusters[i].cluster == names[j]
      {
        NamesAreUnambiguous(clusters[i].cloud, cloud);
      }
    }
  }
}
