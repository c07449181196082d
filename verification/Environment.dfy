/**
  Environment variables and config maps: what comes out does not depend on the order Go happens to walk a
  map in.
 */
module Environment {
  import opened Model
  import Sorting

  datatype EnvVar = EnvVar(name: string, value: string)

  // ---------- Ordering by name ----------

  /** Lexicographic order on strings. */
  predicate Before(s: string, t: string) {
    if t == "" then false
    else if s == "" then true
    else s[0] < t[0] || (s[0] == t[0] && Before(s[1..], t[1..]))
  }

  /** One string is before another exactly when it begins it, and is shorter, or has the smaller character
      where they first differ. */
  lemma {:induction false} BeforeIsLexicographic(s: string, t: string)
    ensures Before(s, t) <==>
      (s <= t && s != t) || exists k :: 0 <= k < |s| && k < |t| && s[..k] == t[..k] && s[k] < t[k]
    decreases |s|
  {
    if s != "" && t != "" {
      var u, v := s[1..], t[1..];
      BeforeIsLexicographic(u, v);
      assert s == [s[0]] + u && t == [t[0]] + v;
      assert s <= t <==> s[0] == t[0] && u <= v;
      if k :| 0 <= k < |s| && k < |t| && s[..k] == t[..k] && s[k] < t[k] && k > 0 {
        assert s[..k][0] == s[0] && t[..k][0] == t[0];
        assert s[..k][1..] == u[..k - 1] && t[..k][1..] == v[..k - 1];
        assert u[k - 1] < v[k - 1];
      }
      if k :| s[0] == t[0] && 0 <= k < |u| && k < |v| && u[..k] == v[..k] && u[k] < v[k] {
        assert s[..k + 1] == [s[0]] + u[..k] && t[..k + 1] == [t[0]] + v[..k];
        assert s[k + 1] < t[k + 1];
      }
    }
  }

  lemma {:induction false} BeforeIsTotal(s: string, t: string)
    ensures Before(s, t) || Before(t, s) || s == t
    ensures !(Before(s, t) && Before(t, s)) && !(Before(s, s))
    decreases |s|
  {
    if s != "" {
      BeforeIsTotal(s[1..], s[1..]);
      if t != "" {
        BeforeIsTotal(s[1..], t[1..]);
        assert s == [s[0]] + s[1..] && t == [t[0]] + t[1..];
      }
    }
  }

  lemma {:induction false} BeforeIsTransitive(s: string, t: string, u: string)
    requires Before(s, t) && Before(t, u)
    ensures Before(s, u)
    decreases |s|
  {
    if s != "" && s[0] == t[0] == u[0] {
      BeforeIsTransitive(s[1..], t[1..], u[1..]);
    }
  }

  lemma BeforeIsStrictWeak()
    ensures Sorting.StrictWeakOrder(Before)
    ensures Sorting.StrictWeakOrder(NamedBefore)
  {
    forall s { BeforeIsTotal(s, s); }
    forall s, t, u | Before(s, t) && Before(t, u) ensures Before(s, u) { BeforeIsTransitive(s, t, u); }
    forall s, t, u | Before(s, u) ensures Before(s, t) || Before(t, u) {
      BeforeIsTotal(s, t);
      if Before(t, s) {
        BeforeIsTransitive(t, s, u);
      }
    }
  }

  predicate NamedBefore(e: EnvVar, f: EnvVar) {
    Before(e.name, f.name)
  }

  /** `keys` lists the keys of a map, in some order. */
  ghost predicate Enumerates(keys: seq<string>, data: map<string, string>) {
    NoDuplicates(keys) && forall k :: k in keys <==> k in data
  }

  lemma {:induction false} CountInDistinct<T>(s: seq<T>, x: T)
    requires NoDuplicates(s)
    ensures multiset(s)[x] == if x in s then 1 else 0
  {
    if s != [] {
      assert s == [s[0]] + s[1..];
      CountInDistinct(s[1..], x);
    }
  }

  lemma {:induction false} DistinctIfCounted<T>(s: seq<T>)
    requires forall x :: x in s ==> multiset(s)[x] <= 1
    ensures NoDuplicates(s)
  {
    if s != [] {
      assert s == [s[0]] + s[1..];
      assert forall x :: x in s[1..] ==> x in s && multiset(s)[x] >= multiset(s[1..])[x];
      DistinctIfCounted(s[1..]);
      assert s[0] !in s[1..] by {
        assert multiset(s)[s[0]] == 1 + multiset(s[1..])[s[0]];
      }
    }
  }

  /** A rearrangement of a list without duplicates has none either. */
  lemma Rearranged<T>(s: seq<T>, t: seq<T>)
    requires NoDuplicates(s) && multiset(s) == multiset(t)
    ensures NoDuplicates(t)
  {
    forall x | x in t ensures multiset(t)[x] <= 1 {
      CountInDistinct(s, x);
    }
    DistinctIfCounted(t);
  }

  lemma SameElements<T(!new)>(s: seq<T>, t: seq<T>)
    requires NoDuplicates(s) && NoDuplicates(t) && forall x :: x in s <==> x in t
    ensures multiset(s) == multiset(t)
  {
    forall x ensures multiset(s)[x] == multiset(t)[x] {
      CountInDistinct(s, x);
      CountInDistinct(t, x);
    }
  }

  // ---------- Container environment ----------

  predicate Names(envs: seq<EnvVar>, name: string) {
    exists i :: 0 <= i < |envs| && envs[i].name == name
  }

  /** The config entries the release does not set itself, in the order of `keys`. */
  function ConfigPart(own: seq<EnvVar>, keys: seq<string>, data: map<string, string>): seq<EnvVar>
    requires forall k :: k in keys ==> k in data
  {
    if keys == [] then []
    else
      var key := keys[|keys| - 1];
      ConfigPart(own, keys[..|keys| - 1], data) + (if Names(own, key) then [] else [EnvVar(key, data[key])])
  }

  /** The dependency variables that neither the release nor the config sets. */
  function DependencyPart(own: seq<EnvVar>, data: map<string, string>, deps: seq<EnvVar>): seq<EnvVar> {
    if deps == [] then []
    else
      var e := deps[|deps| - 1];
      DependencyPart(own, data, deps[..|deps| - 1]) + (if Names(own, e.name) || e.name in data then [] else [e])
  }

  function Collected(own: seq<EnvVar>, keys: seq<string>, data: map<string, string>, deps: seq<EnvVar>): seq<EnvVar>
    requires forall k :: k in keys ==> k in data
  {
    own + ConfigPart(own, keys, data) + DependencyPart(own, data, deps)
  }

  lemma NamesOneMore(envs: seq<EnvVar>, i: nat, name: string)
    requires i < |envs|
    ensures Names(envs[..i + 1], name) <==> Names(envs[..i], name) || name == envs[i].name
  {
    assert envs[..i + 1][i] == envs[i];
    if Names(envs[..i], name) {
      var k :| 0 <= k < |envs[..i]| && envs[..i][k].name == name;
      assert envs[..i + 1][k].name == name;
    }
    if Names(envs[..i + 1], name) && name != envs[i].name {
      var k :| 0 <= k < |envs[..i + 1]| && envs[..i + 1][k].name == name;
      assert envs[..i][k].name == name;
    }
  }

  /** Collects the container's variables; `keys` is the order the config map happens to be walked in. */
  method CollectEnv(own: seq<EnvVar>, keys: seq<string>, data: map<string, string>, deps: seq<EnvVar>)
    returns (env: seq<EnvVar>)
    requires Enumerates(keys, data)
    ensures env == Collected(own, keys, data, deps)
  {
    hide Names;
    var setEnvs;
    env, setEnvs := AddConfig(own, keys, data);
    for i := 0 to |deps|
      invariant env == own + ConfigPart(own, keys, data) + DependencyPart(own, data, deps[..i])
    {
      assert deps[..i + 1][..i] == deps[..i];
      if deps[i].name in setEnvs {
        continue;
      }
      env := env + [deps[i]];
    }
    assert deps[..|deps|] == deps;
  }

  method AddConfig(own: seq<EnvVar>, keys: seq<string>, data: map<string, string>)
    returns (env: seq<EnvVar>, setEnvs: set<string>)
    requires Enumerates(keys, data)
    ensures env == own + ConfigPart(own, keys, data)
    ensures forall n :: n in setEnvs <==> Names(own, n) || n in data
  {
    hide Names;
    setEnvs := OwnNames(own);
    env := own;
    for i := 0 to |keys|
      invariant env == own + ConfigPart(own, keys[..i], data)
      invariant forall n :: n in setEnvs <==> Names(own, n) || n in keys[..i]
    {
      assert keys[..i + 1][..i] == keys[..i];
      if keys[i] in setEnvs {
        continue;
      }
      env := env + [EnvVar(keys[i], data[keys[i]])];
      setEnvs := setEnvs + {keys[i]};
    }
    assert keys[..|keys|] == keys;
  }

  method OwnNames(own: seq<EnvVar>) returns (setEnvs: set<string>)
    ensures forall n :: n in setEnvs <==> Names(own, n)
  {
    setEnvs := {};
    for i := 0 to |own|
      invariant forall n :: n in setEnvs <==> Names(own[..i], n)
    {
      forall n { NamesOneMore(own, i, n); }
      setEnvs := setEnvs + {own[i].name};
    }
    assert own[..|own|] == own;
  }

  /** Who wins a name: the release's own variables, then config entries it does not set itself, then
      dependency variables set by neither. */
  lemma {:induction false} Precedence(
    own: seq<EnvVar>, keys: seq<string>, data: map<string, string>, deps: seq<EnvVar>, e: EnvVar)
    requires Enumerates(keys, data)
    ensures e in Collected(own, keys, data, deps) <==>
      || e in own
      || (!Names(own, e.name) && e.name in data && e.value == data[e.name])
      || (!Names(own, e.name) && e.name !in data && e in deps)
  {
    hide Names;
    ConfigMembers(own, keys, data, e);
    DependencyMembers(own, data, deps, e);
  }

  lemma {:induction false} ConfigMembers(own: seq<EnvVar>, keys: seq<string>, data: map<string, string>, e: EnvVar)
    requires forall k :: k in keys ==> k in data
    ensures e in ConfigPart(own, keys, data) <==> !Names(own, e.name) && e.name in keys && e.value == data[e.name]
  {
    hide Names;
    if keys != [] {
      ConfigMembers(own, keys[..|keys| - 1], data, e);
    }
  }

  lemma {:induction false} DependencyMembers(own: seq<EnvVar>, data: map<string, string>, deps: seq<EnvVar>, e: EnvVar)
    ensures e in DependencyPart(own, data, deps) <==> !Names(own, e.name) && e.name !in data && e in deps
  {
    hide Names;
    if deps != [] {
      DependencyMembers(own, data, deps[..|deps| - 1], e);
    }
  }

  lemma {:induction false} ConfigDistinct(own: seq<EnvVar>, keys: seq<string>, data: map<string, string>)
    requires NoDuplicates(keys) && forall k :: k in keys ==> k in data
    ensures NoDuplicates(ConfigPart(own, keys, data))
  {
    hide Names;
    if keys != [] {
      var last := |keys| - 1;
      ConfigDistinct(own, keys[..last], data);
      ConfigMembers(own, keys[..last], data, EnvVar(keys[last], data[keys[last]]));
    }
  }

  /** However the config map is walked, the same variables are collected. */
  lemma WalkOrderIsIrrelevant(
    own: seq<EnvVar>, keys: seq<string>, other: seq<string>, data: map<string, string>, deps: seq<EnvVar>)
    requires Enumerates(keys, data) && Enumerates(other, data)
    ensures multiset(Collected(own, keys, data, deps)) == multiset(Collected(own, other, data, deps))
  {
    hide Names, ConfigPart, DependencyPart;
    ConfigDistinct(own, keys, data);
    ConfigDistinct(own, other, data);
    forall e ensures e in ConfigPart(own, keys, data) <==> e in ConfigPart(own, other, data) {
      ConfigMembers(own, keys, data, e);
      ConfigMembers(own, other, data, e);
    }
    SameElements(ConfigPart(own, keys, data), ConfigPart(own, other, data));
  }

  ghost predicate SortedByName(env: seq<EnvVar>, collected: multiset<EnvVar>) {
    Sorting.Sorted(env, NamedBefore) && multiset(env) == collected
  }

  /** A list the container may get: some walk through the config map, and some way of sorting by name. */
  ghost predicate PossibleEnv(env: seq<EnvVar>, own: seq<EnvVar>, data: map<string, string>, deps: seq<EnvVar>) {
    exists keys :: Enumerates(keys, data) && SortedByName(env, multiset(Collected(own, keys, data, deps)))
  }

  /** The environment as the release controller builds it. */
  method NewEnv(own: seq<EnvVar>, keys: seq<string>, data: map<string, string>, deps: seq<EnvVar>)
    returns (env: seq<EnvVar>)
    requires Enumerates(keys, data)
    ensures SortedByName(env, multiset(Collected(own, keys, data, deps)))
  {
    hide Collected;
    var collected := CollectEnv(own, keys, data, deps);
    env := Sorting.Sort(collected, NamedBefore);
    BeforeIsStrictWeak();
    Sorting.SortIsStable(collected, NamedBefore);
  }

  /** No two different variables of the list have the same name. */
  ghost predicate OneValuePerName(envs: seq<EnvVar>) {
    forall e, f :: e in envs && f in envs && e.name == f.name ==> e == f
  }

  /**
    Order independence: the container gets one and the same list, however the config map is walked and
    however elements that compare equal are ordered, exactly when no two of the collected variables give
    one name different values.
   */
  lemma EnvIsDetermined(own: seq<EnvVar>, keys: seq<string>, data: map<string, string>, deps: seq<EnvVar>)
    requires Enumerates(keys, data)
    ensures
      (forall env, other :: PossibleEnv(env, own, data, deps) && PossibleEnv(other, own, data, deps) ==> env == other)
      <==> OneValuePerName(Collected(own, keys, data, deps))
  {
    hide Collected, Before, Sorting.Sorted;
    var collected := Collected(own, keys, data, deps);
    if OneValuePerName(collected) {
      forall env, other | PossibleEnv(env, own, data, deps) && PossibleEnv(other, own, data, deps)
        ensures env == other
      {
        EnvOfAnyWalk(own, keys, data, deps, env);
        EnvOfAnyWalk(own, keys, data, deps, other);
        SortedOneWay(collected, env, other);
      }
    } else {
      var env, other := SortedTwoWays(collected);
      assert PossibleEnv(env, own, data, deps) && PossibleEnv(other, own, data, deps);
    }
  }

  /** That is the case when the names are unique within the release's own and within the dependency variables. */
  lemma UniqueNamesSuffice(own: seq<EnvVar>, keys: seq<string>, data: map<string, string>, deps: seq<EnvVar>)
    requires Enumerates(keys, data) && OneValuePerName(own) && OneValuePerName(deps)
    ensures OneValuePerName(Collected(own, keys, data, deps))
  {
    hide Collected, Names;
    var collected := Collected(own, keys, data, deps);
    forall e | e in collected ensures e in own ==> Names(own, e.name) {
      NamedByMember(own, e);
    }
    forall e, f | e in collected && f in collected && e.name == f.name ensures e == f {
      Precedence(own, keys, data, deps, e);
      Precedence(own, keys, data, deps, f);
    }
  }

  lemma NamedByMember(envs: seq<EnvVar>, e: EnvVar)
    ensures e in envs ==> Names(envs, e.name)
  {
  }

  lemma EnvOfAnyWalk(
    own: seq<EnvVar>, keys: seq<string>, data: map<string, string>, deps: seq<EnvVar>, env: seq<EnvVar>)
    requires Enumerates(keys, data) && PossibleEnv(env, own, data, deps)
    ensures SortedByName(env, multiset(Collected(own, keys, data, deps)))
  {
    hide Collected, Sorting.Sorted;
    var walk :| Enumerates(walk, data) && SortedByName(env, multiset(Collected(own, walk, data, deps)));
    WalkOrderIsIrrelevant(own, keys, walk, data, deps);
  }

  lemma SortedOneWay(collected: seq<EnvVar>, env: seq<EnvVar>, other: seq<EnvVar>)
    requires OneValuePerName(collected)
    requires SortedByName(env, multiset(collected)) && SortedByName(other, multiset(collected))
    ensures env == other
  {
    BeforeIsStrictWeak();
    forall x, y | x in env && y in env && !NamedBefore(x, y) && !NamedBefore(y, x) ensures x == y {
      BeforeIsTotal(x.name, y.name);
      assert x in multiset(collected) && y in multiset(collected) by {
        assert x in multiset(env) && y in multiset(env);
      }
    }
    Sorting.SortedByKeyIsUnique(env, other, NamedBefore);
  }

  lemma SortedTwoWays(collected: seq<EnvVar>) returns (env: seq<EnvVar>, other: seq<EnvVar>)
    requires !OneValuePerName(collected)
    ensures SortedByName(env, multiset(collected)) && SortedByName(other, multiset(collected)) && env != other
  {
    hide Before, Sorting.Sorted, Sorting.Sort, NamedBefore;
    env := Sorting.Sort(collected, NamedBefore);
    BeforeIsStrictWeak();
    Sorting.SortIsStable(collected, NamedBefore);
    var e, f :| e in collected && f in collected && e.name == f.name && e != f;
    var i, j := IndexOf(collected, env, e), IndexOf(collected, env, f);
    other := env[i := f][j := e];
    SwapSameName(env, i, j);
  }

  ghost function IndexOf(collected: seq<EnvVar>, env: seq<EnvVar>, e: EnvVar): (i: nat)
    requires multiset(env) == multiset(collected) && e in collected
    ensures i < |env| && env[i] == e
  {
    assert e in multiset(collected);
    assert e in multiset(env);
    var i: nat :| i < |env| && env[i] == e;
    i
  }

  lemma SwapSameName(env: seq<EnvVar>, i: nat, j: nat)
    requires i < |env| && j < |env| && env[i].name == env[j].name && env[i] != env[j]
    requires Sorting.Sorted(env, NamedBefore)
    ensures var other := env[i := env[j]][j := env[i]];
      Sorting.Sorted(other, NamedBefore) && multiset(other) == multiset(env) && other != env
  {
    hide Before;
    var other := env[i := env[j]][j := env[i]];
    assert forall k :: 0 <= k < |env| ==> other[k].name == env[k].name;
    assert other[i] == env[j];
  }

  // ---------- Config map digest ----------

  /** What is fed to the hash: every key with its value, in the order of `keys`. */
  function Digest(keys: seq<string>, data: map<string, string>): string
    requires forall k :: k in keys ==> k in data
  {
    if keys == [] then "" else Digest(keys[..|keys| - 1], data) + Entry(keys[|keys| - 1], data)
  }

  function Entry(key: string, data: map<string, string>): string
    requires key in data
  {
    key + "=" + data[key]
  }

  /** The digest input of a config map whose keys come out in the order `keys`. */
  function ConfigDigest(keys: seq<string>, data: map<string, string>): string
    requires Enumerates(keys, data)
  {
    SortedKeys(keys, data);
    Digest(Sorting.Sort(keys, Before), data)
  }

  method DigestInput(keys: seq<string>, data: map<string, string>) returns (input: string)
    requires Enumerates(keys, data)
    ensures input == ConfigDigest(keys, data)
  {
    hide Before, Sorting.Sort, Sorting.Sorted, Entry;
    SortedKeys(keys, data);
    var sorted := Sorting.Sort(keys, Before);
    input := "";
    for i := 0 to |sorted|
      invariant input == Digest(sorted[..i], data)
    {
      assert sorted[..i + 1][..i] == sorted[..i];
      input := input + Entry(sorted[i], data);
    }
    assert sorted[..|sorted|] == sorted;
  }

  lemma SortedKeys(keys: seq<string>, data: map<string, string>)
    requires Enumerates(keys, data)
    ensures var sorted := Sorting.Sort(keys, Before);
      Enumerates(sorted, data) && Sorting.Sorted(sorted, Before)
  {
    hide Before, Sorting.Sort;
    var sorted := Sorting.Sort(keys, Before);
    BeforeIsStrictWeak();
    Sorting.SortIsStable(keys, Before);
    forall k ensures k in sorted <==> k in keys {
      assert k in multiset(sorted) <==> k in multiset(keys);
    }
    Rearranged(keys, sorted);
  }

  /** The digest depends only on the contents, not on the order the map is walked in. */
  lemma DigestIsDetermined(keys: seq<string>, other: seq<string>, data: map<string, string>)
    requires Enumerates(keys, data) && Enumerates(other, data)
    ensures ConfigDigest(keys, data) == ConfigDigest(other, data)
  {
    hide Before, Sorting.Sort;
    BeforeIsStrictWeak();
    SortedKeys(keys, data);
    SortedKeys(other, data);
    var s, t := Sorting.Sort(keys, Before), Sorting.Sort(other, Before);
    SameElements(s, t);
    forall x, y | x in s && y in s && !Before(x, y) && !Before(y, x) ensures x == y {
      BeforeIsTotal(x, y);
    }
    Sorting.SortedByKeyIsUnique(s, t, Before);
  }

  lemma {:induction false} DigestElsewhere(keys: seq<string>, data: map<string, string>, key: string, value: string)
    requires key !in keys && forall k :: k in keys ==> k in data
    ensures Digest(keys, data[key := value]) == Digest(keys, data)
  {
    if keys != [] {
      DigestElsewhere(keys[..|keys| - 1], data, key, value);
    }
  }

  lemma {:induction false} EditShowsInOrder(keys: seq<string>, data: map<string, string>, key: string, value: string)
    requires NoDuplicates(keys) && key in keys && forall k :: k in keys ==> k in data
    ensures Digest(keys, data[key := value]) == Digest(keys, data) <==> value == data[key]
  {
    var edited := data[key := value];
    var last := |keys| - 1;
    var rest := keys[..last];
    if keys[last] == key {
      DigestElsewhere(rest, data, key, value);
      var common := Digest(rest, data) + key + "=";
      assert Digest(keys, edited) == common + value;
      assert Digest(keys, data) == common + data[key];
      assert (common + value)[|common|..] == value && (common + data[key])[|common|..] == data[key];
    } else {
      EditShowsInOrder(rest, data, key, value);
      var entry := Entry(keys[last], data);
      var d, e := Digest(rest, data), Digest(rest, edited);
      assert Digest(keys, edited) == e + entry && Digest(keys, data) == d + entry;
      assert |d + entry| == |e + entry| ==> (d + entry)[..|d|] == d && (e + entry)[..|e|] == e;
    }
  }

  /** Changing a single value always shows in the digest. */
  lemma OneEditShows(keys: seq<string>, data: map<string, string>, key: string, value: string)
    requires Enumerates(keys, data) && key in data
    ensures Enumerates(keys, data[key := value])
    ensures ConfigDigest(keys, data[key := value]) == ConfigDigest(keys, data) <==> value == data[key]
  {
    SortedKeys(keys, data);
    EditShowsInOrder(Sorting.Sort(keys, Before), data, key, value);
  }

  lemma DigestOfOne(data: map<string, string>)
    requires "A" in data
    ensures Digest(["A"], data) == Entry("A", data)
  {
    assert ["A"][..0] == [];
  }

  lemma DigestOfTwo(data: map<string, string>)
    requires "A" in data && "B" in data
    ensures Digest(["A", "B"], data) == Entry("A", data) + Entry("B", data)
  {
    assert ["A", "B"][..1] == ["A"];
    DigestOfOne(data);
  }

  lemma AThenB()
    ensures Sorting.Sort(["A"], Before) == ["A"] && Sorting.Sort(["A", "B"], Before) == ["A", "B"]
  {
    assert Before("A", "B");
    assert ["A", "B"][1..] == ["B"] && ["B"][1..] == [] && ["A"][1..] == [];
    assert Sorting.Sort(["B"], Before) == ["B"];
  }

  /** Keys and values run together in the digest, so two different configs can share it. These are the
      config maps of apps without a config of their own (which would add an entry): one with the shared config
      `a` holding the text `1B=2`, the other with the shared configs `a` and `b` holding `1` and `2`. */
  lemma DigestsCollide()
    ensures var one, two := map["A" := "1B=2"], map["A" := "1", "B" := "2"];
      one != two && Enumerates(["A"], one) && Enumerates(["A", "B"], two)
      && ConfigDigest(["A"], one) == ConfigDigest(["A", "B"], two) == "A=1B=2"
  {
    hide Digest, Sorting.Sort, Before;
    var one, two := map["A" := "1B=2"], map["A" := "1", "B" := "2"];
    assert "B" in two && "B" !in one;
    AThenB();
    DigestOfOne(one);
    DigestOfTwo(two);
  }
}
