/**
  Sorting by a comparator, as Go's `sort` package promises it. The order of the result is pinned down
  completely, so it does not matter which sorting algorithm runs.
 */
module Sorting {
  ghost predicate StrictWeakOrder<T(!new)>(less: (T, T) -> bool) {
    && (forall x :: !less(x, x))
    && (forall x, y, z :: less(x, y) && less(y, z) ==> less(x, z))
    && (forall x, y, z :: less(x, z) ==> less(x, y) || less(y, z))
  }

  ghost predicate Sorted<T>(s: seq<T>, less: (T, T) -> bool) {
    forall i, j :: 0 <= i < j < |s| ==> !less(s[j], s[i])
  }

  /** The elements that `less` does not tell apart from `x`, in order. */
  ghost function Peers<T>(s: seq<T>, x: T, less: (T, T) -> bool): seq<T> {
    if s == [] then []
    else (if !less(s[0], x) && !less(x, s[0]) then [s[0]] else []) + Peers(s[1..], x, less)
  }

  /** Elements that compare equal keep their order, and no element is added or lost. */
  ghost predicate StableRearrangement<T(!new)>(s: seq<T>, t: seq<T>, less: (T, T) -> bool) {
    && multiset(s) == multiset(t)
    && forall x :: Peers(s, x, less) == Peers(t, x, less)
  }

  function Insert<T>(x: T, s: seq<T>, less: (T, T) -> bool): (r: seq<T>)
    ensures multiset(r) == multiset(s) + multiset{x}
    ensures |r| == |s| + 1
  {
    if s == [] || !less(s[0], x) then [x] + s
    else
      assert s == [s[0]] + s[1..];
      [s[0]] + Insert(x, s[1..], less)
  }

  function Sort<T>(s: seq<T>, less: (T, T) -> bool): (r: seq<T>)
    ensures multiset(r) == multiset(s)
    ensures |r| == |s|
  {
    if s == [] then []
    else
      assert s == [s[0]] + s[1..];
      Insert(s[0], Sort(s[1..], less), less)
  }

  lemma {:induction false} InsertSorts<T(!new)>(x: T, s: seq<T>, less: (T, T) -> bool)
    requires StrictWeakOrder(less) && Sorted(s, less)
    ensures Sorted(Insert(x, s, less), less)
  {
    if s != [] && less(s[0], x) {
      InsertSorts(x, s[1..], less);
      var rest := Insert(x, s[1..], less);
      forall y | y in rest ensures !less(y, s[0]) {
        assert y in multiset(rest);
        assert y == x || y in s[1..];
      }
    }
  }

  lemma {:induction false} InsertKeepsPeers<T(!new)>(x: T, s: seq<T>, less: (T, T) -> bool, y: T)
    requires StrictWeakOrder(less)
    ensures Peers(Insert(x, s, less), y, less) == Peers([x] + s, y, less)
  {
    assert ([x] + s)[1..] == s;
    if s != [] && less(s[0], x) {
      InsertKeepsPeers(x, s[1..], less, y);
      var r := Insert(x, s[1..], less);
      assert ([s[0]] + r)[1..] == r;
      assert ([x] + s[1..])[1..] == s[1..];
    }
  }

  /** `Sort` sorts, and rearranges stably. */
  lemma {:induction false} SortIsStable<T(!new)>(s: seq<T>, less: (T, T) -> bool)
    requires StrictWeakOrder(less)
    ensures Sorted(Sort(s, less), less)
    ensures StableRearrangement(s, Sort(s, less), less)
  {
    if s != [] {
      SortIsStable(s[1..], less);
      var rest := Sort(s[1..], less);
      InsertSorts(s[0], rest, less);
      forall y ensures Peers(s, y, less) == Peers(Sort(s, less), y, less) {
        InsertKeepsPeers(s[0], rest, less, y);
        assert ([s[0]] + rest)[1..] == rest;
      }
    }
  }

  lemma {:induction false} PeersHasMember<T>(s: seq<T>, x: T, less: (T, T) -> bool)
    ensures forall i :: 0 <= i < |s| && !less(s[i], x) && !less(x, s[i]) ==> Peers(s, x, less) != []
    ensures forall y :: y in Peers(s, x, less) ==> y in s && !less(y, x) && !less(x, y)
  {
    if s != [] {
      PeersHasMember(s[1..], x, less);
    }
  }

  /** There is only one stable way to sort: any two sorted lists with the same runs of peers are equal. */
  lemma {:induction false} SortedIsUnique<T(!new)>(s: seq<T>, t: seq<T>, less: (T, T) -> bool)
    requires StrictWeakOrder(less) && Sorted(s, less) && Sorted(t, less)
    requires forall x :: Peers(s, x, less) == Peers(t, x, less)
    ensures s == t
  {
    if s != [] {
      PeersHasMember(s, s[0], less);
      PeersHasMember(t, s[0], less);
      assert Peers(s, s[0], less) == Peers(t, s[0], less);
      assert t != [];
      PeersHasMember(s, t[0], less);
      PeersHasMember(t, t[0], less);
      assert Peers(s, t[0], less) == Peers(t, t[0], less);
      assert !less(s[0], t[0]) && !less(t[0], s[0]);
      assert Peers(s, s[0], less)[0] == s[0] && Peers(t, s[0], less)[0] == t[0];
      forall x ensures Peers(s[1..], x, less) == Peers(t[1..], x, less) {
        var own := if !less(s[0], x) && !less(x, s[0]) then [s[0]] else [];
        assert own + Peers(s[1..], x, less) == own + Peers(t[1..], x, less) by {
          assert Peers(s, x, less) == Peers(t, x, less);
        }
        assert (own + Peers(s[1..], x, less))[|own|..] == Peers(s[1..], x, less);
      }
      SortedIsUnique(s[1..], t[1..], less);
    }
  }

  lemma HeadsAgree<T(!new)>(s: seq<T>, t: seq<T>, less: (T, T) -> bool)
    requires Sorted(s, less) && Sorted(t, less) && multiset(s) == multiset(t) && s != []
    requires forall x, y :: x in s && y in s && !less(x, y) && !less(y, x) ==> x == y
    requires forall x :: !less(x, x)
    ensures t != [] && s[0] == t[0]
  {
    assert s[0] in multiset(t);
    assert t[0] in multiset(s);
    assert t[0] in s && s[0] in t;
  }

  lemma TailsRearranged<T>(s: seq<T>, t: seq<T>)
    requires s != [] && t != [] && s[0] == t[0] && multiset(s) == multiset(t)
    ensures multiset(s[1..]) == multiset(t[1..])
  {
    assert s == [s[0]] + s[1..] && t == [t[0]] + t[1..];
    assert multiset(s[1..]) == multiset(s) - multiset{s[0]};
  }

  /** When the comparator tells all elements apart, any sorted rearrangement is the same list. */
  lemma {:induction false} SortedByKeyIsUnique<T(!new)>(s: seq<T>, t: seq<T>, less: (T, T) -> bool)
    requires StrictWeakOrder(less) && Sorted(s, less) && Sorted(t, less)
    requires multiset(s) == multiset(t)
    requires forall x, y :: x in s && y in s && !less(x, y) && !less(y, x) ==> x == y
    ensures s == t
  {
    if s == [] {
      assert |multiset(t)| == 0;
    } else {
      HeadsAgree(s, t, less);
      TailsRearranged(s, t);
      SortedByKeyIsUnique(s[1..], t[1..], less);
    }
  }
}
