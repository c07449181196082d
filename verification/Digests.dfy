/**
  Which config maps share a digest: keys and values run together in the hashed text, so this depends on
  where '=' may occur and on the keys.
 */
module Digests {
  import opened Model
  import opened Environment
  import Sorting

  /** The config map has exactly these keys, and '=' occurs in values of `free` keys only. */
  ghost predicate Fits(data: map<string, string>, keys: seq<string>, free: set<string>) {
    && (forall k :: k in keys <==> k in data)
    && forall k :: k in data && k !in free ==> '=' !in data[k]
  }

  ghost predicate SameDigest(keys: seq<string>, one: map<string, string>, others: seq<string>, two: map<string, string>) {
    Enumerates(keys, one) && Enumerates(others, two) && ConfigDigest(keys, one) == ConfigDigest(others, two)
  }

  // ---------- Texts ----------

  lemma {:induction false} DigestOfParts(ks: seq<string>, ls: seq<string>, data: map<string, string>)
    requires forall k :: k in ks + ls ==> k in data
    ensures (forall k :: k in ks ==> k in data) && (forall k :: k in ls ==> k in data)
    ensures Digest(ks + ls, data) == Digest(ks, data) + Digest(ls, data)
  {
    assert forall k :: k in ks || k in ls ==> k in ks + ls;
    if ls == [] {
      assert ks + ls == ks;
    } else {
      var last := |ls| - 1;
      assert (ks + ls)[..|ks| + last] == ks + ls[..last];
      DigestOfParts(ks, ls[..last], data);
    }
  }

  lemma {:induction false} SameValuesSameDigest(ks: seq<string>, one: map<string, string>, two: map<string, string>)
    requires forall k :: k in ks ==> k in one && k in two && one[k] == two[k]
    ensures Digest(ks, one) == Digest(ks, two)
  {
    if ks != [] {
      SameValuesSameDigest(ks[..|ks| - 1], one, two);
    }
  }

  lemma DigestOfSingle(k: string, data: map<string, string>)
    requires k in data
    ensures Digest([k], data) == Entry(k, data)
  {
    assert [k][..0] == [];
  }

  ghost function FirstEquals(s: string): (p: nat)
    requires '=' in s
    ensures p < |s| && s[p] == '=' && '=' !in s[..p]
  {
    if s[0] == '=' then 0
    else
      var p := FirstEquals(s[1..]) + 1;
      assert s[..p] == [s[0]] + s[1..][..p - 1];
      p
  }

  /** Before a known beginning, a part without '=' ends where the first '=' says. */
  lemma SameLead(v: string, w: string, lead: string, s: string, t: string)
    requires '=' !in v && '=' !in w && '=' in lead
    requires v + lead + s == w + lead + t
    ensures v == w && s == t
  {
    var p := FirstEquals(lead);
    var x, y := v + lead + s, w + lead + t;
    assert x[|v| + p] == '=' && y[|w| + p] == '=';
    assert forall k :: 0 <= k < p ==> lead[..p][k] != '=';
    assert forall k :: 0 <= k < |v| + p ==> x[k] != '=';
    assert forall k :: 0 <= k < |w| + p ==> y[k] != '=';
    assert v == x[..|v|] && w == y[..|w|];
    assert s == x[|v + lead|..] && t == y[|w + lead|..];
  }

  /** A last part without '=' starts where the last '=' says. */
  lemma SameTail(s: string, t: string, v: string, w: string)
    requires '=' !in v && '=' !in w
    requires s + "=" + v == t + "=" + w
    ensures v == w && s == t
  {
    var x, y := s + "=" + v, t + "=" + w;
    assert x[|s|] == '=' && y[|t|] == '=';
    assert forall k :: |s| < k < |x| ==> x[k] != '=';
    assert forall k :: |t| < k < |y| ==> y[k] != '=';
    assert s == x[..|s|] && t == y[..|t|];
    assert v == x[|s| + 1..] && w == y[|t| + 1..];
  }

  // ---------- The same keys ----------

  /** With '=' in the value of one key at most, the text gives the values back: those before that key are
      read from the front, those after it from the back. */
  lemma {:induction false} ReadBack(ks: seq<string>, e: nat, one: map<string, string>, two: map<string, string>)
    requires forall k :: k in ks ==> k in one && k in two
    requires forall i :: 0 <= i < |ks| && i != e ==> '=' !in one[ks[i]] && '=' !in two[ks[i]]
    requires Digest(ks, one) == Digest(ks, two)
    ensures forall i :: 0 <= i < |ks| ==> one[ks[i]] == two[ks[i]]
    decreases |ks|
  {
    var last := |ks| - 1;
    if |ks| == 1 {
      DigestOfSingle(ks[0], one);
      DigestOfSingle(ks[0], two);
      assert ks == [ks[0]];
      assert Entry(ks[0], one)[|ks[0]| + 1..] == one[ks[0]] && Entry(ks[0], two)[|ks[0]| + 1..] == two[ks[0]];
    } else if |ks| > 1 && e != last {
      var rest, k := ks[..last], ks[last];
      assert Digest(rest, one) + Entry(k, one) == (Digest(rest, one) + k) + "=" + one[k];
      assert Digest(rest, two) + Entry(k, two) == (Digest(rest, two) + k) + "=" + two[k];
      SameTail(Digest(rest, one) + k, Digest(rest, two) + k, one[k], two[k]);
      assert Digest(rest, one) == (Digest(rest, one) + k)[..|Digest(rest, one) + k| - |k|];
      assert Digest(rest, two) == (Digest(rest, two) + k)[..|Digest(rest, two) + k| - |k|];
      ReadBack(rest, e, one, two);
    } else if |ks| > 1 {
      FirstValue(ks, one, two);
      ReadBack(ks[1..], e - 1, one, two);
    }
  }

  lemma FirstValue(ks: seq<string>, one: map<string, string>, two: map<string, string>)
    requires |ks| > 1 && forall k :: k in ks ==> k in one && k in two
    requires '=' !in one[ks[0]] && '=' !in two[ks[0]]
    requires Digest(ks, one) == Digest(ks, two)
    ensures one[ks[0]] == two[ks[0]] && Digest(ks[1..], one) == Digest(ks[1..], two)
  {
    var first, lead := ks[0] + "=", ks[1] + "=";
    var s := AfterFirst(ks, one);
    var t := AfterFirst(ks, two);
    assert Digest(ks, one)[|first|..] == one[ks[0]] + lead + s;
    assert Digest(ks, two)[|first|..] == two[ks[0]] + lead + t;
    assert lead[|ks[1]|] == '=';
    SameLead(one[ks[0]], two[ks[0]], lead, s, t);
  }

  /** What follows the second key and its '='. */
  lemma AfterFirst(ks: seq<string>, data: map<string, string>) returns (s: string)
    requires |ks| > 1 && forall k :: k in ks ==> k in data
    ensures Digest(ks, data) == (ks[0] + "=") + (data[ks[0]] + (ks[1] + "=") + s)
    ensures Digest(ks[1..], data) == (ks[1] + "=") + s
  {
    hide Digest;
    var rest := ks[1..];
    FirstEntry(ks, data);
    FirstEntry(rest, data);
    s := data[rest[0]] + Digest(rest[1..], data);
    assert Entry(rest[0], data) + Digest(rest[1..], data) == (rest[0] + "=") + s;
    assert Entry(ks[0], data) + ((rest[0] + "=") + s) == (ks[0] + "=") + (data[ks[0]] + (rest[0] + "=") + s);
  }

  lemma FirstEntry(ks: seq<string>, data: map<string, string>)
    requires ks != [] && forall k :: k in ks ==> k in data
    ensures Digest(ks, data) == Entry(ks[0], data) + Digest(ks[1..], data)
  {
    hide Digest, Entry;
    assert ks == [ks[0]] + ks[1..];
    DigestOfParts([ks[0]], ks[1..], data);
    DigestOfSingle(ks[0], data);
  }

  function Blank(ks: seq<string>): map<string, string> {
    map k | k in ks :: ""
  }

  /** With two keys whose values may have '=', what stands between their values can move from one to the other. */
  lemma MoveMiddle(ks: seq<string>, i: nat, j: nat) returns (one: map<string, string>, two: map<string, string>)
    requires NoDuplicates(ks) && i < j < |ks|
    ensures Fits(one, ks, {ks[i], ks[j]}) && Fits(two, ks, {ks[i], ks[j]}) && one != two
    ensures Digest(ks, one) == Digest(ks, two)
  {
    hide Digest;
    var blank := Blank(ks);
    var a, b, c := ks[..i + 1], ks[i + 1..j + 1], ks[j + 1..];
    var pre, middle, post := Digest(a, blank), Digest(b, blank), Digest(c, blank);
    one, two := blank[ks[i] := middle], blank[ks[j] := middle];
    TextWith(ks, i, blank, middle);
    TextWith(ks, j, blank, middle);
    assert a + b == ks[..j + 1] && b + c == ks[i + 1..];
    DigestOfParts(a, b, blank);
    DigestOfParts(b, c, blank);
    assert pre + middle + (middle + post) == (pre + middle) + middle + post;
    FirstEntry(b, blank);
    assert one[ks[i]] != two[ks[i]];
  }

  /** Setting one blank value puts it after its key. */
  lemma TextWith(ks: seq<string>, i: nat, blank: map<string, string>, value: string)
    requires NoDuplicates(ks) && i < |ks| && blank == Blank(ks)
    ensures Digest(ks, blank[ks[i] := value]) == Digest(ks[..i + 1], blank) + value + Digest(ks[i + 1..], blank)
  {
    hide Digest;
    var data := blank[ks[i] := value];
    var upTo, rest := ks[..i + 1], ks[i + 1..];
    assert ks == upTo + rest;
    assert ks[i] !in rest;
    DigestOfParts(upTo, rest, data);
    SameValuesSameDigest(rest, data, blank);
    LastEntryWith(upTo, data, blank, value);
  }

  lemma LastEntryWith(ks: seq<string>, data: map<string, string>, blank: map<string, string>, value: string)
    requires ks != [] && NoDuplicates(ks) && blank.Keys == data.Keys && forall k :: k in ks ==> k in blank
    requires var last := ks[|ks| - 1]; blank[last] == "" && data == blank[last := value]
    ensures Digest(ks, data) == Digest(ks, blank) + value
  {
    var before, last := ks[..|ks| - 1], ks[|ks| - 1];
    assert last !in before;
    SameValuesSameDigest(before, data, blank);
    assert Entry(last, data) == Entry(last, blank) + value;
  }

  lemma SortedFit(keys: seq<string>, data: map<string, string>, free: set<string>)
    requires NoDuplicates(keys) && Fits(data, keys, free)
    ensures Enumerates(keys, data)
    ensures var ks := Sorting.Sort(keys, Before);
      NoDuplicates(ks) && Fits(data, ks, free) && ConfigDigest(keys, data) == Digest(ks, data)
  {
    hide Sorting.Sort, Before, Digest;
    SortedKeys(keys, data);
  }

  /** At most one of the keys is free. */
  ghost predicate AtMostOne(keys: seq<string>, free: set<string>) {
    forall k, l :: k in keys && l in keys && k in free && l in free ==> k == l
  }

  lemma OneFreeReadsBack(keys: seq<string>, free: set<string>, one: map<string, string>, two: map<string, string>)
    requires NoDuplicates(keys) && AtMostOne(keys, free)
    requires Fits(one, keys, free) && Fits(two, keys, free) && SameDigest(keys, one, keys, two)
    ensures one == two
  {
    hide Sorting.Sort, Before, Digest, ConfigDigest, Enumerates;
    SortedFit(keys, one, free);
    SortedFit(keys, two, free);
    var ks := Sorting.Sort(keys, Before);
    assert forall k :: k in ks <==> k in keys;
    var e: nat := if i :| 0 <= i < |ks| && ks[i] in free then i else 0;
    ReadBack(ks, e, one, two);
    assert forall k :: k in one ==> k in ks;
  }

  lemma TwoFreeClash(keys: seq<string>, free: set<string>)
    returns (one: map<string, string>, two: map<string, string>)
    requires NoDuplicates(keys) && !AtMostOne(keys, free)
    ensures Fits(one, keys, free) && Fits(two, keys, free) && SameDigest(keys, one, keys, two) && one != two
  {
    hide Sorting.Sort, Before, Digest, ConfigDigest, Enumerates;
    SortedFit(keys, Blank(keys), free);
    var ks := Sorting.Sort(keys, Before);
    assert forall k :: k in ks <==> k in keys;
    var k, l :| k in keys && l in keys && k in free && l in free && k != l;
    var i :| 0 <= i < |ks| && ks[i] == k;
    var j :| 0 <= j < |ks| && ks[j] == l;
    one, two := MoveMiddle(ks, if i < j then i else j, if i < j then j else i);
    SortedFit(keys, one, free);
    SortedFit(keys, two, free);
  }

  /**
    Equal digests of config maps with the same keys mean equal maps exactly when at most one key is free to
    have '=' in its value.
   */
  lemma DigestTellsValues(keys: seq<string>, free: set<string>)
    requires NoDuplicates(keys)
    ensures (forall one, two | Fits(one, keys, free) && Fits(two, keys, free) ::
        SameDigest(keys, one, keys, two) ==> one == two)
      <==> AtMostOne(keys, free)
  {
    hide Fits, SameDigest, AtMostOne;
    if AtMostOne(keys, free) {
      forall one, two | Fits(one, keys, free) && Fits(two, keys, free) && SameDigest(keys, one, keys, two)
        ensures one == two
      {
        OneFreeReadsBack(keys, free, one, two);
      }
    } else {
      var one, two := TwoFreeClash(keys, free);
    }
  }

  // ---------- Different keys ----------

  ghost predicate NoEquals(keys: seq<string>) {
    forall k :: k in keys ==> '=' !in k
  }

  ghost predicate NoEqualsIn(ks: seq<string>, data: map<string, string>) {
    forall k :: k in ks ==> k in data && '=' !in data[k]
  }

  /** What stands between two '=': a value and the key after it. */
  function Between(data: map<string, string>, k: string, next: string): string
    requires k in data
  {
    data[k] + next
  }

  /** Cut at every '=', both texts (each with something added at the end) have the same parts. */
  ghost predicate SameParts(
    ks: seq<string>, one: map<string, string>, ls: seq<string>, two: map<string, string>, a: string, b: string)
    requires NoEqualsIn(ks, one) && NoEqualsIn(ls, two)
  {
    && |ks| == |ls|
    && (ks == [] ==> a == b)
    && (ks != [] ==> ks[0] == ls[0] && Between(one, ks[|ks| - 1], a) == Between(two, ls[|ls| - 1], b))
    && forall i :: 0 < i < |ks| ==> Between(one, ks[i - 1], ks[i]) == Between(two, ls[i - 1], ls[i])
  }

  lemma {:induction false} PartsOfText(
    ks: seq<string>, one: map<string, string>, ls: seq<string>, two: map<string, string>, a: string, b: string)
    requires NoEquals(ks) && NoEquals(ls) && NoEqualsIn(ks, one) && NoEqualsIn(ls, two) && '=' !in a && '=' !in b
    ensures Digest(ks, one) + a == Digest(ls, two) + b <==> SameParts(ks, one, ls, two, a, b)
    decreases |ks|
  {
    if ks == [] || ls == [] {
      HasEquals(ks, one);
      HasEquals(ls, two);
      assert '=' in Digest(ks, one) ==> '=' in Digest(ks, one) + a;
      assert '=' in Digest(ls, two) ==> '=' in Digest(ls, two) + b;
      assert "" + a == a && "" + b == b;
    } else {
      var rk, k, rl, l := ks[..|ks| - 1], ks[|ks| - 1], ls[..|ls| - 1], ls[|ls| - 1];
      var x, y := Digest(rk, one) + k, Digest(rl, two) + l;
      assert Digest(ks, one) + a == x + "=" + (one[k] + a);
      assert Digest(ls, two) + b == y + "=" + (two[l] + b);
      if x + "=" + (one[k] + a) == y + "=" + (two[l] + b) {
        SameTail(x, y, one[k] + a, two[l] + b);
      }
      PartsOfText(rk, one, rl, two, k, l);
      PartsButLast(ks, one, ls, two, a, b);
    }
  }

  lemma PartsButLast(
    ks: seq<string>, one: map<string, string>, ls: seq<string>, two: map<string, string>, a: string, b: string)
    requires NoEqualsIn(ks, one) && NoEqualsIn(ls, two) && ks != [] && ls != []
    ensures var k, l := ks[|ks| - 1], ls[|ls| - 1];
      SameParts(ks, one, ls, two, a, b) <==>
        SameParts(ks[..|ks| - 1], one, ls[..|ls| - 1], two, k, l) && Between(one, k, a) == Between(two, l, b)
  {
    hide Between;
    var rk, rl, k, l := ks[..|ks| - 1], ls[..|ls| - 1], ks[|ks| - 1], ls[|ls| - 1];
    if SameParts(rk, one, rl, two, k, l) && Between(one, k, a) == Between(two, l, b) {
      forall i | 0 < i < |ks| ensures Between(one, ks[i - 1], ks[i]) == Between(two, ls[i - 1], ls[i]) {
        assert i < |rk| ==> rk[i] == ks[i] && rk[i - 1] == ks[i - 1];
      }
    }
    if SameParts(ks, one, ls, two, a, b) {
      forall i | 0 < i < |rk| ensures Between(one, rk[i - 1], rk[i]) == Between(two, rl[i - 1], rl[i]) {
        assert rk[i] == ks[i] && rk[i - 1] == ks[i - 1];
      }
    }
  }

  lemma HasEquals(ks: seq<string>, data: map<string, string>)
    requires forall k :: k in ks ==> k in data
    ensures ks != [] ==> '=' in Digest(ks, data)
  {
    if ks != [] {
      var k := ks[|ks| - 1];
      assert Entry(k, data)[|k|] == '=';
    }
  }

  /** One of the strings ends with the other. */
  predicate Tails(s: string, t: string) {
    if |s| <= |t| then t[|t| - |s|..] == s else s[|s| - |t|..] == t
  }

  /** As many keys, the same first one, and of any two others in the same place one ends with the other. */
  ghost predicate Confusable(ks: seq<string>, ls: seq<string>) {
    && |ks| == |ls|
    && (ks != [] ==> ks[0] == ls[0])
    && forall i :: 0 < i < |ks| ==> Tails(ks[i], ls[i])
  }

  lemma EqualEndsTail(v: string, s: string, w: string, t: string)
    requires v + s == w + t
    ensures Tails(s, t)
  {
    var x := v + s;
    assert s == x[|x| - |s|..] && t == x[|x| - |t|..];
  }

  /** What `t` has in front of `s`. */
  function Lead(s: string, t: string): string {
    if |s| <= |t| then t[..|t| - |s|] else ""
  }

  lemma LeadsLevel(s: string, t: string)
    requires Tails(s, t)
    ensures Lead(s, t) + s == Lead(t, s) + t
  {
    if |s| <= |t| {
      assert t == t[..|t| - |s|] + s;
    } else {
      assert s == s[..|s| - |t|] + t;
    }
  }

  ghost function PlaceOf(ks: seq<string>, k: string): (i: nat)
    requires k in ks
    ensures i < |ks| && ks[i] == k
  {
    var i: nat :| i < |ks| && ks[i] == k;
    i
  }

  /** Values that make up for what the next keys lack. */
  ghost function Leads(ks: seq<string>, ls: seq<string>): map<string, string>
    requires |ks| == |ls|
  {
    map k | k in ks :: var i := PlaceOf(ks, k) + 1; if i < |ks| then Lead(ks[i], ls[i]) else ""
  }

  lemma LeadsFit(ks: seq<string>, ls: seq<string>)
    requires NoDuplicates(ks) && |ks| == |ls| && NoEquals(ls)
    ensures Fits(Leads(ks, ls), ks, {}) && NoEqualsIn(ks, Leads(ks, ls))
    ensures forall i :: 0 < i < |ks| ==> Leads(ks, ls)[ks[i - 1]] == Lead(ks[i], ls[i])
    ensures ks != [] ==> Leads(ks, ls)[ks[|ks| - 1]] == ""
  {
    forall k, i: nat | k in ks && i < |ks| && ks[i] == k ensures PlaceOf(ks, k) == i {
    }
    forall i | 0 < i < |ks| ensures '=' !in Lead(ks[i], ls[i]) {
      assert ls[i] in ls;
    }
  }

  lemma SortedNoEquals(keys: seq<string>, data: map<string, string>)
    requires Enumerates(keys, data) && NoEquals(keys)
    ensures var ks := Sorting.Sort(keys, Before);
      NoEquals(ks) && NoDuplicates(ks) && (forall k :: k in ks ==> k in data) && ConfigDigest(keys, data) == Digest(ks, data)
  {
    hide Sorting.Sort, Before, Digest;
    SortedKeys(keys, data);
  }

  lemma ConfusedKeys(
    keys: seq<string>, others: seq<string>, one: map<string, string>, two: map<string, string>)
    requires NoEquals(keys) && NoEquals(others)
    requires Fits(one, keys, {}) && Fits(two, others, {}) && SameDigest(keys, one, others, two)
    ensures Confusable(Sorting.Sort(keys, Before), Sorting.Sort(others, Before))
  {
    hide Sorting.Sort, Before, Digest, ConfigDigest, Enumerates, NoEquals;
    SortedNoEquals(keys, one);
    SortedNoEquals(others, two);
    var ks, ls := Sorting.Sort(keys, Before), Sorting.Sort(others, Before);
    assert Digest(ks, one) + "" == Digest(ks, one) && Digest(ls, two) + "" == Digest(ls, two);
    PartsOfText(ks, one, ls, two, "", "");
    forall i | 0 < i < |ks| ensures Tails(ks[i], ls[i]) {
      EqualEndsTail(one[ks[i - 1]], ks[i], two[ls[i - 1]], ls[i]);
    }
  }

  lemma LeadsConfuse(ks: seq<string>, ls: seq<string>)
    requires NoDuplicates(ks) && NoDuplicates(ls) && NoEquals(ks) && NoEquals(ls) && Confusable(ks, ls)
    ensures Fits(Leads(ks, ls), ks, {}) && Fits(Leads(ls, ks), ls, {})
    ensures Digest(ks, Leads(ks, ls)) == Digest(ls, Leads(ls, ks))
  {
    hide Digest, Leads, Tails, NoEquals, NoDuplicates, Lead;
    var one, two := Leads(ks, ls), Leads(ls, ks);
    LeadsFit(ks, ls);
    LeadsFit(ls, ks);
    forall i | 0 < i < |ks| ensures Between(one, ks[i - 1], ks[i]) == Between(two, ls[i - 1], ls[i]) {
      LeadsLevel(ks[i], ls[i]);
    }
    assert Digest(ks, one) + "" == Digest(ks, one) && Digest(ls, two) + "" == Digest(ls, two);
    PartsOfText(ks, one, ls, two, "", "");
  }

  lemma ConfusingValues(keys: seq<string>, others: seq<string>)
    returns (one: map<string, string>, two: map<string, string>)
    requires NoDuplicates(keys) && NoDuplicates(others) && NoEquals(keys) && NoEquals(others)
    requires Confusable(Sorting.Sort(keys, Before), Sorting.Sort(others, Before))
    ensures Fits(one, keys, {}) && Fits(two, others, {}) && SameDigest(keys, one, others, two)
  {
    hide Sorting.Sort, Before, Digest, ConfigDigest, Leads, Confusable;
    SortedFit(keys, Blank(keys), {});
    SortedFit(others, Blank(others), {});
    SortedNoEquals(keys, Blank(keys));
    SortedNoEquals(others, Blank(others));
    var ks, ls := Sorting.Sort(keys, Before), Sorting.Sort(others, Before);
    assert (forall k :: k in ks <==> k in keys) && forall k :: k in ls <==> k in others;
    assert |ks| == |ls| by { SameLength(ks, ls); }
    LeadsConfuse(ks, ls);
    one, two := Leads(ks, ls), Leads(ls, ks);
    SortedFit(keys, one, {});
    SortedFit(others, two, {});
  }

  lemma SameLength(ks: seq<string>, ls: seq<string>)
    requires Confusable(ks, ls)
    ensures |ks| == |ls|
  {
  }

  /**
    Without any '=' in keys and values, two lists of keys have config maps with the same digest exactly when
    they are confusable; so config maps with other keys are told apart unless their keys are.
   */
  lemma DigestTellsKeys(keys: seq<string>, others: seq<string>)
    requires NoDuplicates(keys) && NoDuplicates(others) && NoEquals(keys) && NoEquals(others)
    ensures (exists one, two :: Fits(one, keys, {}) && Fits(two, others, {}) && SameDigest(keys, one, others, two))
      <==> Confusable(Sorting.Sort(keys, Before), Sorting.Sort(others, Before))
  {
    hide Fits, SameDigest, Confusable, Sorting.Sort, Before, NoEquals, NoDuplicates;
    if one, two :| Fits(one, keys, {}) && Fits(two, others, {}) && SameDigest(keys, one, others, two) {
      ConfusedKeys(keys, others, one, two);
    }
    if Confusable(Sorting.Sort(keys, Before), Sorting.Sort(others, Before)) {
      var one, two := ConfusingValues(keys, others);
    }
  }

  /** Both have no key, or both have the same first one. */
  predicate SameFirst(ks: seq<string>, ls: seq<string>) {
    if ks == [] || ls == [] then ks == ls else ks[0] == ls[0]
  }

  lemma FirstKeyOfText(ks: seq<string>, one: map<string, string>, ls: seq<string>, two: map<string, string>)
    requires NoEquals(ks) && NoEquals(ls)
    requires (forall k :: k in ks ==> k in one) && forall k :: k in ls ==> k in two
    requires Digest(ks, one) == Digest(ls, two)
    ensures SameFirst(ks, ls)
  {
    hide Digest;
    if ks == [] || ls == [] {
      HasEquals(ks, one);
      HasEquals(ls, two);
      EmptyDigest(one);
      EmptyDigest(two);
    } else {
      FirstEntry(ks, one);
      FirstEntry(ls, two);
      var s, t := one[ks[0]] + Digest(ks[1..], one), two[ls[0]] + Digest(ls[1..], two);
      assert Entry(ks[0], one) + Digest(ks[1..], one) == ks[0] + "=" + s;
      assert Entry(ls[0], two) + Digest(ls[1..], two) == ls[0] + "=" + t;
      SameLead(ks[0], ls[0], "=", s, t);
    }
  }

  lemma EmptyDigest(data: map<string, string>)
    ensures Digest([], data) == ""
  {
  }

  /** The other list's later keys fit into the last value here and the first value there. */
  lemma FirstKeyClash(ks: seq<string>, ls: seq<string>) returns (one: map<string, string>, two: map<string, string>)
    requires NoDuplicates(ks) && NoDuplicates(ls) && ks != [] && ls != [] && ks[0] == ls[0]
    ensures (forall k :: k in ks <==> k in one) && forall k :: k in ls <==> k in two
    ensures Digest(ks, one) == Digest(ls, two)
  {
    hide Digest, Entry;
    var blank, other := Blank(ks), Blank(ls);
    var x, y := Digest(ks[1..], blank), Digest(ls[1..], other);
    one, two := blank[ks[|ks| - 1] := y], other[ls[0] := x];
    LastEntryWith(ks, one, blank, y);
    FirstEntry(ks, blank);
    TextWith(ls, 0, other, x);
    assert ls[..1] == [ls[0]];
    DigestOfSingle(ls[0], other);
    assert Entry(ks[0], blank) == Entry(ls[0], other) by { SameBlankEntry(ks[0], blank, other); }
  }

  lemma SameBlankEntry(k: string, one: map<string, string>, two: map<string, string>)
    requires k in one && k in two && one[k] == two[k]
    ensures Entry(k, one) == Entry(k, two)
  {
  }

  /** With any values, two lists of keys without '=' have config maps with the same digest exactly when the
      first of their keys in sorted order is the same. */
  lemma DigestTellsFirstKey(keys: seq<string>, others: seq<string>)
    requires NoDuplicates(keys) && NoDuplicates(others) && NoEquals(keys) && NoEquals(others)
    ensures (exists one, two :: SameDigest(keys, one, others, two))
      <==> SameFirst(Sorting.Sort(keys, Before), Sorting.Sort(others, Before))
  {
    hide Sorting.Sort, Before, Digest, ConfigDigest, NoEquals, SameFirst;
    var ks, ls := Sorting.Sort(keys, Before), Sorting.Sort(others, Before);
    if one, two :| SameDigest(keys, one, others, two) {
      SortedNoEquals(keys, one);
      SortedNoEquals(others, two);
      FirstKeyOfText(ks, one, ls, two);
    }
    if SameFirst(ks, ls) {
      SameFirstClash(keys, others);
    }
  }

  lemma SameFirstClash(keys: seq<string>, others: seq<string>)
    requires NoDuplicates(keys) && NoDuplicates(others) && NoEquals(keys) && NoEquals(others)
    requires SameFirst(Sorting.Sort(keys, Before), Sorting.Sort(others, Before))
    ensures exists one, two :: SameDigest(keys, one, others, two)
  {
    hide Sorting.Sort, Before, Digest, ConfigDigest, NoEquals;
    var ks, ls := Sorting.Sort(keys, Before), Sorting.Sort(others, Before);
    SortedFit(keys, Blank(keys), {});
    SortedFit(others, Blank(others), {});
    assert (forall k :: k in ks <==> k in keys) && forall k :: k in ls <==> k in others;
    var one, two := Blank(ks), Blank(ls);
    if ks != [] {
      one, two := FirstKeyClash(ks, ls);
    }
    SortedFit(keys, one, set k | k in keys);
    SortedFit(others, two, set k | k in others);
    assert SameDigest(keys, one, others, two);
  }
}
