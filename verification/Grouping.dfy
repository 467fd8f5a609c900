/** Grouping the way the findings passes do it: walk a list once, put each item that has a key into
    an insertion-ordered dictionary of lists, keep the others aside, then walk the dictionary.
    Items are named by their positions in the list. */
module Grouping {
  import opened Sequences

  // ---------------------------------------------------------------- the dictionary of lists

  /** Python's `d.setdefault(k, []).append(v)` on a dict that remembers insertion order. */
  function Append<K(==), V>(d: seq<(K, seq<V>)>, k: K, v: V): seq<(K, seq<V>)> {
    if d == [] then [(k, [v])]
    else if d[0].0 == k then [(k, d[0].1 + [v])] + d[1..]
    else [d[0]] + Append(d[1..], k, v)
  }

  /** Those of the first n items that have no key ... */
  function Loose<K>(keys: seq<Option<K>>, n: nat): seq<nat>
    requires n <= |keys|
  {
    if n == 0 then []
    else
      var last: nat := n - 1;
      if keys[last].None? then Loose(keys, last) + [last] else Loose(keys, last)
  }

  /** ... and the dictionary of the others. */
  function Entries<K(==)>(keys: seq<Option<K>>, n: nat): seq<(K, seq<nat>)>
    requires n <= |keys|
  {
    if n == 0 then []
    else
      var last: nat := n - 1;
      if keys[last].None? then Entries(keys, last) else Append(Entries(keys, last), keys[last].value, last)
  }

  function Singles(items: seq<nat>): (gs: seq<seq<nat>>)
    ensures |gs| == |items| && forall i | 0 <= i < |items| :: gs[i] == [items[i]]
  {
    seq(|items|, i requires 0 <= i < |items| => [items[i]])
  }

  /** A group of the dictionary as it is, or taken apart again. */
  function Parts(g: seq<nat>, merges: seq<nat> -> bool): seq<seq<nat>> {
    if merges(g) then [g] else Singles(g)
  }

  function Expand<K>(d: seq<(K, seq<nat>)>, merges: seq<nat> -> bool): seq<seq<nat>> {
    if d == [] then [] else Parts(d[0].1, merges) + Expand(d[1..], merges)
  }

  /** The groups of a pass, in the order in which the pass puts them out: first the items without a
      key, then, key by key, the groups that are merged and the items of those that are not. */
  function Partition<K(==)>(keys: seq<Option<K>>, merges: seq<nat> -> bool): seq<seq<nat>> {
    Singles(Loose(keys, |keys|)) + Expand(Entries(keys, |keys|), merges)
  }

  // ---------------------------------------------------------------- nothing is lost or doubled

  /** All positions of the groups, one group after the other. */
  function Positions(groups: seq<seq<nat>>): seq<nat> {
    if groups == [] then [] else groups[0] + Positions(groups[1..])
  }

  function Upto(n: nat): (r: seq<nat>)
    ensures |r| == n && forall i | 0 <= i < n :: r[i] == i
  {
    seq(n, i => i)
  }

  function Items<K>(d: seq<(K, seq<nat>)>): seq<nat> {
    if d == [] then [] else d[0].1 + Items(d[1..])
  }

  lemma {:induction false} PositionsJoin(a: seq<seq<nat>>, b: seq<seq<nat>>)
    ensures Positions(a + b) == Positions(a) + Positions(b)
  {
    if a == [] {
      assert a + b == b;
    } else {
      PositionsJoin(a[1..], b);
      assert (a + b)[1..] == a[1..] + b;
      Associative(a[0], Positions(a[1..]), Positions(b));
    }
  }

  lemma {:induction false} PositionsOfSingles(items: seq<nat>)
    ensures Positions(Singles(items)) == items
  {
    if items != [] {
      PositionsOfSingles(items[1..]);
      assert Singles(items)[1..] == Singles(items[1..]);
    }
  }

  lemma {:induction false} PositionsOfExpand<K>(d: seq<(K, seq<nat>)>, merges: seq<nat> -> bool)
    ensures Positions(Expand(d, merges)) == Items(d)
  {
    if d != [] {
      PositionsOfExpand(d[1..], merges);
      PositionsOfSingles(d[0].1);
      assert Positions([d[0].1]) == d[0].1;
      PositionsJoin(Parts(d[0].1, merges), Expand(d[1..], merges));
    }
  }

  lemma {:induction false} AppendItems<K>(d: seq<(K, seq<nat>)>, k: K, v: nat)
    ensures multiset(Items(Append(d, k, v))) == multiset(Items(d)) + multiset{v}
  {
    if d == [] {
      assert Items([(k, [v])]) == [v];
    } else if d[0].0 == k {
      assert Append(d, k, v)[1..] == d[1..];
    } else {
      AppendItems(d[1..], k, v);
      assert Append(d, k, v)[1..] == Append(d[1..], k, v);
    }
  }

  lemma UptoNext(n: nat)
    ensures multiset(Upto(n + 1)) == multiset(Upto(n)) + multiset{n}
  {
    assert Upto(n + 1) == Upto(n) + [n];
  }

  lemma PutLoose(loose: seq<nat>, items: seq<nat>, n: nat)
    requires multiset(loose) + multiset(items) == multiset(Upto(n))
    ensures multiset(loose + [n]) + multiset(items) == multiset(Upto(n + 1))
  {
    UptoNext(n);
    assert multiset(loose + [n]) == multiset(loose) + multiset{n};
  }

  lemma PutItem(loose: seq<nat>, items: seq<nat>, more: seq<nat>, n: nat)
    requires multiset(loose) + multiset(items) == multiset(Upto(n))
    requires multiset(more) == multiset(items) + multiset{n}
    ensures multiset(loose) + multiset(more) == multiset(Upto(n + 1))
  {
    UptoNext(n);
  }

  predicate AllPlaced<K(==)>(loose: seq<nat>, d: seq<(K, seq<nat>)>, n: nat) {
    multiset(loose) + multiset(Items(d)) == multiset(Upto(n))
  }

  lemma PlaceLoose<K>(loose: seq<nat>, d: seq<(K, seq<nat>)>, n: nat)
    requires AllPlaced(loose, d, n)
    ensures AllPlaced(loose + [n], d, n + 1)
  {
    PutLoose(loose, Items(d), n);
  }

  lemma PlaceItem<K>(loose: seq<nat>, d: seq<(K, seq<nat>)>, k: K, n: nat)
    requires AllPlaced(loose, d, n)
    ensures AllPlaced(loose, Append(d, k, n), n + 1)
  {
    AppendItems(d, k, n);
    PutItem(loose, Items(d), Items(Append(d, k, n)), n);
  }

  lemma {:induction false} CollectItems<K>(keys: seq<Option<K>>, n: nat)
    requires n <= |keys|
    ensures AllPlaced(Loose(keys, n), Entries(keys, n), n)
  {
    if n > 0 {
      var last: nat := n - 1;
      CollectItems(keys, last);
      CollectStep(keys, last);
    }
  }

  lemma CollectStep<K>(keys: seq<Option<K>>, n: nat)
    requires n < |keys| && AllPlaced(Loose(keys, n), Entries(keys, n), n)
    ensures AllPlaced(Loose(keys, n + 1), Entries(keys, n + 1), n + 1)
  {
    hide AllPlaced, Append;
    if keys[n].None? {
      PlaceLoose(Loose(keys, n), Entries(keys, n), n);
    } else {
      PlaceItem(Loose(keys, n), Entries(keys, n), keys[n].value, n);
    }
  }

  /** The groups hold every position of the list exactly once. */
  lemma PartitionIsComplete<K>(keys: seq<Option<K>>, merges: seq<nat> -> bool)
    ensures multiset(Positions(Partition(keys, merges))) == multiset(Upto(|keys|))
  {
    var loose, d := Loose(keys, |keys|), Entries(keys, |keys|);
    CollectItems(keys, |keys|);
    PositionsOfSingles(loose);
    PositionsOfExpand(d, merges);
    PositionsJoin(Singles(loose), Expand(d, merges));
  }

  /** Every position is in some group, and in no other one. */
  predicate IsPartition(groups: seq<seq<nat>>, n: nat) {
    multiset(Positions(groups)) == multiset(Upto(n))
  }

  /** Groups with members, all of them positions below n. */
  predicate Within(groups: seq<seq<nat>>, n: nat) {
    forall a | 0 <= a < |groups| :: groups[a] != [] && forall i | 0 <= i < |groups[a]| :: groups[a][i] < n
  }

  lemma {:induction false} InPositions(groups: seq<seq<nat>>, x: nat)
    ensures x in Positions(groups) <==> exists a | 0 <= a < |groups| :: x in groups[a]
  {
    if groups != [] {
      InPositions(groups[1..], x);
      if a :| 0 <= a < |groups| && x in groups[a] {
        assert a > 0 ==> groups[1..][a - 1] == groups[a];
      }
      if x in Positions(groups[1..]) {
        var a :| 0 <= a < |groups[1..]| && x in groups[1..][a];
        assert groups[a + 1] == groups[1..][a];
      }
    }
  }

  lemma MemberCount(s: seq<nat>, x: nat)
    ensures x in s <==> multiset(s)[x] > 0
  {
    assert x in s <==> x in multiset(s);
  }

  lemma {:induction false} UptoCount(n: nat, x: nat)
    ensures multiset(Upto(n))[x] == if x < n then 1 else 0
  {
    if n > 0 {
      var last: nat := n - 1;
      UptoCount(last, x);
      assert Upto(n) == Upto(last) + [last];
    }
  }

  lemma PartitionCovers(groups: seq<seq<nat>>, n: nat, x: nat)
    requires IsPartition(groups, n)
    ensures x < n <==> exists a | 0 <= a < |groups| :: x in groups[a]
  {
    UptoCount(n, x);
    MemberCount(Positions(groups), x);
    InPositions(groups, x);
  }

  lemma PartitionDisjoint(groups: seq<seq<nat>>, n: nat, a: nat, b: nat, x: nat)
    requires IsPartition(groups, n) && a < |groups| && b < |groups| && x in groups[a] && x in groups[b]
    ensures a == b
  {
    UptoCount(n, x);
    OnceOnly(groups, a, b, x);
  }

  lemma {:induction false} OnceOnly(groups: seq<seq<nat>>, a: nat, b: nat, x: nat)
    requires multiset(Positions(groups))[x] <= 1
    requires a < |groups| && b < |groups| && x in groups[a] && x in groups[b]
    ensures a == b
  {
    var rest := groups[1..];
    assert multiset(Positions(groups)) == multiset(groups[0]) + multiset(Positions(rest));
    InPositions(rest, x);
    MemberCount(Positions(rest), x);
    MemberCount(groups[0], x);
    assert a > 0 ==> rest[a - 1] == groups[a];
    assert b > 0 ==> rest[b - 1] == groups[b];
    if a > 0 && b > 0 {
      OnceOnly(rest, a - 1, b - 1, x);
    }
  }

  function TotalSize(groups: seq<seq<nat>>): nat {
    if groups == [] then 0 else |groups[0]| + TotalSize(groups[1..])
  }

  lemma {:induction false} PositionsSize(groups: seq<seq<nat>>)
    ensures |Positions(groups)| == TotalSize(groups)
  {
    if groups != [] {
      PositionsSize(groups[1..]);
    }
  }

  /** What merging saves: all members of every group but one. */
  function Absorbed(groups: seq<seq<nat>>): int {
    if groups == [] then 0 else |groups[0]| - 1 + Absorbed(groups[1..])
  }

  lemma {:induction false} AbsorbedCount(groups: seq<seq<nat>>)
    ensures Absorbed(groups) == TotalSize(groups) - |groups|
  {
    if groups != [] {
      AbsorbedCount(groups[1..]);
    }
  }

  /** There are as many groups as positions, less the members that merging absorbs. */
  lemma PartitionSize(groups: seq<seq<nat>>, n: nat)
    requires IsPartition(groups, n)
    ensures |groups| == n - Absorbed(groups)
  {
    PositionsSize(groups);
    AbsorbedCount(groups);
    assert |multiset(Positions(groups))| == |multiset(Upto(n))|;
  }

  // ---------------------------------------------------------------- what the groups have in common

  /** Every entry is a non-empty, ascending list of positions below n that have the entry's key. */
  predicate HasKeys<K(==)>(d: seq<(K, seq<nat>)>, keys: seq<Option<K>>, n: nat)
    requires n <= |keys|
  {
    forall e | 0 <= e < |d| ::
      && d[e].1 != []
      && (forall i | 0 <= i < |d[e].1| :: d[e].1[i] < n && keys[d[e].1[i]] == Some(d[e].0))
      && (forall i, j | 0 <= i < j < |d[e].1| :: d[e].1[i] < d[e].1[j])
  }

  predicate KeysDiffer<K(==), V>(d: seq<(K, seq<V>)>) {
    forall e, f | 0 <= e < f < |d| :: d[e].0 != d[f].0
  }

  lemma {:induction false} AppendKeys<K>(d: seq<(K, seq<nat>)>, k: K, keys: seq<Option<K>>, n: nat)
    requires n < |keys| && HasKeys(d, keys, n) && keys[n] == Some(k)
    ensures HasKeys(Append(d, k, n), keys, n + 1)
  {
    var r := Append(d, k, n);
    if d == [] {
    } else if d[0].0 == k {
      assert forall e | 0 < e < |r| :: r[e] == d[e];
      assert r[0] == (k, d[0].1 + [n]);
    } else {
      assert forall e | 0 <= e < |d[1..]| :: d[1..][e] == d[e + 1];
      AppendKeys(d[1..], k, keys, n);
      assert forall e | 0 < e < |r| :: r[e] == Append(d[1..], k, n)[e - 1];
      assert r[0] == d[0];
    }
  }

  lemma {:induction false} AppendDiffers<K, V>(d: seq<(K, seq<V>)>, k: K, v: V)
    requires KeysDiffer(d)
    ensures KeysDiffer(Append(d, k, v))
    ensures forall e | 0 <= e < |Append(d, k, v)| ::
              Append(d, k, v)[e].0 == k || exists f | 0 <= f < |d| :: d[f].0 == Append(d, k, v)[e].0
  {
    var r := Append(d, k, v);
    if d == [] {
    } else if d[0].0 == k {
      assert forall e | 0 < e < |r| :: r[e] == d[e];
    } else {
      assert forall e | 0 <= e < |d[1..]| :: d[1..][e] == d[e + 1];
      AppendDiffers(d[1..], k, v);
      assert forall e | 0 < e < |r| :: r[e] == Append(d[1..], k, v)[e - 1];
    }
  }

  lemma {:induction false} EntriesHaveKeys<K>(keys: seq<Option<K>>, n: nat)
    requires n <= |keys|
    ensures HasKeys(Entries(keys, n), keys, n) && KeysDiffer(Entries(keys, n))
  {
    if n > 0 {
      var last: nat := n - 1;
      EntriesHaveKeys(keys, last);
      if keys[last].Some? {
        AppendKeys(Entries(keys, last), keys[last].value, keys, last);
        AppendDiffers(Entries(keys, last), keys[last].value, last);
      }
    }
  }

  lemma {:induction false} LooseHaveNone<K>(keys: seq<Option<K>>, n: nat)
    requires n <= |keys|
    ensures forall i | 0 <= i < |Loose(keys, n)| :: Loose(keys, n)[i] < n && keys[Loose(keys, n)[i]].None?
  {
    if n > 0 {
      LooseHaveNone(keys, n - 1);
    }
  }

  /** Where an item with a key is to be found in the dictionary. */
  lemma {:induction false} EntryOf<K>(keys: seq<Option<K>>, n: nat, i: nat) returns (e: nat)
    requires i < n <= |keys| && keys[i].Some?
    ensures e < |Entries(keys, n)| && Entries(keys, n)[e].0 == keys[i].value && i in Entries(keys, n)[e].1
  {
    hide Entries;
    EntriesNext(keys, n - 1);
    if i == n - 1 {
      e := AppendHas(Entries(keys, n - 1), keys[i].value, i);
    } else {
      var f := EntryOf(keys, n - 1, i);
      e := f;
      if keys[n - 1].Some? {
        AppendKeeps(Entries(keys, n - 1), keys[n - 1].value, n - 1, e, i);
      }
    }
  }

  lemma EntriesNext<K>(keys: seq<Option<K>>, n: nat)
    requires n < |keys|
    ensures Entries(keys, n + 1)
         == if keys[n].None? then Entries(keys, n) else Append(Entries(keys, n), keys[n].value, n)
  {
  }

  lemma {:induction false} AppendHas<K>(d: seq<(K, seq<nat>)>, k: K, v: nat) returns (e: nat)
    ensures e < |Append(d, k, v)| && Append(d, k, v)[e].0 == k && v in Append(d, k, v)[e].1
  {
    if d == [] || d[0].0 == k {
      e := 0;
    } else {
      var f := AppendHas(d[1..], k, v);
      e := f + 1;
    }
  }

  lemma {:induction false} AppendKeeps<K>(d: seq<(K, seq<nat>)>, k: K, v: nat, e: nat, i: nat)
    requires e < |d| && i in d[e].1
    ensures e < |Append(d, k, v)| && Append(d, k, v)[e].0 == d[e].0 && i in Append(d, k, v)[e].1
  {
    if d[0].0 != k && e > 0 {
      AppendKeeps(d[1..], k, v, e - 1, i);
    }
  }

  /** The lists of a dictionary, as they are. */
  function Lists<K>(d: seq<(K, seq<nat>)>): (gs: seq<seq<nat>>)
    ensures |gs| == |d| && forall e | 0 <= e < |d| :: gs[e] == d[e].1
  {
    seq(|d|, e requires 0 <= e < |d| => d[e].1)
  }

  /** If only groups of one are taken apart, the groups come out as they are. */
  lemma {:induction false} ExpandWhole<K>(d: seq<(K, seq<nat>)>, merges: seq<nat> -> bool)
    requires forall e | 0 <= e < |d| :: merges(d[e].1) || |d[e].1| == 1
    ensures Expand(d, merges) == Lists(d)
  {
    if d != [] {
      var rest := d[1..];
      assert forall e | 0 <= e < |rest| :: rest[e] == d[e + 1];
      ExpandWhole(rest, merges);
      if |d[0].1| == 1 {
        assert [d[0].1[0]] == d[0].1;
        assert Singles(d[0].1) == [d[0].1];
      }
      assert Lists(d) == [d[0].1] + Lists(rest);
    }
  }

  /** Every group of several members is merged. */
  ghost predicate MergesAll(merges: seq<nat> -> bool) {
    forall g: seq<nat> | |g| >= 2 :: merges(g)
  }

  lemma PartitionWhole<K>(keys: seq<Option<K>>, merges: seq<nat> -> bool)
    requires MergesAll(merges)
    ensures Partition(keys, merges) == Singles(Loose(keys, |keys|)) + Lists(Entries(keys, |keys|))
  {
    EntriesHaveKeys(keys, |keys|);
    ExpandWhole(Entries(keys, |keys|), merges);
  }

  /** The a-th group is a single position without a key, or an entry of the dictionary: ascending
      positions that all have the entry's key. */
  lemma PartitionShape<K>(keys: seq<Option<K>>, merges: seq<nat> -> bool, a: nat)
    requires MergesAll(merges) && a < |Partition(keys, merges)|
    ensures |Partition(keys, merges)| == |Loose(keys, |keys|)| + |Entries(keys, |keys|)|
    ensures var g := Partition(keys, merges)[a];
            && g != [] && (forall i | 0 <= i < |g| :: g[i] < |keys|)
            && (keys[g[0]].None? ==> |g| == 1 && a < |Loose(keys, |keys|)|)
            && (keys[g[0]].Some? ==>
                 a >= |Loose(keys, |keys|)| && g == Entries(keys, |keys|)[a - |Loose(keys, |keys|)|].1)
            && (forall i | 0 <= i < |g| :: keys[g[i]] == keys[g[0]])
            && (forall i, j | 0 <= i < j < |g| :: g[i] < g[j])
  {
    hide Entries, Loose, Expand;
    var loose, d := Loose(keys, |keys|), Entries(keys, |keys|);
    PartitionWhole(keys, merges);
    LooseHaveNone(keys, |keys|);
    EntriesHaveKeys(keys, |keys|);
    if a >= |loose| {
      var e := a - |loose|;
      assert Partition(keys, merges)[a] == d[e].1;
      assert keys[d[e].1[0]] == Some(d[e].0);
    }
  }

  lemma {:induction false} ExpandJoin<K>(a: seq<(K, seq<nat>)>, b: seq<(K, seq<nat>)>, merges: seq<nat> -> bool)
    ensures Expand(a + b, merges) == Expand(a, merges) + Expand(b, merges)
  {
    hide Expand, Parts;
    if a == [] {
      assert a + b == b;
      ExpandNone<K>(merges);
    } else {
      var x, rest := a[0], a[1..];
      ExpandJoin(rest, b, merges);
      ExpandFirst(x, rest, merges);
      ExpandFirst(x, rest + b, merges);
      assert a == [x] + rest && a + b == [x] + (rest + b);
      Associative(Parts(x.1, merges), Expand(rest, merges), Expand(b, merges));
    }
  }

  lemma ExpandNone<K>(merges: seq<nat> -> bool)
    ensures Expand<K>([], merges) == []
  {
  }

  lemma ExpandFirst<K>(x: (K, seq<nat>), d: seq<(K, seq<nat>)>, merges: seq<nat> -> bool)
    ensures Expand([x] + d, merges) == Parts(x.1, merges) + Expand(d, merges)
  {
    assert ([x] + d)[1..] == d;
  }

  /** Where a group comes from: it is a merged entry of the dictionary, or one member of an entry. */
  lemma {:induction false} ExpandMember<K>(d: seq<(K, seq<nat>)>, merges: seq<nat> -> bool, a: nat) returns (e: nat)
    requires a < |Expand(d, merges)|
    ensures e < |d|
    ensures var g := Expand(d, merges)[a];
            (merges(g) && g == d[e].1) || (|g| == 1 && g[0] in d[e].1)
  {
    var first := |Parts(d[0].1, merges)|;
    if a < first {
      e := 0;
    } else {
      var k := ExpandMember(d[1..], merges, a - first);
      e := k + 1;
    }
  }

  /** Whatever is merged: a group is a single position, or the ascending positions with some key. */
  lemma PartitionMember<K>(keys: seq<Option<K>>, merges: seq<nat> -> bool, a: nat)
    requires a < |Partition(keys, merges)|
    ensures var g := Partition(keys, merges)[a];
            && g != [] && (forall i | 0 <= i < |g| :: g[i] < |keys|)
            && (forall i, j | 0 <= i < j < |g| :: g[i] < g[j])
            && (|g| > 1 ==> merges(g) && keys[g[0]].Some?)
            && (forall i | 0 <= i < |g| :: keys[g[i]] == keys[g[0]])
  {
    var loose, d := Loose(keys, |keys|), Entries(keys, |keys|);
    LooseHaveNone(keys, |keys|);
    EntriesHaveKeys(keys, |keys|);
    if a < |loose| {
      assert Partition(keys, merges)[a] == [loose[a]];
    } else {
      var e := ExpandMember(d, merges, a - |loose|);
      var g := Partition(keys, merges)[a];
      assert g == Expand(d, merges)[a - |loose|];
      if g == d[e].1 {
        assert keys[g[0]] == Some(d[e].0);
      }
    }
  }

  /** A list without keys stays as it is. */
  lemma {:induction false} AllLoose<K>(keys: seq<Option<K>>, n: nat)
    requires n <= |keys| && forall i | 0 <= i < n :: keys[i].None?
    ensures Loose(keys, n) == Upto(n) && Entries(keys, n) == []
  {
    if n > 0 {
      AllLoose(keys, n - 1);
    }
  }

  lemma {:induction false} LooseHasAll<K>(keys: seq<Option<K>>, n: nat, i: nat)
    requires i < n <= |keys| && keys[i].None?
    ensures i in Loose(keys, n)
  {
    if i < n - 1 {
      LooseHasAll(keys, n - 1, i);
    }
  }

  /** A position without a key is a group of its own. */
  lemma LooseIsGroup<K>(keys: seq<Option<K>>, merges: seq<nat> -> bool, i: nat) returns (a: nat)
    requires i < |keys| && keys[i].None?
    ensures a < |Partition(keys, merges)| && Partition(keys, merges)[a] == [i]
  {
    hide Loose, Entries, Expand;
    LooseHasAll(keys, |keys|, i);
    a :| 0 <= a < |Loose(keys, |keys|)| && Loose(keys, |keys|)[a] == i;
  }

  /** An entry of the dictionary holds exactly the positions that have its key. */
  lemma EntryIsClass<K>(keys: seq<Option<K>>, e: nat, i: nat)
    requires e < |Entries(keys, |keys|)|
    ensures i in Entries(keys, |keys|)[e].1 <==> i < |keys| && keys[i] == Some(Entries(keys, |keys|)[e].0)
  {
    hide Entries;
    EntriesHaveKeys(keys, |keys|);
    if i < |keys| && keys[i].Some? {
      var f := EntryOf(keys, |keys|, i);
    }
  }

  lemma {:induction false} ExpandHas<K>(d: seq<(K, seq<nat>)>, merges: seq<nat> -> bool, e: nat) returns (a: nat)
    requires e < |d| && merges(d[e].1)
    ensures a < |Expand(d, merges)| && Expand(d, merges)[a] == d[e].1
  {
    if e == 0 {
      a := 0;
    } else {
      var b := ExpandHas(d[1..], merges, e - 1);
      a := b + |Parts(d[0].1, merges)|;
    }
  }

  /** Two positions come into one group exactly if they have the same key and what has it is merged. */
  lemma SameGroupExactly<K>(keys: seq<Option<K>>, merges: seq<nat> -> bool, i: nat, j: nat)
    requires i < |keys| && j < |keys| && i != j
    ensures (exists a | 0 <= a < |Partition(keys, merges)| ::
              i in Partition(keys, merges)[a] && j in Partition(keys, merges)[a])
            <==> keys[i].Some? && keys[i] == keys[j]
                 && exists e | 0 <= e < |Entries(keys, |keys|)| ::
                      Entries(keys, |keys|)[e].0 == keys[i].value && merges(Entries(keys, |keys|)[e].1)
  {
    hide Entries, Expand, Loose;
    var p, d, loose := Partition(keys, merges), Entries(keys, |keys|), Loose(keys, |keys|);
    if a :| 0 <= a < |p| && i in p[a] && j in p[a] {
      PartitionMember(keys, merges, a);
      assert |p[a]| > 1;
      var e := ExpandMember(d, merges, a - |loose|);
      EntryIsClass(keys, e, i);
    }
    if keys[i].Some? && keys[i] == keys[j] {
      if e :| 0 <= e < |d| && d[e].0 == keys[i].value && merges(d[e].1) {
        var a := ExpandHas(d, merges, e);
        EntryIsClass(keys, e, i);
        EntryIsClass(keys, e, j);
        assert p[|loose| + a] == d[e].1;
      }
    }
  }

  /** Two groups do not have the same key. */
  lemma PartitionKeysDiffer<K>(keys: seq<Option<K>>, merges: seq<nat> -> bool, a: nat, b: nat)
    requires MergesAll(merges) && a < b < |Partition(keys, merges)|
    ensures var p := Partition(keys, merges);
            && p[a] != [] && p[b] != [] && p[a][0] < |keys| && p[b][0] < |keys|
            && (keys[p[a][0]].Some? ==> keys[p[a][0]] != keys[p[b][0]])
  {
    PartitionShape(keys, merges, a);
    PartitionShape(keys, merges, b);
    var n, d := |Loose(keys, |keys|)|, Entries(keys, |keys|);
    EntriesHaveKeys(keys, |keys|);
    if keys[Partition(keys, merges)[a][0]].Some? {
      var x, y := d[a - n], d[b - n];
      assert keys[x.1[0]] == Some(x.0) && x.0 != y.0;
    }
  }

  // ---------------------------------------------------------------- gathering over a permutation

  /** The parts of the listed positions, one after the other. */
  function Gather<T>(parts: seq<seq<T>>, picks: seq<nat>): seq<T>
    requires forall i | 0 <= i < |picks| :: picks[i] < |parts|
  {
    if picks == [] then [] else parts[picks[0]] + Gather(parts, picks[1..])
  }

  lemma {:induction false} GatherJoin<T>(parts: seq<seq<T>>, a: seq<nat>, b: seq<nat>)
    requires forall i | 0 <= i < |a| :: a[i] < |parts|
    requires forall i | 0 <= i < |b| :: b[i] < |parts|
    ensures forall i | 0 <= i < |a + b| :: (a + b)[i] < |parts|
    ensures Gather(parts, a + b) == Gather(parts, a) + Gather(parts, b)
  {
    if a == [] {
      assert a + b == b;
    } else {
      GatherJoin(parts, a[1..], b);
      assert (a + b)[1..] == a[1..] + b;
      Associative(parts[a[0]], Gather(parts, a[1..]), Gather(parts, b));
    }
  }

  /** The first item of a list has its place in every list with the same items. */
  lemma TakeOut(a: seq<nat>, b: seq<nat>) returns (j: nat)
    requires a != [] && multiset(a) == multiset(b)
    ensures j < |b| && b[j] == a[0] && multiset(a[1..]) == multiset(b[..j] + b[j + 1..])
  {
    assert a[0] in multiset(b);
    j :| 0 <= j < |b| && b[j] == a[0];
    assert a == [a[0]] + a[1..];
    assert b == b[..j] + [a[0]] + b[j + 1..];
    assert multiset(b) == multiset(b[..j]) + multiset{a[0]} + multiset(b[j + 1..]);
    assert multiset(a) == multiset{a[0]} + multiset(a[1..]);
    assert multiset(b[..j] + b[j + 1..]) == multiset(b[..j]) + multiset(b[j + 1..]);
    assert multiset(a[1..]) == multiset(a) - multiset{a[0]};
    assert multiset(b[..j] + b[j + 1..]) == multiset(b) - multiset{a[0]};
  }

  /** Listing the same positions in another order gathers the same things. */
  lemma {:induction false} GatherPermuted<T>(parts: seq<seq<T>>, a: seq<nat>, b: seq<nat>)
    requires forall i | 0 <= i < |a| :: a[i] < |parts|
    requires forall i | 0 <= i < |b| :: b[i] < |parts|
    requires multiset(a) == multiset(b)
    ensures multiset(Gather(parts, a)) == multiset(Gather(parts, b))
    decreases |a|
  {
    if a == [] {
      assert |multiset(b)| == 0;
    } else {
      var x := a[0];
      var j := TakeOut(a, b);
      var front, back := b[..j], b[j + 1..];
      assert b == front + ([x] + back);
      GatherPermuted(parts, a[1..], front + back);
      GatherJoin(parts, front, back);
      GatherJoin(parts, front, [x] + back);
      assert ([x] + back)[1..] == back;
    }
  }

  lemma PickJoin<T>(s: seq<T>, a: seq<nat>, b: seq<nat>)
    requires forall i | 0 <= i < |a| :: a[i] < |s|
    requires forall i | 0 <= i < |b| :: b[i] < |s|
    ensures forall i | 0 <= i < |a + b| :: (a + b)[i] < |s|
    ensures Pick(s, a + b) == Pick(s, a) + Pick(s, b)
  {
  }

  /** Listing the same positions in another order picks the same items. */
  lemma {:induction false} PickPermuted<T>(s: seq<T>, a: seq<nat>, b: seq<nat>)
    requires forall i | 0 <= i < |a| :: a[i] < |s|
    requires forall i | 0 <= i < |b| :: b[i] < |s|
    requires multiset(a) == multiset(b)
    ensures multiset(Pick(s, a)) == multiset(Pick(s, b))
    decreases |a|
  {
    if a == [] {
      assert |multiset(b)| == 0;
    } else {
      var j := TakeOut(a, b);
      var x, front, back := a[0], b[..j], b[j + 1..];
      assert b == front + ([x] + back) && a == [x] + a[1..];
      PickPermuted(s, a[1..], front + back);
      PickJoin(s, [x], a[1..]);
      PickJoin(s, front, back);
      PickJoin(s, [x], back);
      PickJoin(s, front, [x] + back);
    }
  }
}
