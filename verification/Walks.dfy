/** The loops over ordered containers that the source repeats: update every entry, collect the
    matching keys, shuffle. */
module Walks {
  import opened Keys

  ghost predicate NoDuplicates<T>(s: seq<T>) {
    forall i, j :: 0 <= i < j < |s| ==> s[i] != s[j]
  }

  lemma SortedDistinct(ks: seq<string>)
    requires Sorted(ks)
    ensures NoDuplicates(ks)
  {
    SortedHasNoDuplicates(ks);
  }

  /** The first `i` values are replaced. */
  ghost predicate UpdatedTo<V>(m: map<string, V>, f: (string, V) -> V, ks: seq<string>, i: nat, r: map<string, V>) {
    && r.Keys == m.Keys && i <= |ks|
    && forall k :: k in m ==> r[k] == if k in ks[..i] then f(k, m[k]) else m[k]
  }

  lemma UpdateStep<V>(m: map<string, V>, f: (string, V) -> V, ks: seq<string>, i: nat, r: map<string, V>)
    requires NoDuplicates(ks) && i < |ks| && ks[i] in m && UpdatedTo(m, f, ks, i, r)
    ensures UpdatedTo(m, f, ks, i + 1, r[ks[i] := f(ks[i], r[ks[i]])])
  {
    assert ks[..i + 1] == ks[..i] + [ks[i]];
    assert ks[i] !in ks[..i];
  }

  /** Walks the map in key order and replaces every value. */
  method UpdateEach<V>(m: map<string, V>, f: (string, V) -> V) returns (r: map<string, V>)
    ensures r == map k | k in m :: f(k, m[k])
  {
    var ks := SortedKeys(m.Keys);
    SortedDistinct(ks);
    r := m;
    for i := 0 to |ks|
      invariant UpdatedTo(m, f, ks, i, r)
    {
      assert ks[i] in ToSet(ks);
      UpdateStep(m, f, ks, i, r);
      r := r[ks[i] := f(ks[i], r[ks[i]])];
    }
    AllUpdated(m, f, ks, r);
  }

  lemma AllUpdated<V>(m: map<string, V>, f: (string, V) -> V, ks: seq<string>, r: map<string, V>)
    requires ToSet(ks) == m.Keys && UpdatedTo(m, f, ks, |ks|, r)
    ensures r == map k | k in m :: f(k, m[k])
  {
    assert ks[..|ks|] == ks;
    assert forall k :: k in m ==> k in ToSet(ks);
  }

  /** Appends the keys that match to a vector, in order. */
  method Collect(ks: seq<string>, P: string -> bool) returns (r: seq<string>)
    requires NoDuplicates(ks)
    ensures NoDuplicates(r) && (Sorted(ks) ==> Sorted(r))
    ensures forall k :: k in r <==> k in ks && P(k)
  {
    r := [];
    for i := 0 to |ks|
      invariant NoDuplicates(r) && (Sorted(ks) ==> Sorted(r))
      invariant forall k :: k in r <==> k in ks[..i] && P(k)
    {
      assert ks[..i + 1] == ks[..i] + [ks[i]];
      assert ks[i] !in ks[..i];
      if P(ks[i]) {
        forall j | 0 <= j < |r| && Sorted(ks) ensures Less(r[j], ks[i]) {
          assert r[j] in ks[..i];
        }
        r := r + [ks[i]];
      }
    }
    assert ks[..|ks|] == ks;
  }

  /** Collects the matching keys of a container in its own order. */
  method CollectKeys(s: set<string>, P: string -> bool) returns (r: seq<string>)
    ensures NoDuplicates(r) && Sorted(r)
    ensures forall k :: k in r <==> k in s && P(k)
  {
    var ks := SortedKeys(s);
    SortedDistinct(ks);
    r := Collect(ks, P);
    assert forall k :: k in s <==> k in ToSet(ks);
  }

  ghost function Matching(s: set<string>, P: string -> bool): set<string> {
    set k | k in s && P(k)
  }

  /** Counts the keys that match. */
  method CountWhere(s: set<string>, P: string -> bool) returns (count: nat)
    ensures count == |Matching(s, P)|
  {
    var found := CollectKeys(s, P);
    count := |found|;
    DistinctCard(found);
    assert ToSet(found) == Matching(s, P);
  }

  /** Draws `n` entries of a larger map, one at a time. */
  method Draw<V>(m: map<string, V>, n: nat) returns (chosen: map<string, V>)
    requires |m| > n
    ensures chosen.Keys <= m.Keys && |chosen| == n
    ensures forall k :: k in chosen ==> chosen[k] == m[k]
  {
    chosen := map[];
    var rest := m.Keys;
    for i := 0 to n
      invariant |chosen| == i && |rest| == |m| - i && rest !! chosen.Keys && rest <= m.Keys
      invariant chosen.Keys <= m.Keys && forall k :: k in chosen ==> chosen[k] == m[k]
    {
      var j :| j in rest;
      chosen := chosen[j := m[j]];
      rest := rest - {j};
    }
  }

  /** The shuffle of the random strategy; each draw is any index from `i` on. */
  method Shuffle(s: seq<string>) returns (r: seq<string>)
    requires NoDuplicates(s)
    ensures NoDuplicates(r) && |r| == |s| && forall k :: k in r <==> k in s
  {
    r := s;
    for i := 0 to |s|
      invariant NoDuplicates(r) && |r| == |s| && forall k :: k in r <==> k in s
    {
      var draw :| i <= draw < |r|;
      ghost var before := r;
      var temp := r[i];
      r := r[i := r[draw]][draw := temp];
      SwapKeepsElements(before, i, draw);
    }
  }

  lemma SwapKeepsElements(s: seq<string>, i: nat, j: nat)
    requires i < |s| && j < |s| && NoDuplicates(s)
    ensures var r := s[i := s[j]][j := s[i]]; NoDuplicates(r) && forall k :: k in r <==> k in s
  {
    var r := s[i := s[j]][j := s[i]];
    forall k | k in s ensures k in r {
      var x :| 0 <= x < |s| && s[x] == k;
      assert r[if x == i then j else if x == j then i else x] == k;
    }
  }

  lemma {:induction false} DistinctCard<T>(s: seq<T>)
    requires NoDuplicates(s)
    ensures |ToSet(s)| == |s|
  {
    if s != [] {
      var n := |s| - 1;
      DistinctCard(s[..n]);
      assert s == s[..n] + [s[n]];
      assert ToSet(s) == ToSet(s[..n]) + {s[n]};
      assert s[n] !in s[..n];
    }
  }
}
