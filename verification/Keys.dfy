/**
 The ordered containers of the source (`set<string>`, `map<string, ...>`) walk their keys
 in the lexicographic order of `std::string`.  This module gives that order, the sorted
 sequence of a key set, the least key, and the key after a given one.
 */
module Keys {

  datatype Option<+T> = None | Some(value: T)

  // ---- the lexicographic order -------------------------------------------------------

  predicate Less(a: string, b: string) {
    |b| > 0 && (|a| == 0 || a[0] < b[0] || (a[0] == b[0] && Less(a[1..], b[1..])))
  }

  lemma {:induction false} LessIsTransitive(a: string, b: string, c: string)
    requires Less(a, b) && Less(b, c)
    ensures Less(a, c)
  {
    if |a| > 0 && a[0] == b[0] == c[0] {
      LessIsTransitive(a[1..], b[1..], c[1..]);
    }
  }

  lemma {:induction false} LessIsAsymmetric(a: string, b: string)
    requires Less(a, b)
    ensures !Less(b, a) && a != b
  {
    if |a| > 0 && a[0] == b[0] {
      LessIsAsymmetric(a[1..], b[1..]);
    }
  }

  lemma {:induction false} LessIsTotal(a: string, b: string)
    ensures Less(a, b) || Less(b, a) || a == b
  {
    if |a| > 0 && |b| > 0 && a[0] == b[0] {
      LessIsTotal(a[1..], b[1..]);
      assert a == [a[0]] + a[1..] && b == [b[0]] + b[1..];
    }
  }

  /** The three laws above for all keys at once. */
  lemma StrictTotalOrder()
    ensures forall a, b, c :: Less(a, b) && Less(b, c) ==> Less(a, c)
    ensures forall a, b :: Less(a, b) ==> !Less(b, a)
    ensures forall a :: !Less(a, a)
    ensures forall a, b {:trigger Less(a, b), Less(b, a)} :: Less(a, b) || Less(b, a) || a == b
  {
    forall a, b, c | Less(a, b) && Less(b, c) ensures Less(a, c) { LessIsTransitive(a, b, c); }
    forall a, b | Less(a, b) ensures !Less(b, a) && a != b { LessIsAsymmetric(a, b); }
    forall a, b ensures Less(a, b) || Less(b, a) || a == b { LessIsTotal(a, b); }
  }

  // ---- least key, next key -----------------------------------------------------------

  predicate IsLeast(m: string, s: set<string>) {
    m in s && forall k :: k in s && k != m ==> Less(m, k)
  }

  lemma {:induction false} LeastExists(s: set<string>) returns (m: string)
    requires s != {}
    ensures IsLeast(m, s)
  {
    var x :| x in s;
    var rest := s - {x};
    if rest == {} {
      m := x;
      assert s == {x};
    } else {
      var y := LeastExists(rest);
      LessIsTotal(x, y);
      m := if Less(x, y) then x else y;
      forall k | k in s && k != m ensures Less(m, k) {
        if k != x && k != y && m == x { LessIsTransitive(x, y, k); }
      }
    }
  }

  lemma LeastIsUnique(s: set<string>, m: string, n: string)
    requires IsLeast(m, s) && IsLeast(n, s)
    ensures m == n
  {
    if m != n { LessIsAsymmetric(m, n); }
  }

  function Least(s: set<string>): (m: string)
    requires s != {}
    ensures IsLeast(m, s)
  {
    assert exists m :: IsLeast(m, s) by { var m := LeastExists(s); }
    assert forall m, n | IsLeast(m, s) && IsLeast(n, s) :: m == n by {
      forall m, n | IsLeast(m, s) && IsLeast(n, s) ensures m == n { LeastIsUnique(s, m, n); }
    }
    var m :| m in s && IsLeast(m, s);
    m
  }

  function Above(s: set<string>, p: string): set<string> {
    set k | k in s && Less(p, k)
  }

  /** The iterator after the one at `p`: the next key, or None for `end()`. */
  function Next(s: set<string>, p: string): (r: Option<string>)
    ensures r.None? ==> forall k :: k in s ==> !Less(p, k)
    ensures r.Some? ==> r.value in s && Less(p, r.value)
    ensures r.Some? ==> forall k :: k in s && Less(p, k) && k != r.value ==> Less(r.value, k)
  {
    if Above(s, p) == {} then
      assert forall k :: k in s ==> k in Above(s, p) || !Less(p, k);
      None
    else Some(Least(Above(s, p)))
  }

  lemma {:induction false} SubsetCard<T>(a: set<T>, b: set<T>)
    requires a <= b
    ensures |a| <= |b|
  {
    assert b == a + (b - a);
  }

  // ---- the keys in order -------------------------------------------------------------

  ghost predicate Sorted(ks: seq<string>) {
    forall i, j :: 0 <= i < j < |ks| ==> Less(ks[i], ks[j])
  }

  ghost function ToSet<T>(ks: seq<T>): set<T> {
    set k | k in ks
  }

  function SortedKeys(s: set<string>): (ks: seq<string>)
    ensures Sorted(ks) && ToSet(ks) == s && |ks| == |s|
  {
    if s == {} then []
    else
      var m := Least(s);
      [m] + SortedKeys(s - {m})
  }

  lemma {:induction false} SortedIsUnique(a: seq<string>, b: seq<string>)
    requires Sorted(a) && Sorted(b) && ToSet(a) == ToSet(b)
    ensures a == b
  {
    InItsSet(a);
    InItsSet(b);
    if |a| > 0 {
      var x := a[0];
      assert x == b[0] by {
        if x != b[0] { LessIsAsymmetric(x, b[0]); }
      }
      SplitFirst(a);
      SplitFirst(b);
      SortedIsUnique(a[1..], b[1..]);
      assert a == [a[0]] + a[1..] && b == [b[0]] + b[1..];
    }
  }

  lemma InItsSet(a: seq<string>)
    ensures forall i :: 0 <= i < |a| ==> a[i] in ToSet(a)
    ensures ToSet(a) == {} ==> a == []
  {
    if |a| > 0 { assert a[0] in ToSet(a); }
  }

  lemma SplitFirst(a: seq<string>)
    requires Sorted(a) && |a| > 0
    ensures Sorted(a[1..]) && ToSet(a[1..]) == ToSet(a) - {a[0]}
  {
    assert a == [a[0]] + a[1..];
    forall k | k in a[1..] ensures k != a[0] {
      var i :| 0 <= i < |a[1..]| && a[1..][i] == k;
      assert Less(a[0], a[i + 1]);
      LessIsAsymmetric(a[0], k);
    }
  }

  lemma SortedHasNoDuplicates(a: seq<string>)
    requires Sorted(a)
    ensures forall i, j :: 0 <= i < |a| && 0 <= j < |a| && i != j ==> a[i] != a[j]
  {
    forall i, j | 0 <= i < j < |a| ensures a[i] != a[j] { LessIsAsymmetric(a[i], a[j]); }
  }
}
