/** The part of a sequence that satisfies a predicate, in order. */
module Filters {

  function Filter<T>(s: seq<T>, P: T -> bool): seq<T> {
    if s == [] then [] else Filter(s[..|s| - 1], P) + Only(s[|s| - 1], P)
  }

  lemma FilterSingle<T>(x: T, P: T -> bool)
    ensures Filter([x], P) == Only(x, P)
  {
    var none: seq<T> := [];
    assert none + [x] == [x];
    FilterOne(none, x, P);
  }

  lemma FilterOne<T>(s: seq<T>, x: T, P: T -> bool)
    ensures Filter(s + [x], P) == Filter(s, P) + Only(x, P)
  {
    assert (s + [x])[..|s|] == s;
  }

  lemma Assoc<T>(a: seq<T>, b: seq<T>, c: seq<T>)
    ensures a + (b + c) == a + b + c
  {
  }

  lemma {:induction false} FilterConcat<T>(a: seq<T>, b: seq<T>, P: T -> bool)
    ensures Filter(a + b, P) == Filter(a, P) + Filter(b, P)
  {
    if b == [] {
      assert a + b == a;
    } else {
      var c, x := b[..|b| - 1], b[|b| - 1];
      FilterConcat(a, c, P);
      FilterOne(a + c, x, P);
      assert a + b == a + c + [x];
      Assoc(Filter(a, P), Filter(c, P), Only(x, P));
    }
  }

  lemma {:induction false} FilterNone<T>(s: seq<T>, P: T -> bool)
    requires forall i :: 0 <= i < |s| ==> !P(s[i])
    ensures Filter(s, P) == []
  {
    if s != [] { FilterNone(s[..|s| - 1], P); }
  }

  function Only<T>(x: T, P: T -> bool): seq<T> {
    if P(x) then [x] else []
  }

  lemma Swap<T>(a: seq<T>, x: seq<T>, b: seq<T>)
    requires x == [] || b == []
    ensures a + x + b == a + b + x
  {
  }

  lemma FilterInsert<T>(lo: seq<T>, x: T, hi: seq<T>, P: T -> bool)
    requires P(x) ==> forall i :: 0 <= i < |hi| ==> !P(hi[i])
    ensures Filter(lo + [x] + hi, P) == Filter(lo + hi, P) + Only(x, P)
  {
    FilterConcat(lo + [x], hi, P);
    FilterOne(lo, x, P);
    FilterConcat(lo, hi, P);
    if P(x) { FilterNone(hi, P); }
    Swap(Filter(lo, P), Only(x, P), Filter(hi, P));
  }

  lemma FilterHead<T>(x: T, s: seq<T>, P: T -> bool)
    ensures Filter([x] + s, P) == Only(x, P) + Filter(s, P)
  {
    var none: seq<T> := [];
    assert none + [x] == [x];
    FilterOne(none, x, P);
    FilterConcat([x], s, P);
  }
}
