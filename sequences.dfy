/** The list operations the strategies use: comprehension filters, slices and Python's `sorted`. */
module Sequences {

  /** `[x for x in s if p(x)]`. */
  function Filter<T>(s: seq<T>, p: T -> bool): (r: seq<T>)
    ensures |r| <= |s|
    ensures forall i :: 0 <= i < |r| ==> p(r[i])
    ensures forall x :: x in r ==> p(x) && x in s
    ensures forall x :: x in s && p(x) ==> x in r
    ensures multiset(r) <= multiset(s)
  {
    if s == [] then []
    else
      assert s == [s[0]] + s[1..];
      if p(s[0]) then [s[0]] + Filter(s[1..], p)
      else Filter(s[1..], p)
  }

  /** A comprehension keeps every element that passes as often as it occurs, and no other. */
  lemma {:induction false} FilterCounts<T>(s: seq<T>, p: T -> bool)
    ensures forall x :: x in s ==> multiset(Filter(s, p))[x] == if p(x) then multiset(s)[x] else 0
  {
    if s != [] {
      FilterCounts(s[1..], p);
      assert s == [s[0]] + s[1..];
      assert forall x :: x in s ==> x == s[0] || x in s[1..];
    }
  }

  /** A comprehension over two lists joined is the comprehension over each, joined: together with
      its value on a single element, this fixes the order and the multiplicity it keeps. */
  lemma {:induction false} FilterConcat<T>(a: seq<T>, b: seq<T>, p: T -> bool)
    ensures Filter(a + b, p) == Filter(a, p) + Filter(b, p)
  {
    if a == [] {
      assert a + b == b;
    } else {
      var ab := a + b;
      assert ab[0] == a[0] && ab[1..] == a[1..] + b;
      FilterConcat(a[1..], b, p);
    }
  }

  /** The first element a filter keeps is the first element that passes. */
  lemma {:induction false} FilterHead<T>(s: seq<T>, p: T -> bool, k: nat)
    requires k < |s| && p(s[k])
    requires forall j :: 0 <= j < k ==> !p(s[j])
    ensures Filter(s, p) != [] && Filter(s, p)[0] == s[k]
  {
    if k > 0 {
      FilterHead(s[1..], p, k - 1);
    }
  }

  /** A filter keeps nothing exactly when nothing passes. */
  lemma {:induction false} FilterEmpty<T>(s: seq<T>, p: T -> bool)
    ensures Filter(s, p) == [] <==> forall j :: 0 <= j < |s| ==> !p(s[j])
  {
    if s != [] {
      FilterEmpty(s[1..], p);
      assert forall j :: 1 <= j < |s| ==> s[j] == s[1..][j - 1];
    }
  }

  /** Filtering twice is filtering once by both conditions. */
  lemma {:induction false} FilterTwice<T>(s: seq<T>, p: T -> bool, q: T -> bool, both: T -> bool)
    requires forall x :: both(x) == (p(x) && q(x))
    ensures Filter(Filter(s, p), q) == Filter(s, both)
  {
    if s != [] {
      FilterTwice(s[1..], p, q, both);
    }
  }

  /** A filter that every element passes keeps the list as it is. */
  lemma {:induction false} FilterKeepsAll<T>(s: seq<T>, p: T -> bool)
    requires forall x :: x in s ==> p(x)
    ensures Filter(s, p) == s
  {
    if s != [] {
      FilterKeepsAll(s[1..], p);
    }
  }

  /** `s[:n]`: the first `n` elements, or all of them when there are fewer. */
  function Take<T>(s: seq<T>, n: nat): (r: seq<T>)
    ensures |r| == if n < |s| then n else |s|
    ensures forall i :: 0 <= i < |r| ==> r[i] == s[i]
  {
    if n < |s| then s[..n] else s
  }

  /** `a` may stand before `b` in a list sorted by `key` (descending when `descending`). */
  predicate InOrder<T>(key: T -> real, descending: bool, a: T, b: T) {
    if descending then key(a) >= key(b) else key(a) <= key(b)
  }

  predicate SortedBy<T>(s: seq<T>, key: T -> real, descending: bool) {
    forall i, j :: 0 <= i < j < |s| ==> InOrder(key, descending, s[i], s[j])
  }

  /** No two elements of `s` have the same `f`-image. */
  ghost predicate DistinctBy<T, K>(s: seq<T>, f: T -> K) {
    forall i, j :: 0 <= i < j < |s| ==> f(s[i]) != f(s[j])
  }

  /** The first position in `s` whose element `x` may precede, or |s| if there is none. */
  function Place<T>(x: T, s: seq<T>, key: T -> real, descending: bool): (k: nat)
    ensures k <= |s|
    ensures forall i :: 0 <= i < k ==> !InOrder(key, descending, x, s[i])
    ensures k < |s| ==> InOrder(key, descending, x, s[k])
  {
    if s == [] || InOrder(key, descending, x, s[0]) then 0
    else 1 + Place(x, s[1..], key, descending)
  }

  /** Puts `x` into the sorted `s` in front of the first element it may precede, hence in front
      of every element with an equal key: the step of a stable insertion sort that meets the
      elements from the last to the first. */
  function Insert<T>(x: T, s: seq<T>, key: T -> real, descending: bool): (r: seq<T>)
    requires SortedBy(s, key, descending)
    ensures |r| == |s| + 1
    ensures multiset(r) == multiset(s) + multiset{x}
    ensures SortedBy(r, key, descending)
  {
    var k := Place(x, s, key, descending);
    assert s == s[..k] + s[k..];
    InsertAtPlaceSorted(x, s, key, descending, k);
    s[..k] + [x] + s[k..]
  }

  lemma InsertAtPlaceSorted<T>(x: T, s: seq<T>, key: T -> real, descending: bool, k: nat)
    requires SortedBy(s, key, descending)
    requires k == Place(x, s, key, descending)
    ensures SortedBy(s[..k] + [x] + s[k..], key, descending)
  {
    var r := s[..k] + [x] + s[k..];
    forall i, j | 0 <= i < j < |r| ensures InOrder(key, descending, r[i], r[j]) {
      if j < k {
        assert r[i] == s[i] && r[j] == s[j];
      } else if j == k {
        assert r[i] == s[i] && r[j] == x;
        assert !InOrder(key, descending, x, s[i]);
      } else if i < k {
        assert r[i] == s[i] && r[j] == s[j - 1];
      } else if i == k {
        assert r[i] == x && r[j] == s[j - 1];
        assert InOrder(key, descending, x, s[k]);
        assert k == j - 1 || InOrder(key, descending, s[k], s[j - 1]);
      } else {
        assert r[i] == s[i - 1] && r[j] == s[j - 1];
      }
    }
  }

  /** Python's `sorted(s, key=key, reverse=descending)`: a stable sort, so elements with equal
      keys keep the order they have in `s`. */
  function SortBy<T>(s: seq<T>, key: T -> real, descending: bool): (r: seq<T>)
    ensures |r| == |s|
    ensures multiset(r) == multiset(s)
    ensures SortedBy(r, key, descending)
  {
    if s == [] then []
    else
      assert s == [s[0]] + s[1..];
      Insert(s[0], SortBy(s[1..], key, descending), key, descending)
  }

  /** The elements whose key is `k`. */
  function KeyIs<T>(key: T -> real, k: real): T -> bool {
    x => key(x) == k
  }

  /** `sorted` is stable: for every key value, the elements with that key come out in the order
      they went in. */
  lemma {:induction false} SortIsStable<T>(s: seq<T>, key: T -> real, descending: bool, k: real)
    ensures Filter(SortBy(s, key, descending), KeyIs(key, k)) == Filter(s, KeyIs(key, k))
  {
    if s != [] {
      var t := SortBy(s[1..], key, descending);
      var m := Place(s[0], t, key, descending);
      SortIsStable(s[1..], key, descending, k);
      SortByCons(s, key, descending);
      PlaceKeepsTies(s[0], t, key, descending, k);
      FilterCons(s, KeyIs(key, k));
    }
  }

  lemma SortByCons<T>(s: seq<T>, key: T -> real, descending: bool)
    requires s != []
    ensures var t := SortBy(s[1..], key, descending); var m := Place(s[0], t, key, descending);
      SortBy(s, key, descending) == t[..m] + [s[0]] + t[m..]
  {
  }

  lemma FilterCons<T>(s: seq<T>, p: T -> bool)
    requires s != []
    ensures Filter(s, p) == Filter([s[0]], p) + Filter(s[1..], p)
  {
    assert s == [s[0]] + s[1..];
    FilterConcat([s[0]], s[1..], p);
  }

  /** Putting `x` at its place puts it ahead of every element with the same key and leaves the
      others in order. */
  lemma PlaceKeepsTies<T>(x: T, t: seq<T>, key: T -> real, descending: bool, k: real)
    ensures var m := Place(x, t, key, descending);
      Filter(t[..m] + [x] + t[m..], KeyIs(key, k)) == Filter([x], KeyIs(key, k)) + Filter(t, KeyIs(key, k))
  {
    if key(x) == k {
      TieGoesFirst(x, t, key, descending);
    } else {
      OtherKeyIgnored(x, t, key, descending, k);
    }
  }

  lemma TieGoesFirst<T>(x: T, t: seq<T>, key: T -> real, descending: bool)
    ensures var m := Place(x, t, key, descending);
      Filter(t[..m] + [x] + t[m..], KeyIs(key, key(x))) == Filter([x], KeyIs(key, key(x))) + Filter(t, KeyIs(key, key(x)))
  {
    var m := Place(x, t, key, descending);
    var eq := KeyIs(key, key(x));
    FilterSplit(t, x, m, eq);
    NoTieBeforePlace(x, t, key, descending);
    FilterNone(t[..m], eq);
    SwapEmpty(Filter(t[..m], eq), Filter([x], eq), Filter(t[m..], eq));
  }

  lemma OtherKeyIgnored<T>(x: T, t: seq<T>, key: T -> real, descending: bool, k: real)
    requires key(x) != k
    ensures var m := Place(x, t, key, descending);
      Filter(t[..m] + [x] + t[m..], KeyIs(key, k)) == Filter([x], KeyIs(key, k)) + Filter(t, KeyIs(key, k))
  {
    var m := Place(x, t, key, descending);
    var eq := KeyIs(key, k);
    FilterSplit(t, x, m, eq);
    assert Filter([x], eq) == [];
    SwapEmpty(Filter(t[..m], eq), Filter([x], eq), Filter(t[m..], eq));
  }

  /** The filter of `t` with `x` put in at `m`, in three parts. */
  lemma FilterSplit<T>(t: seq<T>, x: T, m: nat, p: T -> bool)
    requires m <= |t|
    ensures Filter(t[..m] + [x] + t[m..], p) == Filter(t[..m], p) + Filter([x], p) + Filter(t[m..], p)
    ensures Filter(t, p) == Filter(t[..m], p) + Filter(t[m..], p)
  {
    FilterAround(t[..m], x, t[m..], p);
    FilterTakeDrop(t, m, p);
  }

  lemma FilterAround<T>(front: seq<T>, x: T, back: seq<T>, p: T -> bool)
    ensures Filter(front + [x] + back, p) == Filter(front, p) + Filter([x], p) + Filter(back, p)
  {
    FilterConcat(front + [x], back, p);
    FilterConcat(front, [x], p);
  }

  lemma FilterTakeDrop<T>(t: seq<T>, m: nat, p: T -> bool)
    requires m <= |t|
    ensures Filter(t, p) == Filter(t[..m], p) + Filter(t[m..], p)
  {
    assert t == t[..m] + t[m..];
    FilterConcat(t[..m], t[m..], p);
  }

  lemma SwapEmpty<T>(a: seq<T>, b: seq<T>, c: seq<T>)
    requires a == [] || b == []
    ensures a + b + c == b + (a + c)
  {
  }

  /** Every element before the place of `x` goes strictly before it by key. */
  lemma NoTieBeforePlace<T>(x: T, t: seq<T>, key: T -> real, descending: bool)
    ensures forall y :: y in t[..Place(x, t, key, descending)] ==> !KeyIs(key, key(x))(y)
  {
    var m := Place(x, t, key, descending);
    forall y | y in t[..m] ensures !KeyIs(key, key(x))(y) {
      var i :| 0 <= i < m && t[..m][i] == y;
      assert !InOrder(key, descending, x, t[i]);
    }
  }

  /** A filter over a list none of whose elements passes keeps nothing. */
  lemma {:induction false} FilterNone<T>(s: seq<T>, p: T -> bool)
    requires forall x :: x in s ==> !p(x)
    ensures Filter(s, p) == []
  {
    if s != [] {
      FilterNone(s[1..], p);
    }
  }

  /** `sorted(s, key=key, reverse=descending)[:n]`: it holds min(|s|, n) elements of `s`, in key
      order. */
  function TopBy<T>(s: seq<T>, key: T -> real, descending: bool, n: nat): (top: seq<T>)
    ensures |top| == if n < |s| then n else |s|
    ensures SortedBy(top, key, descending)
    ensures multiset(top) <= multiset(s)
  {
    var ranked := SortBy(s, key, descending);
    var top := Take(ranked, n);
    assert top == ranked[..|top|];
    TopSplit(ranked, top, key, descending);
    top
  }

  /** No element left out of `TopBy` comes before, by key, one that was taken, and every element
      taken is one of `s`. */
  lemma TopByIsBest<T>(s: seq<T>, key: T -> real, descending: bool, n: nat)
    ensures forall x :: x in TopBy(s, key, descending, n) ==> x in s
    ensures forall a, b :: a in TopBy(s, key, descending, n) && b in s && b !in TopBy(s, key, descending, n) ==>
      InOrder(key, descending, a, b)
  {
    var ranked := SortBy(s, key, descending);
    var top := TopBy(s, key, descending, n);
    assert top == ranked[..|top|];
    TopSplit(ranked, top, key, descending);
    forall x | x in top ensures x in s {
      assert x in multiset(top);
    }
    forall b | b in s ensures b in ranked {
      assert b in multiset(s);
    }
  }

  lemma TopSplit<T>(ranked: seq<T>, top: seq<T>, key: T -> real, descending: bool)
    requires SortedBy(ranked, key, descending)
    requires |top| <= |ranked| && top == ranked[..|top|]
    ensures SortedBy(top, key, descending)
    ensures multiset(top) <= multiset(ranked)
    ensures forall a, b :: a in top && b in ranked && b !in top ==> InOrder(key, descending, a, b)
  {
    assert ranked == top + ranked[|top|..];
    forall a, b | a in top && b in ranked && b !in top ensures InOrder(key, descending, a, b) {
      var i :| 0 <= i < |top| && top[i] == a;
      var j :| 0 <= j < |ranked| && ranked[j] == b;
      assert InOrder(key, descending, ranked[i], ranked[j]);
    }
  }

  /** `[f(x) for x in s]`. */
  function MapSeq<A, B>(s: seq<A>, f: A -> B): (r: seq<B>)
    ensures |r| == |s|
    ensures forall i :: 0 <= i < |s| ==> r[i] == f(s[i])
  {
    seq(|s|, i requires 0 <= i < |s| => f(s[i]))
  }

  /** Mapping one more element appends its image. */
  lemma MapSeqSnoc<A, B>(s: seq<A>, f: A -> B, i: nat)
    requires i < |s|
    ensures MapSeq(s[..i + 1], f) == MapSeq(s[..i], f) + [f(s[i])]
  {
  }

  /** Two lists of the same length that agree at every position are equal. */
  lemma Extensionality<T>(a: seq<T>, b: seq<T>)
    requires |a| == |b|
    requires forall i :: 0 <= i < |a| ==> a[i] == b[i]
    ensures a == b
  {
  }

  /** `list(chain.from_iterable(ss))`: the lists one after another. */
  function Flatten<T>(ss: seq<seq<T>>): (r: seq<T>)
    ensures forall x :: x in r ==> exists i :: 0 <= i < |ss| && x in ss[i]
    ensures forall i, x :: 0 <= i < |ss| && x in ss[i] ==> x in r
  {
    if ss == [] then []
    else
      var n := |ss| - 1;
      var r := Flatten(ss[..n]) + ss[n];
      assert forall i :: 0 <= i < n ==> ss[..n][i] == ss[i];
      assert forall x :: x in r ==> exists i :: 0 <= i < |ss| && x in ss[i] by {
        forall x | x in r ensures exists i :: 0 <= i < |ss| && x in ss[i] {
          if x in ss[n] {
          } else {
            var i :| 0 <= i < n && x in ss[..n][i];
            assert x in ss[i];
          }
        }
      }
      r
  }

  /** The lengths of the lists, added up. */
  function TotalLength<T>(ss: seq<seq<T>>): nat {
    if ss == [] then 0 else TotalLength(ss[..|ss| - 1]) + |ss[|ss| - 1]|
  }

  lemma {:induction false} FlattenLength<T>(ss: seq<seq<T>>)
    ensures |Flatten(ss)| == TotalLength(ss)
  {
    if ss != [] {
      FlattenLength(ss[..|ss| - 1]);
    }
  }

  /** Filtering by "p or q", for p and q that never hold together, keeps as many elements as the
      two filters keep between them. */
  lemma {:induction false} FilterDisjointUnion<T>(s: seq<T>, p: T -> bool, q: T -> bool, either: T -> bool)
    requires forall x :: either(x) == (p(x) || q(x))
    requires forall x :: !(p(x) && q(x))
    ensures |Filter(s, either)| == |Filter(s, p)| + |Filter(s, q)|
  {
    if s != [] {
      FilterDisjointUnion(s[1..], p, q, either);
    }
  }

  /** Keeping only some elements keeps their images distinct. */
  lemma {:induction false} FilterKeepsDistinct<T, K>(s: seq<T>, p: T -> bool, f: T -> K)
    requires DistinctBy(s, f)
    ensures DistinctBy(Filter(s, p), f)
  {
    if s != [] {
      FilterKeepsDistinct(s[1..], p, f);
      if p(s[0]) {
        var r := Filter(s[1..], p);
        forall j | 0 <= j < |r| ensures f(s[0]) != f(r[j]) {
          var k :| 0 <= k < |s[1..]| && s[1..][k] == r[j];
        }
      }
    }
  }

  /** Sorting keeps the images distinct. */
  lemma {:induction false} SortKeepsDistinct<T, K>(s: seq<T>, key: T -> real, descending: bool, f: T -> K)
    requires DistinctBy(s, f)
    ensures DistinctBy(SortBy(s, key, descending), f)
  {
    if s != [] {
      var t := SortBy(s[1..], key, descending);
      SortKeepsDistinct(s[1..], key, descending, f);
      forall j | 0 <= j < |t| ensures f(t[j]) != f(s[0]) {
        assert t[j] in multiset(s[1..]);
        var m :| 0 <= m < |s[1..]| && s[1..][m] == t[j];
        assert s[m + 1] == t[j];
      }
      var k := Place(s[0], t, key, descending);
      InsertKeepsDistinct(s[0], t, k, f);
      assert SortBy(s, key, descending) == t[..k] + [s[0]] + t[k..];
    }
  }

  /** The first `n` of a sorted list keep the images distinct. */
  lemma TopByKeepsDistinct<T, K>(s: seq<T>, key: T -> real, descending: bool, n: nat, f: T -> K)
    requires DistinctBy(s, f)
    ensures DistinctBy(TopBy(s, key, descending, n), f)
  {
    var ranked := SortBy(s, key, descending);
    SortKeepsDistinct(s, key, descending, f);
    var top := TopBy(s, key, descending, n);
    assert top == ranked[..|top|];
  }

  lemma InsertKeepsDistinct<T, K>(x: T, t: seq<T>, k: nat, f: T -> K)
    requires k <= |t| && DistinctBy(t, f)
    requires forall j :: 0 <= j < |t| ==> f(t[j]) != f(x)
    ensures DistinctBy(t[..k] + [x] + t[k..], f)
  {
    var r := t[..k] + [x] + t[k..];
    forall i, j | 0 <= i < j < |r| ensures f(r[i]) != f(r[j]) {
      if j < k { assert r[i] == t[i] && r[j] == t[j]; }
      else if j == k { assert r[i] == t[i] && r[j] == x; }
      else if i < k { assert r[i] == t[i] && r[j] == t[j - 1]; }
      else if i == k { assert r[i] == x && r[j] == t[j - 1]; }
      else { assert r[i] == t[i - 1] && r[j] == t[j - 1]; }
    }
  }
}
