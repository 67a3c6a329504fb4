// Shared vocabulary: optional values, real minimum and maximum, substrings, filtering, and a
// stable sort with the contract of Python's `sorted`.

module Common {

  datatype Option<+T> = None | Some(value: T) {
    function GetOr(default: T): T {
      match this
      case Some(v) => v
      case None => default
    }
  }

  function MinR(a: real, b: real): real { if a <= b then a else b }

  function MaxR(a: real, b: real): real { if a >= b then a else b }

  predicate Contains(text: string, part: string) {
    exists i :: 0 <= i <= |text| && StartsAt(text, part, i)
  }

  predicate StartsAt(text: string, part: string, i: nat) { i + |part| <= |text| && text[i..i + |part|] == part }

  lemma ContainsIff(text: string, part: string)
    ensures Contains(text, part) <==> exists a, b :: text == a + part + b
  {
    if Contains(text, part) {
      var i :| 0 <= i <= |text| && StartsAt(text, part, i);
      assert text == text[..i] + part + text[i + |part|..];
    }
    if a, b :| text == a + part + b { assert StartsAt(text, part, |a|); }
  }

  predicate EndsWith(text: string, part: string) { |part| <= |text| && text[|text| - |part|..] == part }

  function Filter<T>(p: T -> bool, xs: seq<T>): seq<T> {
    if xs == [] then []
    else
      var init := Filter(p, xs[..|xs| - 1]);
      if p(xs[|xs| - 1]) then init + [xs[|xs| - 1]] else init
  }

  lemma {:induction false} FilterIn<T>(p: T -> bool, xs: seq<T>, x: T)
    ensures x in Filter(p, xs) <==> x in xs && p(x)
  {
    if xs != [] {
      FilterIn(p, xs[..|xs| - 1], x);
      assert xs == xs[..|xs| - 1] + [xs[|xs| - 1]];
    }
  }

  lemma {:induction false} FilterAppend<T>(p: T -> bool, xs: seq<T>, ys: seq<T>)
    ensures Filter(p, xs + ys) == Filter(p, xs) + Filter(p, ys)
  {
    if ys == [] {
      assert xs + ys == xs;
    } else {
      var zs := xs + ys;
      assert zs[..|zs| - 1] == xs + ys[..|ys| - 1];
      FilterAppend(p, xs, ys[..|ys| - 1]);
    }
  }

  // Python's xs[:n].
  function FirstN<T>(xs: seq<T>, n: nat): seq<T> { if n <= |xs| then xs[..n] else xs }

  ghost predicate Distinct<T>(xs: seq<T>) {
    forall i, j :: 0 <= i < j < |xs| ==> xs[i] != xs[j]
  }

  // The elements that are not in `gone`, in order: deleting keys from a dictionary.
  function Without<T(==)>(xs: seq<T>, gone: set<T>): seq<T> {
    if xs == [] then []
    else
      var init := Without(xs[..|xs| - 1], gone);
      if xs[|xs| - 1] in gone then init else init + [xs[|xs| - 1]]
  }

  lemma {:induction false} WithoutContents<T>(xs: seq<T>, gone: set<T>)
    requires Distinct(xs)
    ensures Distinct(Without(xs, gone))
    ensures forall x :: x in Without(xs, gone) <==> x in xs && x !in gone
  {
    if xs != [] {
      var init := xs[..|xs| - 1];
      assert xs == init + [xs[|xs| - 1]];
      WithoutContents(init, gone);
    }
  }

  lemma {:induction false} WithoutTwice<T>(xs: seq<T>, a: set<T>, b: set<T>)
    ensures Without(Without(xs, a), b) == Without(xs, a + b)
  {
    if xs != [] {
      var init := xs[..|xs| - 1];
      WithoutTwice(init, a, b);
      if xs[|xs| - 1] !in a {
        var w := Without(init, a) + [xs[|xs| - 1]];
        assert w[..|w| - 1] == Without(init, a);
      }
    }
  }

  lemma {:induction false} WithoutNothing<T>(xs: seq<T>)
    ensures Without(xs, {}) == xs
  {
    if xs != [] {
      WithoutNothing(xs[..|xs| - 1]);
      assert xs == xs[..|xs| - 1] + [xs[|xs| - 1]];
    }
  }

  // Removing part of a duplicate-free sequence shortens it by that part.
  lemma {:induction false} WithoutLength<T>(xs: seq<T>, gone: set<T>)
    requires Distinct(xs)
    requires forall g :: g in gone ==> g in xs
    ensures |Without(xs, gone)| == |xs| - |gone|
  {
    if xs == [] {
      assert gone == {};
    } else {
      var init, x := xs[..|xs| - 1], xs[|xs| - 1];
      var rest := gone - {x};
      assert x !in init;
      forall g | g in rest ensures g in init { LastOrInit(xs, g); }
      WithoutLength(init, rest);
      WithoutSame(init, gone, rest);
    }
  }

  lemma LastOrInit<T>(xs: seq<T>, x: T)
    requires x in xs
    ensures x == xs[|xs| - 1] || x in xs[..|xs| - 1]
  {
    assert xs == xs[..|xs| - 1] + [xs[|xs| - 1]];
  }

  lemma {:induction false} WithoutSame<T>(xs: seq<T>, a: set<T>, b: set<T>)
    requires forall x :: x in xs ==> (x in a <==> x in b)
    ensures Without(xs, a) == Without(xs, b)
  {
    if xs != [] {
      assert xs[|xs| - 1] in xs;
      WithoutSame(xs[..|xs| - 1], a, b);
    }
  }

  lemma {:induction false} DistinctCard<T>(xs: seq<T>)
    requires Distinct(xs)
    ensures |set x | x in xs| == |xs|
  {
    if xs != [] {
      var init, x := xs[..|xs| - 1], xs[|xs| - 1];
      assert xs == init + [x];
      DistinctCard(init);
      assert (set y | y in xs) == (set y | y in init) + {x};
    }
  }

  // ----- stable sorting -------------------------------------------------

  // `lt` is a strict weak order: what comparing sort keys always gives.
  ghost predicate WeakOrder<T(!new)>(lt: (T, T) -> bool) {
    && (forall a, b :: lt(a, b) ==> !lt(b, a))
    && (forall a, b, c :: !lt(b, a) && !lt(c, b) ==> !lt(c, a))
  }

  ghost predicate Sorted<T>(s: seq<T>, lt: (T, T) -> bool) {
    forall i, j :: 0 <= i < j < |s| ==> !lt(s[j], s[i])
  }

  function Insert<T>(x: T, s: seq<T>, lt: (T, T) -> bool): seq<T> {
    if s == [] then [x]
    else if lt(x, s[0]) then [x] + s
    else [s[0]] + Insert(x, s[1..], lt)
  }

  // Elements are inserted in input order, each after its equals.
  function StableSort<T>(xs: seq<T>, lt: (T, T) -> bool): seq<T> {
    if xs == [] then [] else Insert(xs[|xs| - 1], StableSort(xs[..|xs| - 1], lt), lt)
  }

  lemma {:induction false} InsertContents<T>(x: T, s: seq<T>, lt: (T, T) -> bool)
    ensures multiset(Insert(x, s, lt)) == multiset(s) + multiset{x}
  {
    if s != [] {
      assert s == [s[0]] + s[1..];
      InsertContents(x, s[1..], lt);
    }
  }

  lemma {:induction false} InsertSorted<T(!new)>(x: T, s: seq<T>, lt: (T, T) -> bool)
    requires WeakOrder(lt) && Sorted(s, lt)
    ensures Sorted(Insert(x, s, lt), lt)
  {
    if s == [] {
    } else if lt(x, s[0]) {
      var r := [x] + s;
      forall j | 0 < j < |r| ensures !lt(r[j], r[0]) {
        assert !lt(r[j], s[0]) by { if j > 1 { assert r[j] == s[j - 1]; } }
        assert !lt(s[0], x);
      }
    } else {
      InsertSorted(x, s[1..], lt);
      var t := Insert(x, s[1..], lt);
      InsertContents(x, s[1..], lt);
      forall j | 0 <= j < |t| ensures !lt(t[j], s[0]) {
        assert t[j] in multiset(t);
        if t[j] != x {
          assert t[j] in s[1..];
        }
      }
    }
  }

  // The result is the input rearranged, and in order.
  lemma {:induction false} StableSortIsSort<T(!new)>(xs: seq<T>, lt: (T, T) -> bool)
    requires WeakOrder(lt)
    ensures multiset(StableSort(xs, lt)) == multiset(xs)
    ensures |StableSort(xs, lt)| == |xs|
    ensures Sorted(StableSort(xs, lt), lt)
  {
    if xs != [] {
      var init := xs[..|xs| - 1];
      assert xs == init + [xs[|xs| - 1]];
      StableSortIsSort(init, lt);
      InsertContents(xs[|xs| - 1], StableSort(init, lt), lt);
      InsertSorted(xs[|xs| - 1], StableSort(init, lt), lt);
      assert |StableSort(xs, lt)| == |multiset(StableSort(xs, lt))|;
    }
  }

  lemma InSorted<T(!new)>(xs: seq<T>, lt: (T, T) -> bool, x: T)
    requires WeakOrder(lt)
    ensures x in StableSort(xs, lt) <==> x in xs
  {
    StableSortIsSort(xs, lt);
    assert x in StableSort(xs, lt) <==> x in multiset(StableSort(xs, lt));
    assert x in xs <==> x in multiset(xs);
  }

  // `same` picks one class of elements that the order does not tell apart from `x`.
  lemma {:induction false} InsertStable<T(!new)>(x: T, s: seq<T>, lt: (T, T) -> bool, same: T -> bool)
    requires WeakOrder(lt) && Sorted(s, lt)
    requires forall a, b :: same(a) && same(b) ==> !lt(a, b)
    ensures Filter(same, Insert(x, s, lt)) == Filter(same, s + [x])
  {
    if s == [] {
      assert s + [x] == [x];
    } else if lt(x, s[0]) {
      assert Insert(x, s, lt) == [x] + s;
      FilterAppend(same, [x], s);
      FilterAppend(same, s, [x]);
      var first := s[0];
      if same(x) {
        forall y | y in s ensures !same(y) {
          var i :| 0 <= i < |s| && s[i] == y;
          assert !lt(s[i], s[0]);
          assert !lt(y, first) && !lt(x, y) ==> !lt(x, first);
        }
        FilterNone(same, s);
      }
    } else {
      InsertStable(x, s[1..], lt, same);
      FilterAppend(same, [s[0]], Insert(x, s[1..], lt));
      FilterAppend(same, [s[0]], s[1..] + [x]);
      assert s + [x] == [s[0]] + (s[1..] + [x]);
    }
  }

  lemma {:induction false} FilterNone<T>(p: T -> bool, xs: seq<T>)
    requires forall x :: x in xs ==> !p(x)
    ensures Filter(p, xs) == []
  {
    if xs != [] { FilterNone(p, xs[..|xs| - 1]); }
  }

  // Elements with equal sort keys keep their input order.
  lemma {:induction false} StableSortIsStable<T(!new)>(xs: seq<T>, lt: (T, T) -> bool, same: T -> bool)
    requires WeakOrder(lt)
    requires forall a, b :: same(a) && same(b) ==> !lt(a, b)
    ensures Filter(same, StableSort(xs, lt)) == Filter(same, xs)
  {
    if xs != [] {
      var init := xs[..|xs| - 1];
      assert xs == init + [xs[|xs| - 1]];
      StableSortIsStable(init, lt, same);
      StableSortIsSort(init, lt);
      InsertStable(xs[|xs| - 1], StableSort(init, lt), lt, same);
      FilterAppend(same, StableSort(init, lt), [xs[|xs| - 1]]);
      FilterAppend(same, init, [xs[|xs| - 1]]);
    }
  }

  lemma SplitOrder<T(!new)>(s: seq<T>, n: nat, lt: (T, T) -> bool, late: T, early: T)
    requires n <= |s| && Sorted(s, lt) && late in s && late !in s[..n] && early in s[..n]
    ensures !lt(late, early)
  {
    assert s == s[..n] + s[n..];
    var i :| 0 <= i < n && s[i] == early;
    var j :| 0 <= j < |s[n..]| && s[n..][j] == late;
    assert !lt(s[n + j], s[i]);
  }

  lemma DistinctSorted<T(!new)>(xs: seq<T>, lt: (T, T) -> bool)
    requires WeakOrder(lt) && Distinct(xs)
    ensures Distinct(StableSort(xs, lt))
  {
    StableSortIsSort(xs, lt);
    var s := StableSort(xs, lt);
    forall i, j | 0 <= i < j < |s| ensures s[i] != s[j] {
      if s[i] == s[j] {
        CountTwice(s, i, j);
        CountAtMostOnce(xs, s[i]);
        assert false;
      }
    }
  }

  lemma CountTwice<T>(s: seq<T>, i: nat, j: nat)
    requires i < j < |s| && s[i] == s[j]
    ensures multiset(s)[s[i]] >= 2
  {
    assert s == s[..j] + [s[j]] + s[j + 1..];
    assert s[..j][i] == s[i];
    assert s[i] in multiset(s[..j]);
  }

  lemma {:induction false} CountAtMostOnce<T>(xs: seq<T>, x: T)
    requires Distinct(xs)
    ensures multiset(xs)[x] <= 1
  {
    if xs != [] {
      var init := xs[..|xs| - 1];
      assert xs == init + [xs[|xs| - 1]];
      CountAtMostOnce(init, x);
      if xs[|xs| - 1] == x { assert x !in init; }
    }
  }

  lemma {:induction false} FilterKeepsOrder<T(!new)>(p: T -> bool, s: seq<T>, lt: (T, T) -> bool)
    requires Sorted(s, lt)
    ensures Sorted(Filter(p, s), lt)
  {
    if s != [] {
      var init := s[..|s| - 1];
      FilterKeepsOrder(p, init, lt);
      forall y | y in Filter(p, init) ensures !lt(s[|s| - 1], y) {
        FilterIn(p, init, y);
        var i :| 0 <= i < |init| && init[i] == y;
        assert !lt(s[|s| - 1], s[i]);
      }
      var r := Filter(p, s);
      forall i, j | 0 <= i < j < |r| ensures !lt(r[j], r[i]) {
        assert r[i] in Filter(p, init);
      }
    }
  }

  lemma {:induction false} FilterKeepsDistinct<T>(p: T -> bool, s: seq<T>)
    requires Distinct(s)
    ensures Distinct(Filter(p, s))
  {
    if s != [] {
      var init := s[..|s| - 1];
      FilterKeepsDistinct(p, init);
      FilterIn(p, init, s[|s| - 1]);
    }
  }

  lemma {:induction false} FilterTwice<T>(p: T -> bool, q: T -> bool, both: T -> bool, s: seq<T>)
    requires forall x :: both(x) <==> p(x) && q(x)
    ensures Filter(q, Filter(p, s)) == Filter(both, s)
  {
    if s != [] {
      FilterTwice(p, q, both, s[..|s| - 1]);
      if p(s[|s| - 1]) { FilterAppend(q, Filter(p, s[..|s| - 1]), [s[|s| - 1]]); }
    }
  }
}
