/** The stable library sort, and the order of names. */
module Sorting {

  import opened Basics

  /** Behind everything it does not have to go before, which makes the sort stable. */
  function InsertBy<T>(s: seq<T>, x: T, less: (T, T) -> bool): (r: seq<T>)
    ensures |r| == |s| + 1
  {
    if s == [] || !less(x, s[|s| - 1]) then s + [x] else InsertBy(s[..|s| - 1], x, less) + [s[|s| - 1]]
  }

  function SortBy<T>(s: seq<T>, less: (T, T) -> bool): (r: seq<T>)
    ensures |r| == |s|
  {
    if s == [] then [] else InsertBy(SortBy(s[..|s| - 1], less), s[|s| - 1], less)
  }

  lemma {:induction false} InsertByPermutes<T>(s: seq<T>, x: T, less: (T, T) -> bool)
    ensures multiset(InsertBy(s, x, less)) == multiset(s) + multiset{x}
    decreases |s|
  {
    if s != [] && less(x, s[|s| - 1]) {
      InsertByPermutes(s[..|s| - 1], x, less);
      assert s == s[..|s| - 1] + [s[|s| - 1]];
    }
  }

  lemma {:induction false} SortByPermutes<T>(s: seq<T>, less: (T, T) -> bool)
    ensures multiset(SortBy(s, less)) == multiset(s)
    ensures forall x :: x in SortBy(s, less) <==> x in s
    decreases |s|
  {
    if s != [] {
      SortByPermutes(s[..|s| - 1], less);
      InsertByPermutes(SortBy(s[..|s| - 1], less), s[|s| - 1], less);
      assert s == s[..|s| - 1] + [s[|s| - 1]];
    }
    assert forall x :: x in SortBy(s, less) <==> x in multiset(SortBy(s, less));
    assert forall x :: x in s <==> x in multiset(s);
  }

  /** Not being before is transitive, and nothing is before what is before it. */
  ghost predicate WeakOrder<T(!new)>(less: (T, T) -> bool) {
    && (forall a, b :: less(a, b) ==> !less(b, a))
    && (forall a, b, c :: !less(b, a) && !less(c, b) ==> !less(c, a))
  }

  ghost predicate Ordered<T>(s: seq<T>, less: (T, T) -> bool) {
    forall i, j :: 0 <= i < j < |s| ==> !less(s[j], s[i])
  }

  lemma {:induction false} InsertByOrders<T(!new)>(s: seq<T>, x: T, less: (T, T) -> bool)
    requires WeakOrder(less) && Ordered(s, less)
    ensures Ordered(InsertBy(s, x, less), less)
    decreases |s|
  {
    var n := |s| - 1;
    if s == [] {
    } else if !less(x, s[n]) {
      forall i | 0 <= i < |s| ensures !less(x, s[i]) {
        assert i < n ==> !less(s[n], s[i]);
      }
    } else {
      var rest := InsertBy(s[..n], x, less);
      InsertByOrders(s[..n], x, less);
      InsertByPermutes(s[..n], x, less);
      forall k | 0 <= k < |rest| ensures !less(s[n], rest[k]) {
        assert rest[k] in multiset(rest);
        assert rest[k] == x || rest[k] in s[..n];
      }
    }
  }

  lemma {:induction false} SortByOrders<T(!new)>(s: seq<T>, less: (T, T) -> bool)
    requires WeakOrder(less)
    ensures Ordered(SortBy(s, less), less)
    decreases |s|
  {
    if s != [] {
      SortByOrders(s[..|s| - 1], less);
      InsertByOrders(SortBy(s[..|s| - 1], less), s[|s| - 1], less);
    }
  }

  ghost predicate Distinct<T>(s: seq<T>) {
    forall i, j :: 0 <= i < j < |s| ==> s[i] != s[j]
  }

  lemma {:induction false} DistinctCounts<T>(s: seq<T>, x: T)
    requires Distinct(s)
    ensures multiset(s)[x] <= 1
    decreases |s|
  {
    if s != [] {
      var front, last := s[..|s| - 1], s[|s| - 1];
      assert s == front + [last];
      DistinctCounts(front, x);
      if x in front {
        var k :| 0 <= k < |front| && front[k] == x;
        assert s[k] != s[|s| - 1];
      }
    }
  }

  /** Sorting makes no duplicates. */
  lemma SortByDistinct<T>(s: seq<T>, less: (T, T) -> bool)
    requires Distinct(s)
    ensures Distinct(SortBy(s, less))
  {
    SortByPermutes(s, less);
    hide SortBy;
    var r := SortBy(s, less);
    forall i, j | 0 <= i < j < |r| ensures r[i] != r[j] {
      DistinctCounts(s, r[i]);
      assert r == r[..j] + [r[j]] + r[j + 1..];
      assert r[..j][i] == r[i];
      assert r[i] in multiset(r[..j]);
    }
  }

  // ----- Best so far -----

  ghost predicate StrictOrder<T(!new)>(less: (T, T) -> bool) {
    && (forall a :: !less(a, a))
    && (forall a, b, c :: less(a, b) && less(b, c) ==> less(a, c))
  }

  /** Nothing seen is less than the best, which was seen. */
  ghost predicate LeastBy<T>(seen: set<T>, best: Option<T>, less: (T, T) -> bool) {
    if best.None? then seen == {} else best.value in seen && forall x <- seen :: !less(x, best.value)
  }

  lemma LeastByOneMore<T(!new)>(seen: set<T>, best: Option<T>, less: (T, T) -> bool, x: T)
    requires StrictOrder(less) && LeastBy(seen, best, less)
    ensures LeastBy(seen + {x}, if best.None? || less(x, best.value) then Some(x) else best, less)
  {
    if best.Some? && less(x, best.value) {
      var b := best.value;
      forall y <- seen ensures !less(y, x) {
        assert !less(y, b);
      }
    }
  }

  // ----- Names -----

  /** Lexicographic order, which on UTF-8 text is the order of the code points. */
  predicate TextLess(a: string, b: string) {
    b != "" && (a == "" || a[0] < b[0] || (a[0] == b[0] && TextLess(a[1..], b[1..])))
  }

  lemma {:induction false} TextLessTotal(a: string, b: string)
    ensures TextLess(a, b) ==> !TextLess(b, a)
    ensures TextLess(a, b) || TextLess(b, a) || a == b
    decreases |a|
  {
    if a != "" && b != "" && a[0] == b[0] {
      TextLessTotal(a[1..], b[1..]);
      assert a == [a[0]] + a[1..] && b == [b[0]] + b[1..];
    }
  }

  lemma {:induction false} TextLessChains(a: string, b: string, c: string)
    requires TextLess(a, b) && TextLess(b, c)
    ensures TextLess(a, c)
    decreases |a|
  {
    if a != "" && a[0] == b[0] == c[0] {
      TextLessChains(a[1..], b[1..], c[1..]);
    }
  }

  lemma TextLessWeak(a: string, b: string, c: string)
    requires !TextLess(b, a) && !TextLess(c, b)
    ensures !TextLess(c, a)
  {
    TextLessTotal(a, b);
    TextLessTotal(b, c);
    TextLessTotal(a, c);
    if a != b && b != c {
      TextLessChains(a, b, c);
    }
  }
}
