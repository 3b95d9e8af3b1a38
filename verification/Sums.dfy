/** Finite sums over sets and over ranges of time. */
module Sums {

  /** The sum of `f` over a set; the order does not matter, see `SumPick`. */
  ghost function Sum<T(!new)>(s: set<T>, f: T -> real): real {
    if s == {} then 0.0
    else
      var x :| x in s;
      f(x) + Sum(s - {x}, f)
  }

  lemma {:induction false} SumPick<T(!new)>(s: set<T>, f: T -> real, x: T)
    requires x in s
    ensures Sum(s, f) == f(x) + Sum(s - {x}, f)
    decreases |s|
  {
    var y :| y in s && Sum(s, f) == f(y) + Sum(s - {y}, f);
    if y != x {
      SumPick(s - {y}, f, x);
      SumPick(s - {x}, f, y);
      assert s - {y} - {x} == s - {x} - {y};
    }
  }

  lemma SumPut<T(!new)>(s: set<T>, f: T -> real, x: T)
    requires x !in s
    ensures Sum(s + {x}, f) == Sum(s, f) + f(x)
  {
    SumPick(s + {x}, f, x);
    assert s + {x} - {x} == s;
  }

  lemma {:induction false} SumSame<T(!new)>(s: set<T>, f: T -> real, g: T -> real)
    requires forall x <- s :: f(x) == g(x)
    ensures Sum(s, f) == Sum(s, g)
    decreases |s|
  {
    if s != {} {
      var x :| x in s;
      SumPick(s, f, x);
      SumPick(s, g, x);
      SumSame(s - {x}, f, g);
    }
  }

  lemma {:induction false} SumAdd<T(!new)>(s: set<T>, f: T -> real, g: T -> real, h: T -> real)
    requires forall x <- s :: h(x) == f(x) + g(x)
    ensures Sum(s, h) == Sum(s, f) + Sum(s, g)
    decreases |s|
  {
    if s != {} {
      var x :| x in s;
      SumPick(s, f, x);
      SumPick(s, g, x);
      SumPick(s, h, x);
      SumAdd(s - {x}, f, g, h);
    }
  }

  lemma {:induction false} SumConstant<T(!new)>(s: set<T>, f: T -> real, c: real)
    requires forall x <- s :: f(x) == c
    ensures Sum(s, f) == |s| as real * c
    decreases |s|
  {
    if s != {} {
      var x :| x in s;
      SumPick(s, f, x);
      SumConstant(s - {x}, f, c);
      assert |s| as real * c == (|s| - 1) as real * c + c;
    }
  }

  function Times(a: real, b: real): real {
    a * b
  }

  lemma Distribute(a: real, b: real, c: real)
    ensures Times(a + b, c) == Times(a, c) + Times(b, c)
  {
  }

  lemma {:induction false} SumScale<T(!new)>(s: set<T>, f: T -> real, g: T -> real, c: real)
    requires forall x <- s :: g(x) == Times(f(x), c)
    ensures Sum(s, g) == Times(Sum(s, f), c)
    decreases |s|
  {
    if s == {} {
      assert Times(0.0, c) == 0.0;
    } else {
      hide Times;
      var x :| x in s;
      SumPick(s, f, x);
      SumPick(s, g, x);
      SumScale(s - {x}, f, g, c);
      Distribute(f(x), Sum(s - {x}, f), c);
    }
  }

  /** Members outside a subset that contribute nothing may be left out. */
  lemma {:induction false} SumSubset<T(!new)>(s: set<T>, all: set<T>, f: T -> real)
    requires s <= all && forall x <- all - s :: f(x) == 0.0
    ensures Sum(all, f) == Sum(s, f)
    decreases |all - s|
  {
    if all - s == {} {
      assert all == s;
    } else {
      var x :| x in all - s;
      SumPick(all, f, x);
      assert all - {x} - s == all - s - {x};
      SumSubset(s, all - {x}, f);
    }
  }

  // ----- Sums over ticks -----

  /** The sum of `g` over the ticks from `lo` up to and not including `hi`. */
  function Ticks(lo: int, hi: int, g: int -> real): real
    decreases hi - lo
  {
    if hi <= lo then 0.0 else Ticks(lo, hi - 1, g) + g(hi - 1)
  }

  lemma {:induction false} TicksSplit(lo: int, mid: int, hi: int, g: int -> real)
    requires lo <= mid <= hi
    ensures Ticks(lo, hi, g) == Ticks(lo, mid, g) + Ticks(mid, hi, g)
    decreases hi - mid
  {
    if mid < hi {
      TicksSplit(lo, mid, hi - 1, g);
    }
  }

  lemma {:induction false} TicksConstant(lo: int, hi: int, g: int -> real, c: real)
    requires lo <= hi && forall t :: lo <= t < hi ==> g(t) == c
    ensures Ticks(lo, hi, g) == Times((hi - lo) as real, c)
    decreases hi - lo
  {
    if lo < hi {
      TicksConstant(lo, hi - 1, g, c);
      Distribute((hi - 1 - lo) as real, 1.0, c);
    }
  }

  lemma TicksZero(lo: int, hi: int, g: int -> real)
    requires forall t :: lo <= t < hi ==> g(t) == 0.0
    ensures Ticks(lo, hi, g) == 0.0
  {
    if lo <= hi {
      TicksConstant(lo, hi, g, 0.0);
    }
  }

  lemma {:induction false} TicksSame(lo: int, hi: int, g: int -> real, h: int -> real)
    requires forall t :: lo <= t < hi ==> g(t) == h(t)
    ensures Ticks(lo, hi, g) == Ticks(lo, hi, h)
    decreases hi - lo
  {
    if lo < hi {
      TicksSame(lo, hi - 1, g, h);
    }
  }

  // ----- Changing the order of summation -----

  function Left<A, B>(g: (A, B) -> real, a: A): B -> real {
    b => g(a, b)
  }

  function Right<A, B>(g: (A, B) -> real, b: B): A -> real {
    a => g(a, b)
  }

  function TicksAlong<A>(lo: int, hi: int, g: (A, int) -> real): A -> real {
    a => Ticks(lo, hi, Left(g, a))
  }

  ghost function SumAlong<A, B(!new)>(w: set<B>, g: (A, B) -> real): A -> real {
    a => Sum(w, Left(g, a))
  }

  ghost function SumAcross<A(!new), B>(s: set<A>, g: (A, B) -> real): B -> real {
    b => Sum(s, Right(g, b))
  }

  lemma {:induction false} SwapTicks<A(!new)>(s: set<A>, lo: int, hi: int, g: (A, int) -> real)
    ensures Sum(s, TicksAlong(lo, hi, g)) == Ticks(lo, hi, SumAcross(s, g))
    decreases hi - lo
  {
    if hi <= lo {
      SumConstant(s, TicksAlong(lo, hi, g), 0.0);
    } else {
      SwapTicks(s, lo, hi - 1, g);
      SumAdd(s, TicksAlong(lo, hi - 1, g), Right(g, hi - 1), TicksAlong(lo, hi, g));
    }
  }

  lemma {:induction false} SwapSums<A(!new), B(!new)>(s: set<A>, w: set<B>, g: (A, B) -> real)
    ensures Sum(s, SumAlong(w, g)) == Sum(w, SumAcross(s, g))
    decreases |w|
  {
    if w == {} {
      SumConstant(s, SumAlong(w, g), 0.0);
    } else {
      var b :| b in w;
      forall a <- s ensures SumAlong(w, g)(a) == SumAlong(w - {b}, g)(a) + Right(g, b)(a) {
        SumPick(w, Left(g, a), b);
      }
      SumAdd(s, SumAlong(w - {b}, g), Right(g, b), SumAlong(w, g));
      SwapSums(s, w - {b}, g);
      SumPick(w, SumAcross(s, g), b);
    }
  }
}
