/**
 Whole micro-dollars for fractional shares by largest remainder (`allocateBillingMicros` in
 `internal/gateway/billing.go`).
 */
module BillingAllocation {

  import opened Sorting

  datatype Cell = Cell(canonical: string, kind: string, name: string, raw: real, micros: int) {
    function Remainder(): real {
      raw - micros as real
    }
  }

  // ----- The order of the cells -----

  /** Larger remainder first; then by model, group kind and group name. */
  predicate Before(a: Cell, b: Cell) {
    if a.Remainder() != b.Remainder() then a.Remainder() > b.Remainder()
    else if a.canonical != b.canonical then TextLess(a.canonical, b.canonical)
    else if a.kind != b.kind then TextLess(a.kind, b.kind)
    else TextLess(a.name, b.name)
  }

  predicate ByRemainder(cells: seq<Cell>) {
    forall i, j :: 0 <= i < j < |cells| ==> cells[i].Remainder() >= cells[j].Remainder()
  }

  function Micros(cells: seq<Cell>): int {
    if cells == [] then 0 else Micros(cells[..|cells| - 1]) + cells[|cells| - 1].micros
  }

  function Raw(cells: seq<Cell>): real {
    if cells == [] then 0.0 else Raw(cells[..|cells| - 1]) + cells[|cells| - 1].raw
  }

  lemma MicrosSnoc(cells: seq<Cell>, c: Cell)
    ensures Micros(cells + [c]) == Micros(cells) + c.micros && Raw(cells + [c]) == Raw(cells) + c.raw
  {
    assert (cells + [c])[..|cells|] == cells;
  }

  function SortCells(cells: seq<Cell>): (r: seq<Cell>)
    ensures |r| == |cells|
  {
    SortBy(cells, Before)
  }

  lemma BeforeIsWeak()
    ensures WeakOrder(Before)
  {
    forall a: Cell, b: Cell ensures Before(a, b) ==> !Before(b, a) {
      TextLessTotal(a.canonical, b.canonical);
      TextLessTotal(a.kind, b.kind);
      TextLessTotal(a.name, b.name);
    }
    forall a: Cell, b: Cell, c: Cell | !Before(b, a) && !Before(c, b) ensures !Before(c, a) {
      NotBeforeChains(a, b, c);
    }
  }

  lemma NotBeforeChains(a: Cell, b: Cell, c: Cell)
    requires !Before(b, a) && !Before(c, b)
    ensures !Before(c, a)
  {
    NamesAreWeak(a.canonical, b.canonical, c.canonical);
    NamesAreWeak(a.kind, b.kind, c.kind);
    NamesAreWeak(a.name, b.name, c.name);
    hide TextLess;
  }

  lemma NamesAreWeak(a: string, b: string, c: string)
    ensures !TextLess(b, a) && !TextLess(c, b) ==> !TextLess(c, a)
    ensures TextLess(a, b) || TextLess(b, a) || a == b
    ensures TextLess(b, c) || TextLess(c, b) || b == c
    ensures TextLess(a, c) || TextLess(c, a) || a == c
    ensures !(TextLess(a, b) && TextLess(b, a)) && !(TextLess(b, c) && TextLess(c, b))
    ensures !(TextLess(a, c) && TextLess(c, a))
  {
    TextLessTotal(a, b);
    TextLessTotal(b, c);
    TextLessTotal(a, c);
    if !TextLess(b, a) && !TextLess(c, b) {
      TextLessWeak(a, b, c);
    }
  }

  lemma {:induction false} InsertKeepsMicros(cells: seq<Cell>, c: Cell)
    ensures Micros(InsertBy(cells, c, Before)) == Micros(cells) + c.micros
    decreases |cells|
  {
    hide Before;
    if cells == [] || !Before(c, cells[|cells| - 1]) {
      MicrosSnoc(cells, c);
    } else {
      var front, last := cells[..|cells| - 1], cells[|cells| - 1];
      InsertKeepsMicros(front, c);
      MicrosSnoc(InsertBy(front, c, Before), last);
    }
  }

  lemma {:induction false} SortKeepsMicros(cells: seq<Cell>)
    ensures Micros(SortCells(cells)) == Micros(cells)
    decreases |cells|
  {
    if cells != [] {
      hide InsertBy, Before;
      SortKeepsMicros(cells[..|cells| - 1]);
      InsertKeepsMicros(SortCells(cells[..|cells| - 1]), cells[|cells| - 1]);
    }
  }

  lemma SortSorts(cells: seq<Cell>)
    ensures multiset(SortCells(cells)) == multiset(cells) && Micros(SortCells(cells)) == Micros(cells)
    ensures ByRemainder(SortCells(cells))
  {
    SortKeepsMicros(cells);
    SortByPermutes(cells, Before);
    BeforeIsWeak();
    SortByOrders(cells, Before);
    hide SortBy, Micros;
    var sorted := SortCells(cells);
    forall i, j | 0 <= i < j < |sorted| ensures sorted[i].Remainder() >= sorted[j].Remainder() {
      assert !Before(sorted[j], sorted[i]);
    }
  }

  // ----- The allocation -----

  function Floored(cells: seq<Cell>): seq<Cell> {
    seq(|cells|, i requires 0 <= i < |cells| => cells[i].(micros := cells[i].raw.Floor))
  }

  /** Where the micro dealt as number `i` goes among `n` cells. */
  function Seat(i: nat, n: nat): (k: nat)
    requires n > 0
    ensures k < n
  {
    i % n
  }

  /** How often cell `k` of `n` is among the first `given` when they are dealt in turn. */
  function Dealt(given: nat, n: nat, k: nat): nat
    requires n > 0
  {
    if given == 0 then 0 else Dealt(given - 1, n, k) + if Seat(given - 1, n) == k then 1 else 0
  }

  function Topped(cells: seq<Cell>, given: nat): seq<Cell> {
    seq(|cells|, k requires 0 <= k < |cells| => cells[k].(micros := cells[k].micros + Dealt(given, |cells|, k)))
  }

  /** The cells in remainder order, and what is missing to the target dealt from the top. */
  function Allocated(cells: seq<Cell>, target: int): seq<Cell> {
    var sorted := SortCells(Floored(cells));
    var remaining := target - Micros(Floored(cells));
    if remaining <= 0 then sorted else Topped(sorted, remaining)
  }

  method AllocateBillingMicros(cells: array<Cell>, target: int)
    modifies cells
    ensures cells[..] == Allocated(old(cells[..]), target)
  {
    hide SortCells, Floored, Topped, Micros;
    var floors := FloorCells(cells);
    var sorted := SortCells(cells[..]);
    forall k | 0 <= k < cells.Length {
      cells[k] := sorted[k];
    }
    assert cells[..] == sorted;
    DealMicros(cells, target - floors);
  }

  lemma FloorOneMore(cells: seq<Cell>, i: nat)
    requires i < |cells|
    ensures Micros(Floored(cells[..i + 1])) == Micros(Floored(cells[..i])) + cells[i].raw.Floor
  {
    assert Floored(cells[..i + 1]) == Floored(cells[..i]) + [cells[i].(micros := cells[i].raw.Floor)];
    MicrosSnoc(Floored(cells[..i]), cells[i].(micros := cells[i].raw.Floor));
  }

  method FloorCells(cells: array<Cell>) returns (floors: int)
    modifies cells
    ensures cells[..] == Floored(old(cells[..])) && floors == Micros(Floored(old(cells[..])))
  {
    ghost var before := cells[..];
    floors := 0;
    assert Floored(before[..0]) == [];
    hide Micros;
    var i := 0;
    while i < cells.Length
      invariant 0 <= i <= cells.Length
      invariant forall k :: 0 <= k < i ==> cells[k] == before[k].(micros := before[k].raw.Floor)
      invariant forall k :: i <= k < cells.Length ==> cells[k] == before[k]
      invariant floors == Micros(Floored(before[..i]))
    {
      cells[i] := cells[i].(micros := cells[i].raw.Floor);
      floors := floors + cells[i].micros;
      FloorOneMore(before, i);
      i := i + 1;
    }
    assert before[..i] == before;
    assert cells[..] == Floored(before);
  }

  method DealMicros(cells: array<Cell>, missing: int)
    modifies cells
    ensures cells[..] == if missing <= 0 then old(cells[..]) else Topped(old(cells[..]), missing)
  {
    ghost var before := cells[..];
    var remaining, index := missing, 0;
    assert cells[..] == Topped(before, 0);
    while remaining > 0 && cells.Length > 0
      invariant 0 <= index && (if missing > 0 then remaining >= 0 && index == missing - remaining else index == 0)
      invariant cells[..] == Topped(before, index)
      decreases remaining
    {
      var at := Seat(index, cells.Length);
      assert cells[at] == Topped(before, index)[at];
      ghost var was := cells[..];
      cells[at] := cells[at].(micros := cells[at].micros + 1);
      DealOneMore(before, was, cells[..], index);
      remaining, index := remaining - 1, index + 1;
    }
    if cells.Length == 0 && missing > 0 {
      assert cells[..] == before == Topped(before, missing);
    }
  }

  lemma DealOneMore(before: seq<Cell>, was: seq<Cell>, now: seq<Cell>, index: nat)
    requires before != [] && was == Topped(before, index)
    requires var at := Seat(index, |before|); now == was[at := was[at].(micros := was[at].micros + 1)]
    ensures now == Topped(before, index + 1)
  {
    hide Seat;
  }

  // ----- What it achieves -----

  lemma EarlySeat(i: nat, n: nat)
    requires i < n
    ensures Seat(i, n) == i
  {
  }

  lemma {:induction false} DealtOnce(given: nat, n: nat, k: nat)
    requires given <= n && k < n
    ensures Dealt(given, n, k) == if k < given then 1 else 0
    decreases given
  {
    hide Seat;
    if given > 0 {
      DealtOnce(given - 1, n, k);
      EarlySeat(given - 1, n);
    }
  }

  lemma {:induction false} MicrosBump(cells: seq<Cell>, k: nat)
    requires k < |cells|
    ensures Micros(cells[k := cells[k].(micros := cells[k].micros + 1)]) == Micros(cells) + 1
    decreases |cells|
  {
    var after := cells[k := cells[k].(micros := cells[k].micros + 1)];
    var n := |cells| - 1;
    if k == n {
      assert after[..n] == cells[..n];
    } else {
      MicrosBump(cells[..n], k);
      assert after[..n] == cells[..n][k := cells[k].(micros := cells[k].micros + 1)];
    }
  }

  lemma {:induction false} ToppedAdds(cells: seq<Cell>, given: nat)
    requires cells != []
    ensures Micros(Topped(cells, given)) == Micros(cells) + given
    decreases given
  {
    if given == 0 {
      assert Topped(cells, 0) == cells;
    } else {
      ToppedAdds(cells, given - 1);
      hide Seat;
      var before, at := Topped(cells, given - 1), Seat(given - 1, |cells|);
      MicrosBump(before, at);
      assert Topped(cells, given) == before[at := before[at].(micros := before[at].micros + 1)];
    }
  }

  /** The micros add up to the target whenever the floors do not exceed it. */
  lemma AllocationExact(cells: seq<Cell>, target: int)
    requires cells != [] && Micros(Floored(cells)) <= target
    ensures Micros(Allocated(cells, target)) == target
  {
    var sorted := SortCells(Floored(cells));
    assert |Floored(cells)| == |cells|;
    SortKeepsMicros(Floored(cells));
    hide SortCells, Floored, Topped, Micros;
    var remaining := target - Micros(Floored(cells));
    if remaining > 0 {
      ToppedAdds(sorted, remaining);
    }
  }

  /** No cell is lost or invented: but for their micros the cells are the given ones. */
  lemma AllocationKeepsCells(cells: seq<Cell>, target: int)
    ensures var after := Allocated(cells, target);
            |after| == |cells| && multiset(Floored(after)) == multiset(Floored(cells))
  {
    var sorted := SortCells(Floored(cells));
    SortSorts(Floored(cells));
    var after := Allocated(cells, target);
    forall k | 0 <= k < |sorted| ensures Floored(after)[k] == sorted[k] {
      SortedIsFloored(cells, k);
    }
    assert Floored(after) == sorted;
  }

  lemma SortedIsFloored(cells: seq<Cell>, k: nat)
    requires k < |cells|
    ensures var c := SortCells(Floored(cells))[k]; c.micros == c.raw.Floor
  {
    SortSorts(Floored(cells));
    var sorted := SortCells(Floored(cells));
    hide SortCells, ByRemainder, Micros;
    assert sorted[k] in multiset(sorted);
    assert sorted[k] in Floored(cells);
  }

  /** Half away from zero, as math.Round. */
  function Round(x: real): int {
    if x >= 0.0 then (x + 0.5).Floor else -((-x + 0.5).Floor)
  }

  lemma {:induction false} FloorsAreNear(cells: seq<Cell>)
    ensures 0.0 <= Raw(cells) - Micros(Floored(cells)) as real <= |cells| as real
    ensures cells != [] ==> Raw(cells) - Micros(Floored(cells)) as real < |cells| as real
    decreases |cells|
  {
    if cells != [] {
      var n := |cells| - 1;
      FloorsAreNear(cells[..n]);
      assert Floored(cells)[..n] == Floored(cells[..n]);
    }
  }

  lemma RoundIsNear(x: real, base: int, n: nat)
    requires 0.0 <= x - base as real <= n as real
    ensures base <= Round(x) <= base + n
  {
  }

  /** With the rounded total as target between none and all of the cells get one micro more. */
  lemma RoundedTargetFits(cells: seq<Cell>)
    ensures 0 <= Round(Raw(cells)) - Micros(Floored(cells)) <= |cells|
  {
    FloorsAreNear(cells);
    RoundIsNear(Raw(cells), Micros(Floored(cells)), |cells|);
  }

  /** What a cell got above its floor. */
  function Extra(c: Cell): int {
    c.micros - c.raw.Floor
  }

  function Fraction(c: Cell): real {
    c.raw - c.raw.Floor as real
  }

  ghost predicate FloorOrOneMore(cells: seq<Cell>) {
    forall k :: 0 <= k < |cells| ==> 0 <= Extra(cells[k]) <= 1
  }

  ghost predicate LargerFractionFirst(cells: seq<Cell>) {
    forall j, k ::
        0 <= j < |cells| && 0 <= k < |cells| && Fraction(cells[j]) > Fraction(cells[k]) ==> Extra(cells[j]) >= Extra(cells[k])
  }

  /**
   Fair: with the rounded total as target every cell has its floor or one more, a cell with a
   larger fraction never misses out to one with a smaller, and the total is met exactly.
   */
  lemma AllocationFair(cells: seq<Cell>)
    ensures var after := Allocated(cells, Round(Raw(cells)));
            Micros(after) == Round(Raw(cells)) && FloorOrOneMore(after) && LargerFractionFirst(after)
  {
    RoundedTargetFits(cells);
    if cells != [] {
      AllocationExact(cells, Round(Raw(cells)));
    }
    hide SortCells, Micros, Floored, Raw, Round, Extra, Fraction;
    var remaining := Round(Raw(cells)) - Micros(Floored(cells));
    var after := Allocated(cells, Round(Raw(cells)));
    forall k | 0 <= k < |after| ensures Extra(after[k]) == if k < remaining then 1 else 0 {
      AllocatedAt(cells, Round(Raw(cells)), k);
    }
    forall j, k | 0 <= j < k < |after| ensures Fraction(after[j]) >= Fraction(after[k]) {
      SortSorts(Floored(cells));
      AllocatedAt(cells, Round(Raw(cells)), j);
      AllocatedAt(cells, Round(Raw(cells)), k);
    }
    TopOfTheOrder(after, remaining);
  }

  lemma TopOfTheOrder(cells: seq<Cell>, remaining: int)
    requires forall k :: 0 <= k < |cells| ==> Extra(cells[k]) == if k < remaining then 1 else 0
    requires forall j, k :: 0 <= j < k < |cells| ==> Fraction(cells[j]) >= Fraction(cells[k])
    ensures FloorOrOneMore(cells) && LargerFractionFirst(cells)
  {
    hide Extra, Fraction;
  }

  lemma AllocatedAt(cells: seq<Cell>, target: int, k: nat)
    requires 0 <= target - Micros(Floored(cells)) <= |cells| && k < |Allocated(cells, target)|
    ensures var after := Allocated(cells, target);
            |after| == |SortCells(Floored(cells))| && Extra(after[k]) == (if k < target - Micros(Floored(cells)) then 1 else 0)
            && Fraction(after[k]) == SortCells(Floored(cells))[k].Remainder()
  {
    var sorted := SortCells(Floored(cells));
    SortSorts(Floored(cells));
    hide Dealt, SortCells, ByRemainder, Micros;
    assert sorted[k] in multiset(sorted);
    assert sorted[k] in multiset(Floored(cells));
    var j :| 0 <= j < |cells| && Floored(cells)[j] == sorted[k];
    if target > Micros(Floored(cells)) {
      DealtOnce(target - Micros(Floored(cells)), |sorted|, k);
    }
  }
}
