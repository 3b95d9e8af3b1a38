/**
 Sharing worker time between models (`calculateModelReadyCosts` and `uniqueTimes` in
 `internal/gateway/billing.go`).

 The sweep is proved against the pointwise definition: at each tick, the models ready on a
 worker each get a full ready tick and an equal share of the billable one. Times are integer
 ticks, amounts are exact reals.
 */
module BillingSweep {

  import opened Basics
  import opened Sorting
  import opened Sums

  datatype Interval = Interval(worker: string, model: string, start: int, end: int)

  datatype Row = Row(ready: real, billable: real, cost: real)

  function RowOf(rows: map<string, Row>, model: string): Row {
    if model in rows then rows[model] else Row(0.0, 0.0, 0.0)
  }

  // ----- The pointwise definition -----

  /** The models ready on a worker at a tick. */
  function Active(ivs: seq<Interval>, worker: string, t: int): set<string> {
    set iv <- ivs | iv.worker == worker && iv.start <= t < iv.end :: iv.model
  }

  /** What a model gets of one tick: all of it, or its share. */
  function Portion(shared: bool, active: set<string>, model: string): real {
    if model !in active then 0.0 else if shared then 1.0 / |active| as real else 1.0
  }

  function PortionOn(shared: bool, ivs: seq<Interval>, worker: string, model: string): int -> real {
    t => Portion(shared, Active(ivs, worker, t), model)
  }

  function BusyOn(ivs: seq<Interval>, worker: string): int -> real {
    t => if Active(ivs, worker, t) == {} then 0.0 else 1.0
  }

  function Workers(ivs: seq<Interval>): set<string> {
    set iv <- ivs :: iv.worker
  }

  function Models(ivs: seq<Interval>): set<string> {
    set iv <- ivs :: iv.model
  }

  function WorkerTime(shared: bool, ivs: seq<Interval>, start: int, end: int, model: string): string -> real {
    worker => Ticks(start, end, PortionOn(shared, ivs, worker, model))
  }

  function BusyTime(ivs: seq<Interval>, start: int, end: int): string -> real {
    worker => Ticks(start, end, BusyOn(ivs, worker))
  }

  /** A model's ready time, or its billable time, in the window. */
  ghost function ModelTime(shared: bool, ivs: seq<Interval>, start: int, end: int, model: string): real {
    Sum(Workers(ivs), WorkerTime(shared, ivs, start, end, model))
  }

  // ----- Clipping and grouping -----

  function Clip(iv: Interval, start: int, end: int): Interval {
    iv.(start := if iv.start < start then start else iv.start, end := if iv.end > end then end else iv.end)
  }

  /** A worker's clipped, non-empty intervals. */
  function Mine(ivs: seq<Interval>, worker: string, start: int, end: int): seq<Interval> {
    if ivs == [] then []
    else
      var last := Clip(ivs[|ivs| - 1], start, end);
      Mine(ivs[..|ivs| - 1], worker, start, end) + if last.worker == worker && last.start < last.end then [last] else []
  }

  predicate Within(mine: seq<Interval>, worker: string, start: int, end: int) {
    forall iv <- mine :: iv.worker == worker && start <= iv.start < iv.end <= end
  }

  lemma {:induction false} MineIsWithin(ivs: seq<Interval>, worker: string, start: int, end: int)
    ensures Within(Mine(ivs, worker, start, end), worker, start, end)
    ensures Mine(ivs, worker, start, end) != [] ==> worker in Workers(ivs)
    decreases |ivs|
  {
    if ivs != [] {
      MineIsWithin(ivs[..|ivs| - 1], worker, start, end);
      assert ivs[|ivs| - 1] in ivs && forall iv <- ivs[..|ivs| - 1] :: iv in ivs;
    }
  }

  lemma ActiveSnoc(ivs: seq<Interval>, iv: Interval, worker: string, t: int)
    ensures Active(ivs + [iv], worker, t) ==
            Active(ivs, worker, t) + if iv.worker == worker && iv.start <= t < iv.end then {iv.model} else {}
  {
    assert forall x :: x in ivs + [iv] <==> x in ivs || x == iv;
  }

  /** Inside the window the clipped intervals say the same as the given ones. */
  lemma {:induction false} ClippingKeepsActive(ivs: seq<Interval>, worker: string, start: int, end: int, t: int)
    requires start <= t < end
    ensures Active(Mine(ivs, worker, start, end), worker, t) == Active(ivs, worker, t)
    decreases |ivs|
  {
    if ivs != [] {
      var rest, last := ivs[..|ivs| - 1], ivs[|ivs| - 1];
      ClippingKeepsActive(rest, worker, start, end, t);
      assert ivs == rest + [last];
      ActiveSnoc(rest, last, worker, t);
      ActiveSnoc(Mine(rest, worker, start, end), Clip(last, start, end), worker, t);
      assert Mine(rest, worker, start, end) + [] == Mine(rest, worker, start, end);
    }
  }

  lemma MineSnoc(ivs: seq<Interval>, i: nat, worker: string, start: int, end: int)
    requires i < |ivs|
    ensures var iv := Clip(ivs[i], start, end);
            Mine(ivs[..i + 1], worker, start, end) ==
            if iv.worker == worker && iv.start < iv.end
                then Mine(ivs[..i], worker, start, end) + [iv] else Mine(ivs[..i], worker, start, end)
  {
    assert ivs[..i + 1][..i] == ivs[..i];
  }

  ghost predicate Grouped(ivs: seq<Interval>, start: int, end: int, byWorker: map<string, seq<Interval>>) {
    forall w: string ::
        (w in byWorker <==> Mine(ivs, w, start, end) != []) && (w in byWorker ==> byWorker[w] == Mine(ivs, w, start, end))
  }

  function ListOf(byWorker: map<string, seq<Interval>>, worker: string): seq<Interval> {
    if worker in byWorker then byWorker[worker] else []
  }

  lemma GroupedNext(ivs: seq<Interval>, i: nat, start: int, end: int, byWorker: map<string, seq<Interval>>)
    requires i < |ivs| && Grouped(ivs[..i], start, end, byWorker)
    ensures var iv := Clip(ivs[i], start, end);
            Grouped(ivs[..i + 1], start, end,
                    if iv.end <= iv.start then byWorker else byWorker[iv.worker := ListOf(byWorker, iv.worker) + [iv]])
  {
    hide Mine, Clip;
    forall w: string {
      MineSnoc(ivs, i, w, start, end);
    }
  }

  method GroupByWorker(ivs: seq<Interval>, start: int, end: int) returns (byWorker: map<string, seq<Interval>>)
    ensures Grouped(ivs, start, end, byWorker)
  {
    byWorker := map[];
    assert ivs[..0] == [];
    for i := 0 to |ivs|
      invariant Grouped(ivs[..i], start, end, byWorker)
    {
      hide Grouped, Mine;
      GroupedNext(ivs, i, start, end, byWorker);
      var iv := ivs[i];
      if iv.start < start {
        iv := iv.(start := start);
      }
      if iv.end > end {
        iv := iv.(end := end);
      }
      if iv.end <= iv.start {
        continue;
      }
      byWorker := byWorker[iv.worker := ListOf(byWorker, iv.worker) + [iv]];
    }
    assert ivs[..|ivs|] == ivs;
  }

  // ----- Points -----

  predicate Ascending(s: seq<int>) {
    forall i, j :: 0 <= i < j < |s| ==> s[i] <= s[j]
  }

  predicate StrictlyAscending(s: seq<int>) {
    forall i, j :: 0 <= i < j < |s| ==> s[i] < s[j]
  }

  predicate Earlier(a: int, b: int) {
    a < b
  }

  function SortTimes(s: seq<int>): seq<int> {
    SortBy(s, Earlier)
  }

  lemma TimesAreSorted(s: seq<int>)
    ensures Ascending(SortTimes(s)) && forall p :: p in SortTimes(s) <==> p in s
  {
    SortByPermutes(s, Earlier);
    SortByOrders(s, Earlier);
    hide SortBy;
    assert forall i, j :: 0 <= i < j < |SortTimes(s)| ==> !Earlier(SortTimes(s)[j], SortTimes(s)[i]);
  }

  method UniqueTimes(points: seq<int>) returns (out: seq<int>)
    requires Ascending(points)
    ensures StrictlyAscending(out) && forall p :: p in out <==> p in points
  {
    if |points| == 0 {
      return points;
    }
    out := points[..1];
    for i := 1 to |points|
      invariant out != [] && StrictlyAscending(out) && out[|out| - 1] == points[i - 1]
      invariant forall p :: p in out <==> p in points[..i]
    {
      assert points[..i + 1] == points[..i] + [points[i]];
      if points[i] != out[|out| - 1] {
        assert out[|out| - 1] < points[i];
        out := out + [points[i]];
      }
    }
    assert points[..|points|] == points;
  }

  /** The distinct ends of a worker's intervals, in order. */
  ghost predicate PointsOf(mine: seq<Interval>, points: seq<int>) {
    StrictlyAscending(points) && forall p :: p in points <==> exists iv <- mine :: p == iv.start || p == iv.end
  }

  method CollectPoints(mine: seq<Interval>) returns (points: seq<int>)
    ensures PointsOf(mine, points)
  {
    var all := [];
    for i := 0 to |mine|
      invariant forall p :: p in all <==> exists k :: 0 <= k < i && (p == mine[k].start || p == mine[k].end)
    {
      all := all + [mine[i].start, mine[i].end];
    }
    var sorted := SortTimes(all);
    TimesAreSorted(all);
    points := UniqueTimes(sorted);
  }

  predicate Spans(iv: Interval, from: int, to: int) {
    iv.start < to && iv.end > from
  }

  function Overlapping(mine: seq<Interval>, from: int, to: int): set<string> {
    set iv <- mine | Spans(iv, from, to) :: iv.model
  }

  /** Between two neighbouring points nothing changes. */
  lemma SegmentIsConstant(mine: seq<Interval>, worker: string, start: int, end: int, points: seq<int>, i: nat, t: int)
    requires Within(mine, worker, start, end) && PointsOf(mine, points) && i + 1 < |points|
    requires points[i] <= t < points[i + 1]
    ensures Active(mine, worker, t) == Overlapping(mine, points[i], points[i + 1])
  {
    forall iv <- mine ensures Spans(iv, points[i], points[i + 1]) <==> iv.start <= t < iv.end {
      assert iv.start in points && iv.end in points;
      var a :| 0 <= a < |points| && points[a] == iv.start;
      var b :| 0 <= b < |points| && points[b] == iv.end;
      assert a <= i || i + 1 <= a;
      assert b <= i || i + 1 <= b;
    }
  }

  /** Before the first point and after the last one nothing is ready. */
  lemma OutsideIsIdle(mine: seq<Interval>, worker: string, start: int, end: int, points: seq<int>, t: int)
    requires Within(mine, worker, start, end) && PointsOf(mine, points) && mine != []
    ensures points != [] && start <= points[0] <= points[|points| - 1] <= end
    ensures t < points[0] || points[|points| - 1] <= t ==> Active(mine, worker, t) == {}
  {
    assert mine[0] in mine && mine[0].start in points;
    assert points[0] in points && points[|points| - 1] in points;
    forall iv <- mine ensures points[0] <= iv.start && iv.end <= points[|points| - 1] {
      assert iv.start in points && iv.end in points;
      var a :| 0 <= a < |points| && points[a] == iv.start;
      var b :| 0 <= b < |points| && points[b] == iv.end;
    }
  }

  // ----- The sweep -----

  ghost predicate Grew(before: map<string, Row>, after: map<string, Row>, ready: string -> real,
                       billable: string -> real, rate: real) {
    forall m: string ::
      && RowOf(after, m).ready == RowOf(before, m).ready + ready(m)
      && RowOf(after, m).billable == RowOf(before, m).billable + billable(m)
      && (RowOf(before, m).cost == Times(RowOf(before, m).billable, rate)
          ==> RowOf(after, m).cost == Times(RowOf(after, m).billable, rate))
  }

  function Given(active: set<string>, amount: real): string -> real {
    m => if m in active then amount else 0.0
  }

  /** Every model of a segment gets its time and its share. */
  method AddSegment(rows: map<string, Row>, active: set<string>, seconds: real, share: real,
                    rate: real) returns (after: map<string, Row>)
    ensures Grew(rows, after, Given(active, seconds), Given(active, share), rate)
  {
    after := rows;
    var todo := active;
    assert active - todo == {};
    NothingGiven(rows, seconds, share, rate);
    hide Times, Grew, Given;
    while todo != {}
      invariant todo <= active
      invariant Grew(rows, after, Given(active - todo, seconds), Given(active - todo, share), rate)
    {
      var model :| model in todo;
      var row := RowOf(after, model);
      GrewOneMore(rows, after, active - todo, model, seconds, share, rate);
      OneFewer(active, todo, model);
      todo := todo - {model};
      after := after[model := Row(row.ready + seconds, row.billable + share, row.cost + Times(share, rate))];
    }
    assert active - {} == active;
  }

  lemma NothingGiven(rows: map<string, Row>, seconds: real, share: real, rate: real)
    ensures Grew(rows, rows, Given({}, seconds), Given({}, share), rate)
  {
    hide Times;
  }

  lemma GrewOneMore(rows: map<string, Row>, was: map<string, Row>, done: set<string>, model: string, seconds: real,
                    share: real, rate: real)
    requires Grew(rows, was, Given(done, seconds), Given(done, share), rate) && model !in done
    ensures var row := RowOf(was, model);
            Grew(rows, was[model := Row(row.ready + seconds, row.billable + share, row.cost + Times(share, rate))],
                 Given(done + {model}, seconds), Given(done + {model}, share), rate)
  {
    Distribute(RowOf(was, model).billable, share, rate);
    hide Times;
  }

  method ActiveIn(mine: seq<Interval>, from: int, to: int) returns (active: set<string>)
    ensures active == Overlapping(mine, from, to)
  {
    active := {};
    for i := 0 to |mine|
      invariant active == Overlapping(mine[..i], from, to)
    {
      assert mine[..i + 1] == mine[..i] + [mine[i]];
      if mine[i].start < to && mine[i].end > from {
        active := active + {mine[i].model};
      }
    }
    assert mine[..|mine|] == mine;
  }

  /** What the ticks of a stretch give every model. */
  function Stretch(shared: bool, mine: seq<Interval>, worker: string, from: int, to: int): string -> real {
    m => Ticks(from, to, PortionOn(shared, mine, worker, m))
  }

  lemma SegmentAmount(seconds: int, n: nat)
    requires n > 0
    ensures seconds as real * (1.0 / n as real) == seconds as real / n as real
  {
  }

  lemma SegmentStretch(shared: bool, mine: seq<Interval>, worker: string, start: int, end: int, points: seq<int>,
                       i: nat, m: string)
    requires Within(mine, worker, start, end) && PointsOf(mine, points) && i + 1 < |points|
    ensures Stretch(shared, mine, worker, points[i], points[i + 1])(m) ==
            Times((points[i + 1] - points[i]) as real, Portion(shared, Overlapping(mine, points[i], points[i + 1]), m))
    ensures Stretch(shared, mine, worker, points[0], points[i + 1])(m) ==
            Stretch(shared, mine, worker, points[0], points[i])(m) + Stretch(shared, mine, worker, points[i], points[i + 1])(m)
  {
    assert points[0] <= points[i] < points[i + 1];
    hide PointsOf, Within, Active, Overlapping, Portion, Times;
    var c := Portion(shared, Overlapping(mine, points[i], points[i + 1]), m);
    forall t | points[i] <= t < points[i + 1] ensures PortionOn(shared, mine, worker, m)(t) == c {
      SegmentIsConstant(mine, worker, start, end, points, i, t);
    }
    TicksConstant(points[i], points[i + 1], PortionOn(shared, mine, worker, m), c);
    TicksSplit(points[0], points[i], points[i + 1], PortionOn(shared, mine, worker, m));
  }

  /** An equal share of some seconds. */
  function Divided(seconds: real, n: nat): real
    requires n > 0
  {
    seconds / n as real
  }

  lemma PortionTimes(active: set<string>, seconds: real)
    requires active != {}
    ensures forall m :: Times(seconds, Portion(false, active, m)) == Given(active, seconds)(m)
    ensures forall m :: Times(seconds, Portion(true, active, m)) == Given(active, Divided(seconds, |active|))(m)
  {
    assert seconds * (1.0 / |active| as real) == seconds / |active| as real;
  }

  lemma GrewTwice(a: map<string, Row>, b: map<string, Row>, c: map<string, Row>, rate: real,
                  r1: string -> real, b1: string -> real, r2: string -> real,
                      b2: string -> real, r3: string -> real, b3: string -> real)
    requires Grew(a, b, r1, b1, rate) && Grew(b, c, r2, b2, rate)
    requires forall m: string :: r3(m) == r1(m) + r2(m) && b3(m) == b1(m) + b2(m)
    ensures Grew(a, c, r3, b3, rate)
  {
    hide Times;
  }

  lemma GrewSame(a: map<string, Row>, b: map<string, Row>, rate: real, r1: string -> real, b1: string -> real,
                 r2: string -> real, b2: string -> real)
    requires Grew(a, b, r1, b1, rate) && forall m: string :: r2(m) == r1(m) && b2(m) == b1(m)
    ensures Grew(a, b, r2, b2, rate)
  {
    hide Times;
  }

  /** One worker: every stretch between neighbouring points is shared by the models ready in it. */
  method SweepWorker(rows: map<string, Row>, mine: seq<Interval>, ghost worker: string, ghost start: int,
                     ghost end: int, rate: real)
    returns (after: map<string, Row>)
    requires mine != [] && Within(mine, worker, start, end)
    ensures Grew(rows, after, Stretch(false, mine, worker, start, end), Stretch(true, mine, worker, start, end), rate)
  {
    hide PointsOf, Within, Grew, Overlapping, Stretch, Active, Given, Divided;
    var points := CollectPoints(mine);
    OutsideIsIdle(mine, worker, start, end, points, start);
    after := rows;
    NothingGrew(rows, mine, worker, points[0], rate);
    var i := 0;
    while i + 1 < |points|
      invariant 0 <= i < |points|
      invariant Grew(rows, after, Stretch(false, mine, worker, points[0], points[i]),
          Stretch(true, mine, worker, points[0], points[i]), rate)
    {
      var from, to := points[i], points[i + 1];
      var active := ActiveIn(mine, from, to);
      ghost var before := after;
      if active != {} {
        var seconds := (to - from) as real;
        after := AddSegment(after, active, seconds, Divided(seconds, |active|), rate);
      }
      SegmentGrows(rows, before, after, mine, worker, start, end, points, i, rate);
      i := i + 1;
    }
    EndsAreIdle(mine, worker, start, end, points);
    GrewSame(rows, after, rate, Stretch(false, mine, worker, points[0], points[i]), Stretch(true, mine, worker, points[0], points[i]),
             Stretch(false, mine, worker, start, end), Stretch(true, mine, worker, start, end));
  }

  lemma NothingGrew(rows: map<string, Row>, mine: seq<Interval>, worker: string, p: int, rate: real)
    ensures Grew(rows, rows, Stretch(false, mine, worker, p, p), Stretch(true, mine, worker, p, p), rate)
  {
    hide Times, PortionOn;
  }

  lemma SegmentGrows(rows: map<string, Row>, before: map<string, Row>, after: map<string, Row>, mine: seq<Interval>,
                     worker: string,
                     start: int, end: int, points: seq<int>, i: nat, rate: real)
    requires Within(mine, worker, start, end) && PointsOf(mine, points) && i + 1 < |points|
    requires Grew(rows, before, Stretch(false, mine, worker, points[0], points[i]),
        Stretch(true, mine, worker, points[0], points[i]), rate)
    requires var active := Overlapping(mine, points[i], points[i + 1]);
             var seconds := (points[i + 1] - points[i]) as real;
             if active == {} then after == before
             else Grew(before, after, Given(active, seconds), Given(active, Divided(seconds, |active|)), rate)
    ensures Grew(rows, after, Stretch(false, mine, worker, points[0], points[i + 1]),
        Stretch(true, mine, worker, points[0], points[i + 1]), rate)
  {
    hide PointsOf, Within;
    var active := Overlapping(mine, points[i], points[i + 1]);
    var seconds := (points[i + 1] - points[i]) as real;
    var r2, b2 := Stretch(false, mine, worker, points[i], points[i + 1]), Stretch(true, mine, worker, points[i], points[i + 1]);
    forall m: string
      ensures Stretch(false, mine, worker, points[0], points[i + 1])(m) == Stretch(false, mine, worker, points[0], points[i])(m) + r2(m)
      ensures Stretch(true, mine, worker, points[0], points[i + 1])(m) == Stretch(true, mine, worker, points[0], points[i])(m) + b2(m)
      ensures r2(m) == Times(seconds, Portion(false, active, m)) && b2(m) == Times(seconds, Portion(true, active, m))
    {
      SegmentStretch(false, mine, worker, start, end, points, i, m);
      SegmentStretch(true, mine, worker, start, end, points, i, m);
    }
    hide Overlapping, Stretch;
    if active == {} {
      assert forall m: string :: r2(m) == 0.0 && b2(m) == 0.0;
      assert Grew(before, after, r2, b2, rate);
    } else {
      PortionTimes(active, seconds);
      GrewSame(before, after, rate, Given(active, seconds), Given(active, Divided(seconds, |active|)), r2, b2);
    }
    GrewTwice(rows, before, after, rate, Stretch(false, mine, worker, points[0], points[i]),
        Stretch(true, mine, worker, points[0], points[i]), r2, b2,
              Stretch(false, mine, worker, points[0], points[i + 1]), Stretch(true, mine, worker, points[0], points[i + 1]));
  }

  lemma EndsAreIdle(mine: seq<Interval>, worker: string, start: int, end: int, points: seq<int>)
    requires mine != [] && Within(mine, worker, start, end) && PointsOf(mine, points) && points != []
    ensures forall shared: bool, m: string ::
              Stretch(shared, mine, worker, start, end)(m) == Stretch(shared, mine, worker, points[0], points[|points| - 1])(m)
  {
    var first, last := points[0], points[|points| - 1];
    OutsideIsIdle(mine, worker, start, end, points, start);
    forall shared: bool, m: string ensures Stretch(shared, mine, worker, start,
        end)(m) == Stretch(shared, mine, worker, first, last)(m) {
      var g := PortionOn(shared, mine, worker, m);
      forall t | t < first || last <= t ensures g(t) == 0.0 {
        OutsideIsIdle(mine, worker, start, end, points, t);
      }
      hide PointsOf, Within;
      TicksZero(start, first, g);
      TicksZero(last, end, g);
      TicksSplit(start, first, end, g);
      TicksSplit(first, last, end, g);
    }
  }

  // ----- All workers -----

  function TimeOn(shared: bool, byWorker: map<string, seq<Interval>>, start: int, end: int,
                  model: string): string -> real {
    w => if w in byWorker then Stretch(shared, byWorker[w], w, start, end)(model) else 0.0
  }

  ghost function TimeOver(shared: bool, byWorker: map<string, seq<Interval>>, workers: set<string>, start: int,
                          end: int): string -> real {
    m => Sum(workers, TimeOn(shared, byWorker, start, end, m))
  }

  lemma MineKeepsTime(ivs: seq<Interval>, w: string, start: int, end: int, shared: bool, m: string)
    ensures Ticks(start, end, PortionOn(shared, Mine(ivs, w, start, end), w, m)) == WorkerTime(shared, ivs, start, end, m)(w)
  {
    var mine := Mine(ivs, w, start, end);
    forall t | start <= t < end ensures PortionOn(shared, mine, w, m)(t) == PortionOn(shared, ivs, w, m)(t) {
      ClippingKeepsActive(ivs, w, start, end, t);
    }
    TicksSame(start, end, PortionOn(shared, mine, w, m), PortionOn(shared, ivs, w, m));
  }

  lemma WorkerKeepsTime(ivs: seq<Interval>, byWorker: map<string, seq<Interval>>, w: string, start: int, end: int,
                        shared: bool, m: string)
    requires (w in byWorker <==> Mine(ivs, w, start, end) != [])
    requires (w in byWorker ==> byWorker[w] == Mine(ivs, w, start, end))
    ensures TimeOn(shared, byWorker, start, end, m)(w) == WorkerTime(shared, ivs, start, end, m)(w)
    ensures w in byWorker ==> w in Workers(ivs)
  {
    hide Mine, Portion;
    MineIsWithin(ivs, w, start, end);
    MineKeepsTime(ivs, w, start, end, shared, m);
    var g := PortionOn(shared, Mine(ivs, w, start, end), w, m);
    if w in byWorker {
      assert TimeOn(shared, byWorker, start, end, m)(w) == Stretch(shared, byWorker[w], w, start, end)(m);
      assert Stretch(shared, byWorker[w], w, start, end)(m) == Ticks(start, end, g);
    } else {
      NobodyReady(shared, w, start, end, m);
    }
  }

  lemma NobodyReady(shared: bool, w: string, start: int, end: int, m: string)
    ensures Ticks(start, end, PortionOn(shared, [], w, m)) == 0.0
  {
    assert forall t :: PortionOn(shared, [], w, m)(t) == 0.0;
    TicksZero(start, end, PortionOn(shared, [], w, m));
  }

  /** The grouped total is the pointwise one. */
  lemma GroupingKeepsTime(ivs: seq<Interval>, byWorker: map<string, seq<Interval>>, start: int, end: int, shared: bool,
                          m: string)
    requires Grouped(ivs, start, end, byWorker)
    ensures TimeOver(shared, byWorker, byWorker.Keys, start, end)(m) == ModelTime(shared, ivs, start, end, m)
  {
    var f, g := TimeOn(shared, byWorker, start, end, m), WorkerTime(shared, ivs, start, end, m);
    forall w: string ensures f(w) == g(w) && (w in byWorker ==> w in Workers(ivs)) {
      WorkerKeepsTime(ivs, byWorker, w, start, end, shared, m);
    }
    hide TimeOn, WorkerTime, Mine, Workers;
    SumSame(byWorker.Keys, f, g);
    SumSubset(byWorker.Keys, Workers(ivs), g);
  }

  /**
   Each model's ready and billable time in the window, and its cost at the rate, for any
   intervals: overlapping, repeated, empty or outside the window.
   */
  method CalculateModelReadyCosts(ivs: seq<Interval>, start: int, end: int, rate: real) returns (rows: map<string, Row>)
    ensures forall m: string ::
              && RowOf(rows, m).ready == ModelTime(false, ivs, start, end, m)
              && RowOf(rows, m).billable == ModelTime(true, ivs, start, end, m)
              && RowOf(rows, m).cost == Times(ModelTime(true, ivs, start, end, m), rate)
  {
    var byWorker := GroupByWorker(ivs, start, end);
    rows := map[];
    var todo := byWorker.Keys;
    assert Grew(map[], rows, TimeOver(false, byWorker, {}, start, end), TimeOver(true, byWorker, {}, start, end), rate);
    while todo != {}
      invariant todo <= byWorker.Keys
      invariant Grew(map[], rows, TimeOver(false, byWorker, byWorker.Keys - todo, start, end),
                     TimeOver(true, byWorker, byWorker.Keys - todo, start, end), rate)
    {
      var worker :| worker in todo;
      ghost var done, before := byWorker.Keys - todo, rows;
      MineIsWithin(ivs, worker, start, end);
      rows := SweepWorker(rows, byWorker[worker], worker, start, end, rate);
      todo := todo - {worker};
      assert byWorker.Keys - todo == done + {worker};
      WorkerGrows(before, rows, byWorker, done, worker, start, end, rate);
    }
    assert byWorker.Keys - {} == byWorker.Keys;
    forall m: string
      ensures RowOf(rows, m).ready == ModelTime(false, ivs, start, end, m)
      ensures RowOf(rows, m).billable == ModelTime(true, ivs, start, end, m)
    {
      GroupingKeepsTime(ivs, byWorker, start, end, false, m);
      GroupingKeepsTime(ivs, byWorker, start, end, true, m);
    }
    assert RowOf(map[], "").cost == Times(RowOf(map[], "").billable, rate);
  }

  lemma WorkerGrows(before: map<string, Row>, after: map<string, Row>, byWorker: map<string, seq<Interval>>,
                    done: set<string>, worker: string,
                    start: int, end: int, rate: real)
    requires worker in byWorker && worker !in done
    requires Grew(map[], before, TimeOver(false, byWorker, done, start, end), TimeOver(true, byWorker, done, start, end), rate)
    requires Grew(before, after, Stretch(false, byWorker[worker], worker, start, end),
        Stretch(true, byWorker[worker], worker, start, end), rate)
    ensures Grew(map[], after, TimeOver(false, byWorker, done + {worker}, start, end),
        TimeOver(true, byWorker, done + {worker}, start, end), rate)
  {
    hide Grew;
    forall m: string, shared: bool ensures TimeOver(shared, byWorker, done + {worker}, start, end)(m) ==
        TimeOver(shared, byWorker, done, start, end)(m) + Stretch(shared, byWorker[worker], worker, start, end)(m) {
      SumPut(done, TimeOn(shared, byWorker, start, end, m), worker);
    }
    GrewTwice(map[], before, after, rate, TimeOver(false, byWorker, done, start, end), TimeOver(true, byWorker, done, start, end),
              Stretch(false, byWorker[worker], worker, start, end), Stretch(true, byWorker[worker], worker, start, end),
              TimeOver(false, byWorker, done + {worker}, start, end), TimeOver(true, byWorker, done + {worker}, start, end));
  }

  // ----- Conservation -----

  function PortionAt(ivs: seq<Interval>, worker: string): (string, int) -> real {
    (m, t) => Portion(true, Active(ivs, worker, t), m)
  }

  function TimeAt(ivs: seq<Interval>, start: int, end: int): (string, string) -> real {
    (m, w) => Ticks(start, end, PortionOn(true, ivs, w, m))
  }

  ghost function BillableTimes(ivs: seq<Interval>, start: int, end: int): string -> real {
    m => ModelTime(true, ivs, start, end, m)
  }

  ghost function Costs(ivs: seq<Interval>, start: int, end: int, rate: real): string -> real {
    m => Times(ModelTime(true, ivs, start, end, m), rate)
  }

  /** The shares of one tick add up to the tick, if anything is ready in it. */
  lemma SharesOfATick(ivs: seq<Interval>, worker: string, t: int)
    ensures Sum(Models(ivs), Right(PortionAt(ivs, worker), t)) == BusyOn(ivs, worker)(t)
  {
    var active, f := Active(ivs, worker, t), Right(PortionAt(ivs, worker), t);
    assert active <= Models(ivs);
    SumSubset(active, Models(ivs), f);
    if active != {} {
      SumConstant(active, f, 1.0 / |active| as real);
      assert |active| as real * (1.0 / |active| as real) == 1.0;
    }
  }

  /** Over all models a worker's billable time is the measure of the union of its intervals in the window. */
  lemma WorkerConserves(ivs: seq<Interval>, worker: string, start: int, end: int)
    ensures Sum(Models(ivs), Right(TimeAt(ivs, start, end), worker)) == BusyTime(ivs, start, end)(worker)
  {
    var models, g := Models(ivs), PortionAt(ivs, worker);
    SwapTicks(models, start, end, g);
    forall m: string ensures TicksAlong(start, end, g)(m) == Right(TimeAt(ivs, start, end), worker)(m) {
      TicksSame(start, end, Left(g, m), PortionOn(true, ivs, worker, m));
    }
    SumSame(models, TicksAlong(start, end, g), Right(TimeAt(ivs, start, end), worker));
    forall t: int ensures SumAcross(models, g)(t) == BusyOn(ivs, worker)(t) {
      SharesOfATick(ivs, worker, t);
    }
    TicksSame(start, end, SumAcross(models, g), BusyOn(ivs, worker));
  }

  /** Billable time over all models is the time workers were ready with anything. */
  lemma BillableConserved(ivs: seq<Interval>, start: int, end: int)
    ensures Sum(Models(ivs), BillableTimes(ivs, start, end)) == Sum(Workers(ivs), BusyTime(ivs, start, end))
  {
    var models, workers, g := Models(ivs), Workers(ivs), TimeAt(ivs, start, end);
    SwapSums(models, workers, g);
    forall m: string ensures SumAlong(workers, g)(m) == BillableTimes(ivs, start, end)(m) {
      SumSame(workers, Left(g, m), WorkerTime(true, ivs, start, end, m));
    }
    SumSame(models, SumAlong(workers, g), BillableTimes(ivs, start, end));
    forall w: string ensures SumAcross(models, g)(w) == BusyTime(ivs, start, end)(w) {
      WorkerConserves(ivs, w, start, end);
    }
    SumSame(workers, SumAcross(models, g), BusyTime(ivs, start, end));
  }

  /** So what is charged in total is the busy worker time at the rate. */
  lemma CostConserved(ivs: seq<Interval>, start: int, end: int, rate: real)
    ensures Sum(Models(ivs), Costs(ivs, start, end, rate)) == Times(Sum(Workers(ivs), BusyTime(ivs, start, end)), rate)
  {
    hide Times;
    BillableConserved(ivs, start, end);
    SumScale(Models(ivs), BillableTimes(ivs, start, end), Costs(ivs, start, end, rate), rate);
  }

  /** Repeating an interval, in whatever order, changes nothing. */
  lemma RepeatsDoNotCount(ivs: seq<Interval>, more: seq<Interval>, shared: bool, start: int, end: int, m: string)
    requires forall iv :: iv in more <==> iv in ivs
    ensures ModelTime(shared, more, start, end, m) == ModelTime(shared, ivs, start, end, m)
  {
    assert Workers(more) == Workers(ivs);
    var f, g := WorkerTime(shared, more, start, end, m), WorkerTime(shared, ivs, start, end, m);
    forall w: string ensures f(w) == g(w) {
      assert forall t :: Active(more, w, t) == Active(ivs, w, t);
      TicksSame(start, end, PortionOn(shared, more, w, m), PortionOn(shared, ivs, w, m));
    }
    SumSame(Workers(ivs), f, g);
  }
}
