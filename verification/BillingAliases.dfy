/**
 Billing rows by requested alias (`groupBillingModelsByAlias` in
 `internal/gateway/billing.go`): what requests brought is added up by alias, and what models
 cost is divided by the number of requests that came under each alias.

 The source visits models and groups in order and sorts the result; the allocation has an
 order of its own and nothing else depends on one.
 */
module BillingAliases {

  import opened Basics
  import opened BillingAllocation
  import opened Sums
  import opened Tallies

  datatype Group = Unattributed | Alias(name: string)

  datatype CanonicalRow = CanonicalRow(model: string, ready: real, billable: real, cost: real)

  datatype AliasRow = AliasRow(
    requests: int, duration: real, input: int, output: int, cached: int, total: int, used: real,
    ready: real, billable: real, micros: int)

  const NO_ROW := AliasRow(0, 0.0, 0, 0, 0, 0, 0.0, 0.0, 0.0, 0)

  function KindOf(g: Group): string {
    if g.Unattributed? then "unattributed" else "alias"
  }

  function NameOf(g: Group): string {
    if g.Unattributed? then "" else g.name
  }

  function GroupOf(): Request -> Group {
    (r: Request) => var requested := TrimSpace(r.requestedModel); if requested == "" then Unattributed else Alias(requested)
  }

  // ----- What a request adds to its row -----

  datatype Metric = Requests | Durations | Inputs | Outputs | Cacheds | Totals | Useds

  function Measure(m: Metric, row: AliasRow): real {
    match m
    case Requests => row.requests as real
    case Durations => row.duration
    case Inputs => row.input as real
    case Outputs => row.output as real
    case Cacheds => row.cached as real
    case Totals => row.total as real
    case Useds => row.used
  }

  function Amount(m: Metric, prices: map<string, Pricing>): Request -> real {
    (r: Request) =>
      match m
      case Requests => 1.0
      case Durations => Duration(r)
      case Inputs => r.prompt as real
      case Outputs => r.completion as real
      case Cacheds => r.cached as real
      case Totals => r.total as real
      case Useds => UsedCost(prices, r)
  }

  function WithRequest(row: AliasRow, r: Request, prices: map<string, Pricing>): AliasRow {
    row.(requests := row.requests + 1, duration := row.duration + Duration(r), input := row.input + r.prompt,
         output := row.output + r.completion, cached := row.cached + r.cached, total := row.total + r.total,
         used := row.used + UsedCost(prices, r))
  }

  lemma WithRequestMeasures(row: AliasRow, r: Request, prices: map<string, Pricing>, m: Metric)
    ensures Measure(m, WithRequest(row, r, prices)) == Measure(m, row) + Amount(m, prices)(r)
  {
  }

  function RowAt(rows: map<Group, AliasRow>, g: Group): AliasRow {
    if g in rows then rows[g] else NO_ROW
  }

  // ----- Shares of a model -----

  function CountIn(counts: map<Group, int>, g: Group): int {
    if g in counts then counts[g] else 0
  }

  function CountsOf(counts: map<string, map<Group, int>>, model: string): map<Group, int> {
    if model in counts then counts[model] else map[]
  }

  /** A model's share for a group: by number of requests, or all unattributed without any. */
  function Share(rs: seq<Request>, model: string, g: Group): real {
    var all := All(rs, OnModel(model));
    if all <= 0.0 then (if g == Unattributed then 1.0 else 0.0) else In(rs, GroupOf(), g, OnModel(model)) / all
  }

  function ShareOf(rs: seq<Request>, model: string): Group -> real {
    g => Share(rs, model, g)
  }

  /** The tables after the requests. */
  datatype Seen = Seen(rows: map<Group, AliasRow>, counts: map<string, map<Group, int>>, byModel: map<string, int>)

  function NumberOf(byModel: map<string, int>, model: string): int {
    if model in byModel then byModel[model] else 0
  }

  predicate RowSeen(t: Seen, rs: seq<Request>, prices: map<string, Pricing>, g: Group) {
    && (g in t.rows <==> g in KeysOf(rs, GroupOf()))
    && RowAt(t.rows, g).ready == 0.0 && RowAt(t.rows, g).billable == 0.0 && RowAt(t.rows, g).micros == 0
    && forall m: Metric :: Measure(m, RowAt(t.rows, g)) == In(rs, GroupOf(), g, Amount(m, prices))
  }

  predicate ModelSeen(t: Seen, rs: seq<Request>, model: string) {
    NumberOf(t.byModel, model) as real == All(rs, OnModel(model))
  }

  predicate PairSeen(t: Seen, rs: seq<Request>, model: string, g: Group) {
    && CountIn(CountsOf(t.counts, model), g) as real == In(rs, GroupOf(), g, OnModel(model))
    && (g in CountsOf(t.counts, model) ==> g in KeysOf(rs, GroupOf()) && CountsOf(t.counts, model)[g] > 0)
  }

  ghost predicate AllSeen(t: Seen, rs: seq<Request>, prices: map<string, Pricing>) {
    && (forall g: Group :: RowSeen(t, rs, prices, g))
    && (forall model: string :: ModelSeen(t, rs, model))
    && (forall model: string, g: Group :: PairSeen(t, rs, model, g))
  }

  function WithSeen(t: Seen, r: Request, prices: map<string, Pricing>): Seen {
    var g := GroupOf()(r);
    Seen(t.rows[g := WithRequest(RowAt(t.rows, g), r, prices)],
         t.counts[r.model := CountsOf(t.counts, r.model)[g := CountIn(CountsOf(t.counts, r.model), g) + 1]],
         t.byModel[r.model := NumberOf(t.byModel, r.model) + 1])
  }

  lemma RowSeenNext(t: Seen, rs: seq<Request>, i: nat, prices: map<string, Pricing>, g: Group)
    requires i < |rs| && RowSeen(t, rs[..i], prices, g)
    ensures RowSeen(WithSeen(t, rs[i], prices), rs[..i + 1], prices, g)
  {
    hide GroupOf, In, KeysOf, Measure, Amount;
    KeysSnoc(rs, i, GroupOf());
    var after := WithSeen(t, rs[i], prices);
    forall m: Metric ensures Measure(m, RowAt(after.rows, g)) == In(rs[..i + 1], GroupOf(), g, Amount(m, prices)) {
      InSnoc(rs, i, GroupOf(), g, Amount(m, prices));
      WithRequestMeasures(RowAt(t.rows, g), rs[i], prices, m);
    }
  }

  lemma ModelSeenNext(t: Seen, rs: seq<Request>, i: nat, prices: map<string, Pricing>, model: string)
    requires i < |rs| && ModelSeen(t, rs[..i], model)
    ensures ModelSeen(WithSeen(t, rs[i], prices), rs[..i + 1], model)
  {
    hide GroupOf, All, WithRequest;
    InSnoc(rs, i, GroupOf(), Unattributed, OnModel(model));
  }

  lemma PairSeenNext(t: Seen, rs: seq<Request>, i: nat, prices: map<string, Pricing>, model: string, g: Group)
    requires i < |rs| && PairSeen(t, rs[..i], model, g)
    ensures PairSeen(WithSeen(t, rs[i], prices), rs[..i + 1], model, g)
  {
    KeysSnoc(rs, i, GroupOf());
    InSnoc(rs, i, GroupOf(), g, OnModel(model));
    assert In(rs[..i], GroupOf(), g, OnModel(model)) >= 0.0 by {
      InIsPart(rs[..i], GroupOf(), g, OnModel(model));
    }
    hide GroupOf, In, All, KeysOf, WithRequest;
  }

  lemma AllSeenNext(t: Seen, rs: seq<Request>, i: nat, prices: map<string, Pricing>)
    requires i < |rs| && AllSeen(t, rs[..i], prices)
    ensures AllSeen(WithSeen(t, rs[i], prices), rs[..i + 1], prices)
  {
    hide RowSeen, ModelSeen, PairSeen, WithSeen;
    var after, more := WithSeen(t, rs[i], prices), rs[..i + 1];
    forall g: Group ensures RowSeen(after, more, prices, g) {
      RowSeenNext(t, rs, i, prices, g);
    }
    forall model: string ensures ModelSeen(after, more, model) {
      ModelSeenNext(t, rs, i, prices, model);
    }
    forall model: string, g: Group ensures PairSeen(after, more, model, g) {
      PairSeenNext(t, rs, i, prices, model, g);
    }
  }

  lemma NothingSeen(prices: map<string, Pricing>)
    ensures AllSeen(Seen(map[], map[], map[]), [], prices)
  {
  }

  method TallyAliases(rs: seq<Request>, prices: map<string, Pricing>) returns (t: Seen)
    ensures AllSeen(t, rs, prices)
  {
    var rows: map<Group, AliasRow> := map[];
    var counts: map<string, map<Group, int>> := map[];
    var byModel: map<string, int> := map[];
    NothingSeen(prices);
    assert rs[..0] == [];
    hide AllSeen, GroupOf, WithRequest;
    for i := 0 to |rs|
      invariant AllSeen(Seen(rows, counts, byModel), rs[..i], prices)
    {
      AllSeenNext(Seen(rows, counts, byModel), rs, i, prices);
      var r := rs[i];
      var g := GroupOf()(r);
      rows := rows[g := WithRequest(RowAt(rows, g), r, prices)];
      var onModel := CountsOf(counts, r.model);
      counts := counts[r.model := onModel[g := CountIn(onModel, g) + 1]];
      byModel := byModel[r.model := NumberOf(byModel, r.model) + 1];
    }
    assert rs[..|rs|] == rs;
    t := Seen(rows, counts, byModel);
  }

  // ----- Dividing what models cost -----

  datatype Time = ReadyTime | BillableTime

  function TimeOf(t: Time): CanonicalRow -> real {
    (c: CanonicalRow) => if t.ReadyTime? then c.ready else c.billable
  }

  function TimeFor(t: Time, rs: seq<Request>, g: Group): CanonicalRow -> real {
    (c: CanonicalRow) => Times(Share(rs, c.model, g), TimeOf(t)(c))
  }

  function ReadyFor(rs: seq<Request>, g: Group): CanonicalRow -> real {
    TimeFor(ReadyTime, rs, g)
  }

  function BillableFor(rs: seq<Request>, g: Group): CanonicalRow -> real {
    TimeFor(BillableTime, rs, g)
  }

  function MicroCost(): CanonicalRow -> real {
    (c: CanonicalRow) => c.cost * 1000000.0
  }

  function WithShare(row: AliasRow, c: CanonicalRow, share: real): AliasRow {
    row.(ready := row.ready + Times(share, c.ready), billable := row.billable + Times(share, c.billable))
  }

  function CellFor(c: CanonicalRow, g: Group, share: real): Cell {
    Cell(c.model, KindOf(g), NameOf(g), Times(share, MicroCost()(c)), 0)
  }

  /** The groups a model's costs are divided over, with their counts. */
  function Division(t: Seen, model: string): map<Group, int> {
    if NumberOf(t.byModel, model) == 0 then map[Unattributed := 1] else CountsOf(t.counts, model)
  }

  function CountColumn(counts: map<Group, int>): Group -> real {
    g => CountIn(counts, g) as real
  }

  function Shares(counts: map<Group, int>, denominator: int): Group -> real {
    g => if denominator == 0 then 0.0 else CountIn(counts, g) as real / denominator as real
  }

  method CountAll(counts: map<Group, int>) returns (denominator: int)
    ensures denominator as real == Sum(counts.Keys, CountColumn(counts))
  {
    denominator := 0;
    var todo := counts.Keys;
    assert counts.Keys - todo == {};
    while todo != {}
      invariant todo <= counts.Keys
      invariant denominator as real == Sum(counts.Keys - todo, CountColumn(counts))
    {
      var g :| g in todo;
      SumPut(counts.Keys - todo, CountColumn(counts), g);
      OneFewer(counts.Keys, todo, g);
      todo := todo - {g};
      denominator := denominator + counts[g];
    }
    assert counts.Keys - {} == counts.Keys;
  }

  ghost predicate Whole(counts: map<Group, int>, rs: seq<Request>, model: string) {
    var all := Sum(counts.Keys, CountColumn(counts));
    && all > 0.0
    && (forall g: Group :: CountIn(counts, g) as real / all == Share(rs, model, g))
    && (forall g <- counts :: g in KeysOf(rs, GroupOf()) || (g == Unattributed && All(rs, OnModel(model)) == 0.0))
  }

  lemma UnusedIsWhole(rs: seq<Request>, model: string)
    requires All(rs, OnModel(model)) == 0.0
    ensures Whole(map[Unattributed := 1], rs, model)
  {
    var counts: map<Group, int> := map[Unattributed := 1];
    hide OnModel, GroupOf, All;
    SumPick({Unattributed}, CountColumn(counts), Unattributed);
    assert {Unattributed} - {Unattributed} == {};
    assert counts.Keys == {Unattributed};
  }

  lemma UsedIsWhole(counts: map<Group, int>, rs: seq<Request>, model: string)
    requires All(rs, OnModel(model)) > 0.0
    requires forall g: Group :: CountIn(counts, g) as real == In(rs, GroupOf(), g, OnModel(model))
    requires forall g <- counts :: g in KeysOf(rs, GroupOf())
    ensures Whole(counts, rs, model)
  {
    hide OnModel, GroupOf, All, In, KeysOf;
    var keys := KeysOf(rs, GroupOf());
    Partition(rs, GroupOf(), OnModel(model), keys);
    SumSame(keys, ByKey(rs, GroupOf(), OnModel(model)), CountColumn(counts));
    SumSubset(counts.Keys, keys, CountColumn(counts));
  }

  /** The counts add up to the model's requests, and give the shares. */
  lemma DivisionIsWhole(t: Seen, rs: seq<Request>, prices: map<string, Pricing>, model: string)
    requires AllSeen(t, rs, prices)
    ensures Whole(Division(t, model), rs, model)
  {
    assert ModelSeen(t, rs, model);
    assert forall g: Group :: PairSeen(t, rs, model, g);
    hide AllSeen, GroupOf, Whole;
    if NumberOf(t.byModel, model) == 0 {
      UnusedIsWhole(rs, model);
    } else {
      assert forall r: Request :: OnModel(model)(r) >= 0.0;
      InIsPart(rs, GroupOf(), Unattributed, OnModel(model));
      forall g: Group
        ensures CountIn(CountsOf(t.counts, model), g) as real == In(rs, GroupOf(), g, OnModel(model))
        ensures g in CountsOf(t.counts, model) ==> g in KeysOf(rs, GroupOf())
      {
        assert PairSeen(t, rs, model, g);
      }
      UsedIsWhole(CountsOf(t.counts, model), rs, model);
    }
  }

  ghost predicate RowsGrew(before: map<Group, AliasRow>, after: map<Group, AliasRow>, c: CanonicalRow,
                           share: Group -> real) {
    forall g: Group :: RowAt(after, g) == WithShare(RowAt(before, g), c, share(g))
  }

  function Within(share: Group -> real, groups: set<Group>): Group -> real {
    g => if g in groups then share(g) else 0.0
  }

  function CellGroup(): Cell -> Group {
    (c: Cell) => if c.kind == "unattributed" then Unattributed else Alias(c.name)
  }

  /** The rows, the sum of the cells and their groups after some of a model's groups. */
  ghost predicate PartlyDivided(rows: map<Group, AliasRow>, cells: seq<Cell>, c: CanonicalRow, shares: Group -> real,
                                done: set<Group>,
                                after: map<Group, AliasRow>, more: seq<Cell>) {
    && RowsGrew(rows, after, c, Within(shares, done)) && after.Keys == rows.Keys + done
    && Raw(more) == Raw(cells) + Times(Sum(done, shares), MicroCost()(c))
    && KeysOf(more, CellGroup()) == KeysOf(cells, CellGroup()) + done
  }

  /** What bounds the micros of cells: their floors, and that each gets at most one more. */
  datatype Bound = Floors | Number

  function Value(b: Bound): Cell -> real {
    (c: Cell) => if b.Floors? then c.raw.Floor as real else 1.0
  }

  /** Some of a model's groups have got a cell each. */
  ghost predicate CellsGrew(cells: seq<Cell>, more: seq<Cell>, c: CanonicalRow, shares: Group -> real, done: set<Group>) {
    forall b: Bound, g: Group :: In(more, CellGroup(), g, Value(b)) ==
        In(cells, CellGroup(), g, Value(b)) + if g in done then Value(b)(CellFor(c, g, shares(g))) else 0.0
  }

  lemma OneCellMore(cells: seq<Cell>, was: seq<Cell>, c: CanonicalRow, shares: Group -> real, done: set<Group>, g: Group)
    requires CellsGrew(cells, was, c, shares, done) && g !in done
    ensures CellsGrew(cells, was + [CellFor(c, g, shares(g))], c, shares, done + {g})
  {
    var cell := CellFor(c, g, shares(g));
    assert CellGroup()(cell) == g;
    hide CellFor, CellGroup, Value;
    forall b: Bound, other: Group
      ensures In(was + [cell], CellGroup(), other, Value(b)) ==
          In(was, CellGroup(), other, Value(b)) + if g == other then Value(b)(cell) else 0.0
    {
      assert (was + [cell])[..|was|] == was;
    }
  }

  lemma CellRaw(c: CanonicalRow, g: Group, share: real)
    ensures CellFor(c, g, share).raw == Times(share, MicroCost()(c))
  {
  }

  lemma DivideStep(rows: map<Group, AliasRow>, cells: seq<Cell>, c: CanonicalRow, shares: Group -> real,
                   done: set<Group>,
                   was: map<Group, AliasRow>, wasCells: seq<Cell>, g: Group)
    requires PartlyDivided(rows, cells, c, shares, done, was, wasCells) && g !in done
    ensures PartlyDivided(rows, cells, c, shares, done + {g},
        was[g := WithShare(RowAt(was, g), c, shares(g))], wasCells + [CellFor(c, g, shares(g))])
  {
    CellRaw(c, g, shares(g));
    hide Times, MicroCost, CellGroup, CellFor, KeysOf, RowsGrew, WithShare, Raw, Sum, Within;
    OneShareMore(rows, was, was[g := WithShare(RowAt(was, g), c, shares(g))], c, shares, done, g);
    SumPut(done, shares, g);
    MicrosSnoc(wasCells, CellFor(c, g, shares(g)));
    Distribute(Sum(done, shares), shares(g), MicroCost()(c));
    CellKey(wasCells, c, g, shares(g));
  }

  lemma DivideStart(rows: map<Group, AliasRow>, cells: seq<Cell>, c: CanonicalRow, shares: Group -> real)
    ensures PartlyDivided(rows, cells, c, shares, {}, rows, cells)
  {
  }

  lemma DivideEnd(rows: map<Group, AliasRow>, cells: seq<Cell>, c: CanonicalRow, counts: map<Group, int>,
                  denominator: int,
                  after: map<Group, AliasRow>, more: seq<Cell>)
    requires denominator as real == Sum(counts.Keys, CountColumn(counts)) && denominator > 0
    requires PartlyDivided(rows, cells, c, Shares(counts, denominator), counts.Keys, after, more)
    ensures RowsGrew(rows, after, c, Shares(counts, denominator)) && Raw(more) == Raw(cells) + MicroCost()(c)
  {
    SharesMakeOne(counts, denominator);
    WholeShare(rows, after, c, Shares(counts, denominator), counts);
    TimesOne(MicroCost()(c));
  }

  method DivideModel(rows: map<Group, AliasRow>, cells: seq<Cell>, c: CanonicalRow, counts: map<Group, int>)
    returns (after: map<Group, AliasRow>, more: seq<Cell>, denominator: int)
    requires Sum(counts.Keys, CountColumn(counts)) > 0.0
    ensures denominator as real == Sum(counts.Keys, CountColumn(counts))
    ensures RowsGrew(rows, after, c, Shares(counts, denominator))
    ensures after.Keys == rows.Keys + counts.Keys
    ensures Raw(more) == Raw(cells) + MicroCost()(c)
    ensures KeysOf(more, CellGroup()) == KeysOf(cells, CellGroup()) + counts.Keys
    ensures CellsGrew(cells, more, c, Shares(counts, denominator), counts.Keys)
  {
    denominator := CountAll(counts);
    ghost var shares := Shares(counts, denominator);
    after, more := rows, cells;
    var todo := counts.Keys;
    SharesMakeOne(counts, denominator);
    assert counts.Keys - todo == {};
    DivideStart(rows, cells, c, shares);
    assert CellsGrew(cells, more, c, shares, {});
    hide CellsGrew, WithShare, CellFor, Shares, Sum, RowsGrew, MicroCost, KeysOf, Raw;
    while todo != {}
      invariant todo <= counts.Keys
      invariant PartlyDivided(rows, cells, c, shares, counts.Keys - todo, after, more)
      invariant CellsGrew(cells, more, c, shares, counts.Keys - todo)
    {
      hide PartlyDivided;
      var g :| g in todo;
      OneFewer(counts.Keys, todo, g);
      var share := counts[g] as real / denominator as real;
      ShareIs(counts, denominator, g);
      DivideStep(rows, cells, c, shares, counts.Keys - todo, after, more, g);
      OneCellMore(cells, more, c, shares, counts.Keys - todo, g);
      todo := todo - {g};
      after := after[g := WithShare(RowAt(after, g), c, share)];
      more := more + [CellFor(c, g, share)];
    }
    assert counts.Keys - {} == counts.Keys;
    DivideEnd(rows, cells, c, counts, denominator, after, more);
  }

  lemma TimesOne(a: real)
    ensures Times(1.0, a) == a && Times(0.0, a) == 0.0
  {
  }

  lemma ShareIs(counts: map<Group, int>, denominator: int, g: Group)
    requires denominator != 0 && g in counts
    ensures Shares(counts, denominator)(g) == counts[g] as real / denominator as real
  {
  }

  lemma SharesMakeOne(counts: map<Group, int>, denominator: int)
    requires denominator as real == Sum(counts.Keys, CountColumn(counts)) && denominator > 0
    ensures Sum(counts.Keys, Shares(counts, denominator)) == 1.0
  {
    forall g <- counts.Keys ensures Shares(counts, denominator)(g) == Times(CountColumn(counts)(g), 1.0 / denominator as real) {
    }
    SumScale(counts.Keys, CountColumn(counts), Shares(counts, denominator), 1.0 / denominator as real);
  }

  lemma EmptyShare(shares: Group -> real, c: CanonicalRow, rows: map<Group, AliasRow>)
    ensures RowsGrew(rows, rows, c, Within(shares, {}))
    ensures Times(Sum({}, shares), MicroCost()(c)) == 0.0
  {
  }

  lemma OneShareMore(rows: map<Group, AliasRow>, was: map<Group, AliasRow>, after: map<Group, AliasRow>,
                     c: CanonicalRow,
                     shares: Group -> real, done: set<Group>, g: Group)
    requires RowsGrew(rows, was, c, Within(shares, done)) && g !in done
    requires after == was[g := WithShare(RowAt(was, g), c, shares(g))]
    ensures RowsGrew(rows, after, c, Within(shares, done + {g}))
  {
    TimesOne(c.ready);
    TimesOne(c.billable);
    hide Times;
  }

  lemma WholeShare(rows: map<Group, AliasRow>, after: map<Group, AliasRow>, c: CanonicalRow, shares: Group -> real,
                   counts: map<Group, int>)
    requires RowsGrew(rows, after, c, Within(shares, counts.Keys))
    requires forall g: Group :: g !in counts ==> shares(g) == 0.0
    ensures RowsGrew(rows, after, c, shares)
  {
    hide WithShare;
    forall g: Group ensures Within(shares, counts.Keys)(g) == shares(g) {
    }
  }

  lemma CellKey(cells: seq<Cell>, c: CanonicalRow, g: Group, share: real)
    ensures KeysOf(cells + [CellFor(c, g, share)], CellGroup()) == KeysOf(cells, CellGroup()) + {g}
  {
    var more := cells + [CellFor(c, g, share)];
    KeysSnoc(more, |cells|, CellGroup());
    assert more[..|cells|] == cells && more[..|cells| + 1] == more;
  }

  // ----- All models -----

  ghost predicate DividedCells(t: Seen, rs: seq<Request>, models: seq<CanonicalRow>, rows: map<Group, AliasRow>,
                               cells: seq<Cell>) {
    && Raw(cells) == All(models, MicroCost()) && KeysOf(cells, CellGroup()) <= rows.Keys && t.rows.Keys <= rows.Keys
    && (forall g <- rows :: g in t.rows || g == Unattributed)
    && (forall c <- models :: All(rs, OnModel(c.model)) == 0.0 ==> Unattributed in rows)
  }

  ghost predicate DividedRows(t: Seen, rs: seq<Request>, models: seq<CanonicalRow>, rows: map<Group, AliasRow>) {
    forall g: Group ::
        RowAt(rows, g) == RowAt(t.rows, g).(ready := All(models, ReadyFor(rs, g)), billable := All(models, BillableFor(rs, g)))
  }

  /** The rows and cells after some of the models. */
  ghost predicate Divided(t: Seen, rs: seq<Request>, models: seq<CanonicalRow>, rows: map<Group, AliasRow>,
                          cells: seq<Cell>) {
    DividedCells(t, rs, models, rows, cells) && DividedRows(t, rs, models, rows)
  }

  lemma RowDivided(t: Seen, rs: seq<Request>, models: seq<CanonicalRow>, c: CanonicalRow, row: AliasRow,
                   after: AliasRow, g: Group)
    requires row == RowAt(t.rows, g).(ready := All(models, ReadyFor(rs, g)), billable := All(models, BillableFor(rs, g)))
    requires after == WithShare(row, c, ShareOf(rs, c.model)(g))
    ensures after == RowAt(t.rows, g).(ready := All(models + [c], ReadyFor(rs, g)), billable := All(models + [c], BillableFor(rs, g)))
  {
    assert ReadyFor(rs, g)(c) == Times(ShareOf(rs, c.model)(g), TimeOf(ReadyTime)(c));
    assert BillableFor(rs, g)(c) == Times(ShareOf(rs, c.model)(g), TimeOf(BillableTime)(c));
    hide Times, Share, ReadyFor, BillableFor;
    assert (models + [c])[..|models|] == models;
  }

  lemma UnattributedDivided(t: Seen, rs: seq<Request>, prices: map<string, Pricing>, model: string)
    requires AllSeen(t, rs, prices) && Whole(Division(t, model), rs, model)
    ensures All(rs, OnModel(model)) == 0.0 ==> Unattributed in Division(t, model)
    ensures forall g <- Division(t, model) :: g in t.rows || g == Unattributed
  {
    assert ModelSeen(t, rs, model);
    forall g <- Division(t, model) ensures g in t.rows || g == Unattributed {
      assert RowSeen(t, rs, prices, g);
    }
  }

  lemma ModelDivided(t: Seen, rs: seq<Request>, prices: map<string, Pricing>, models: seq<CanonicalRow>,
                     c: CanonicalRow,
                     rows: map<Group, AliasRow>, cells: seq<Cell>, after: map<Group, AliasRow>, more: seq<Cell>)
    requires AllSeen(t, rs, prices) && Divided(t, rs, models, rows, cells)
    requires Whole(Division(t, c.model), rs, c.model) && after.Keys == rows.Keys + Division(t, c.model).Keys
    requires RowsGrew(rows, after, c, ShareOf(rs, c.model))
    requires Raw(more) == Raw(cells) + MicroCost()(c)
    requires KeysOf(more, CellGroup()) == KeysOf(cells, CellGroup()) + Division(t, c.model).Keys
    ensures Divided(t, rs, models + [c], after, more)
  {
    UnattributedDivided(t, rs, prices, c.model);
    hide *;
    CellsDivided(t, rs, models, c, rows, cells, after, more);
    RowsDivided(t, rs, models, c, rows, after);
    DividedIs(t, rs, models + [c], after, more);
  }

  lemma DividedIs(t: Seen, rs: seq<Request>, models: seq<CanonicalRow>, rows: map<Group, AliasRow>, cells: seq<Cell>)
    ensures Divided(t, rs, models, rows, cells) == (DividedCells(t, rs, models, rows, cells) && DividedRows(t, rs, models, rows))
  {
  }

  lemma CellsDivided(t: Seen, rs: seq<Request>, models: seq<CanonicalRow>, c: CanonicalRow, rows: map<Group, AliasRow>,
                     cells: seq<Cell>, after: map<Group, AliasRow>, more: seq<Cell>)
    requires DividedCells(t, rs, models, rows, cells) && after.Keys == rows.Keys + Division(t, c.model).Keys
    requires Raw(more) == Raw(cells) + MicroCost()(c)
    requires KeysOf(more, CellGroup()) == KeysOf(cells, CellGroup()) + Division(t, c.model).Keys
    requires All(rs, OnModel(c.model)) == 0.0 ==> Unattributed in Division(t, c.model)
    requires forall g <- Division(t, c.model) :: g in t.rows || g == Unattributed
    ensures DividedCells(t, rs, models + [c], after, more)
  {
    assert (models + [c])[..|models|] == models;
    assert All(models + [c], MicroCost()) == All(models, MicroCost()) + MicroCost()(c);
    hide Division, MicroCost, CellGroup, KeysOf, OnModel, All, Raw;
  }

  lemma RowsDivided(t: Seen, rs: seq<Request>, models: seq<CanonicalRow>, c: CanonicalRow, rows: map<Group, AliasRow>,
                    after: map<Group, AliasRow>)
    requires DividedRows(t, rs, models, rows) && RowsGrew(rows, after, c, ShareOf(rs, c.model))
    ensures DividedRows(t, rs, models + [c], after)
  {
    hide WithShare, All, ShareOf, ReadyFor, BillableFor;
    forall g: Group ensures RowAt(after, g) ==
        RowAt(t.rows, g).(ready := All(models + [c], ReadyFor(rs, g)), billable := All(models + [c], BillableFor(rs, g))) {
      RowDivided(t, rs, models, c, RowAt(rows, g), RowAt(after, g), g);
    }
  }

  lemma SharesAreShares(counts: map<Group, int>, rs: seq<Request>, model: string, denominator: int)
    requires Whole(counts, rs, model) && denominator as real == Sum(counts.Keys, CountColumn(counts))
    ensures forall g: Group :: Shares(counts, denominator)(g) == ShareOf(rs, model)(g)
  {
    hide Share, KeysOf, GroupOf, OnModel;
  }

  lemma GrewBySame(rows: map<Group, AliasRow>, after: map<Group, AliasRow>, c: CanonicalRow, a: Group -> real,
                   b: Group -> real)
    requires RowsGrew(rows, after, c, a) && forall g: Group :: a(g) == b(g)
    ensures RowsGrew(rows, after, c, b)
  {
    hide WithShare;
  }

  function ValueFor(b: Bound, rs: seq<Request>, g: Group): CanonicalRow -> real {
    (c: CanonicalRow) => if Share(rs, c.model, g) > 0.0 then Value(b)(CellFor(c, g, Share(rs, c.model, g))) else 0.0
  }

  /** Each group's cells are those of the models it has a share of. */
  ghost predicate CellsSay(rs: seq<Request>, models: seq<CanonicalRow>, cells: seq<Cell>) {
    forall b: Bound, g: Group :: In(cells, CellGroup(), g, Value(b)) == All(models, ValueFor(b, rs, g))
  }

  /** A group is in the division exactly when it has a share. */
  lemma DividedHaveShares(t: Seen, rs: seq<Request>, prices: map<string, Pricing>, model: string)
    requires AllSeen(t, rs, prices) && Whole(Division(t, model), rs, model)
    ensures forall g: Group :: g in Division(t, model) <==> Share(rs, model, g) > 0.0
  {
    hide Share, GroupOf, OnModel, KeysOf, In, All;
    var counts := Division(t, model);
    forall g: Group ensures g in counts <==> Share(rs, model, g) > 0.0 {
      assert PairSeen(t, rs, model, g);
      QuotientIsPositive(CountIn(counts, g), Sum(counts.Keys, CountColumn(counts)));
    }
  }

  lemma QuotientIsPositive(n: int, all: real)
    requires all > 0.0
    ensures n as real / all > 0.0 <==> n > 0
  {
  }

  lemma CellsSayMore(rs: seq<Request>, models: seq<CanonicalRow>, c: CanonicalRow, cells: seq<Cell>, more: seq<Cell>,
                     shares: Group -> real, done: set<Group>)
    requires CellsSay(rs, models, cells) && CellsGrew(cells, more, c, shares, done)
    requires forall g: Group :: shares(g) == Share(rs, c.model, g) && (g in done <==> Share(rs, c.model, g) > 0.0)
    ensures CellsSay(rs, models + [c], more)
  {
    assert (models + [c])[..|models|] == models;
    hide Share, CellGroup, CellFor, In, Value;
    forall b: Bound, g: Group ensures In(more, CellGroup(), g, Value(b)) == All(models + [c], ValueFor(b, rs, g)) {
      assert In(cells, CellGroup(), g, Value(b)) == All(models, ValueFor(b, rs, g));
      assert All(models + [c], ValueFor(b, rs, g)) == All(models, ValueFor(b, rs, g)) + ValueFor(b, rs, g)(c);
    }
  }

  method DivideModels(t: Seen, models: seq<CanonicalRow>, ghost rs: seq<Request>, ghost prices: map<string, Pricing>)
    returns (rows: map<Group, AliasRow>, cells: seq<Cell>)
    requires AllSeen(t, rs, prices)
    ensures Divided(t, rs, models, rows, cells) && CellsSay(rs, models, cells)
  {
    rows, cells := t.rows, [];
    StartDivided(t, rs, prices);
    assert models[..0] == [];
    assert CellsSay(rs, [], []);
    hide CellsSay, CellsGrew, Division, Divided, AllSeen, Whole, RowsGrew, MicroCost, CellGroup, KeysOf, GroupOf, Shares;
    for i := 0 to |models|
      invariant Divided(t, rs, models[..i], rows, cells) && CellsSay(rs, models[..i], cells)
    {
      var c := models[i];
      var counts := Division(t, c.model);
      DivisionIsWhole(t, rs, prices, c.model);
      WholeIsPositive(counts, rs, c.model);
      ghost var was, wasCells := rows, cells;
      var denominator: int;
      rows, cells, denominator := DivideModel(rows, cells, c, counts);
      SharesAreShares(counts, rs, c.model, denominator);
      GrewBySame(was, rows, c, Shares(counts, denominator), ShareOf(rs, c.model));
      ModelDivided(t, rs, prices, models[..i], c, was, wasCells, rows, cells);
      DividedHaveShares(t, rs, prices, c.model);
      CellsSayMore(rs, models[..i], c, wasCells, cells, Shares(counts, denominator), counts.Keys);
      assert models[..i + 1] == models[..i] + [c];
    }
    assert models[..|models|] == models;
  }

  lemma WholeIsPositive(counts: map<Group, int>, rs: seq<Request>, model: string)
    requires Whole(counts, rs, model)
    ensures Sum(counts.Keys, CountColumn(counts)) > 0.0
  {
  }

  lemma StartDivided(t: Seen, rs: seq<Request>, prices: map<string, Pricing>)
    requires AllSeen(t, rs, prices)
    ensures Divided(t, rs, [], t.rows, [])
  {
    forall g: Group ensures RowAt(t.rows, g).ready == 0.0 && RowAt(t.rows, g).billable == 0.0 {
      assert RowSeen(t, rs, prices, g);
    }
    hide AllSeen;
  }

  // ----- The rows -----

  function CellMicros(): Cell -> real {
    (c: Cell) => c.micros as real
  }

  function MicrosColumn(rows: map<Group, AliasRow>): Group -> real {
    g => RowAt(rows, g).micros as real
  }

  /** A row without its cost. */
  ghost predicate RowSays(row: AliasRow, g: Group, models: seq<CanonicalRow>, rs: seq<Request>,
                          prices: map<string, Pricing>) {
    && row.ready == All(models, ReadyFor(rs, g)) && row.billable == All(models, BillableFor(rs, g))
    && forall m: Metric :: Measure(m, row) == In(rs, GroupOf(), g, Amount(m, prices))
  }

  /** Every group has a row, and only groups do. */
  ghost predicate KeysAre(keys: set<Group>, models: seq<CanonicalRow>, rs: seq<Request>) {
    && KeysOf(rs, GroupOf()) <= keys <= KeysOf(rs, GroupOf()) + {Unattributed}
    && (forall c <- models :: All(rs, OnModel(c.model)) == 0.0 ==> Unattributed in keys)
  }

  method CostTarget(models: seq<CanonicalRow>) returns (target: int)
    ensures target == Round(All(models, MicroCost()))
  {
    var total := 0.0;
    for i := 0 to |models|
      invariant All(models[..i], MicroCost()) == total * 1000000.0
    {
      assert models[..i + 1][..i] == models[..i];
      total := total + models[i].cost;
    }
    assert models[..|models|] == models;
    target := Round(total * 1000000.0);
  }

  /** The allocated cells go to the rows of their groups. */
  method AddMicros(rows: map<Group, AliasRow>, cells: array<Cell>) returns (after: map<Group, AliasRow>)
    requires KeysOf(cells[..], CellGroup()) <= rows.Keys && forall g <- rows :: rows[g].micros == 0
    ensures after.Keys == rows.Keys
    ensures forall g <- rows ::
        after[g] == rows[g].(micros := after[g].micros) && after[g].micros as real == In(cells[..], CellGroup(), g, CellMicros())
  {
    after := rows;
    assert cells[..0] == [];
    ghost var all := cells[..];
    for i := 0 to cells.Length
      invariant after.Keys == rows.Keys
      invariant forall g <- rows ::
          after[g] == rows[g].(micros := after[g].micros) && after[g].micros as real == In(all[..i], CellGroup(), g, CellMicros())
    {
      hide In, KeysOf, CellGroup;
      var c := cells[i];
      assert CellGroup()(c) in rows by {
        InKeys(all, i);
      }
      forall g <- rows ensures In(all[..i + 1], CellGroup(), g, CellMicros()) ==
          In(all[..i], CellGroup(), g, CellMicros()) + if CellGroup()(all[i]) == g then CellMicros()(all[i]) else 0.0 {
        InSnoc(all, i, CellGroup(), g, CellMicros());
      }
      var g := CellGroup()(c);
      after := after[g := after[g].(micros := after[g].micros + c.micros)];
    }
    assert all[..cells.Length] == all;
  }

  lemma InKeys(cells: seq<Cell>, i: nat)
    requires i < |cells|
    ensures CellGroup()(cells[i]) in KeysOf(cells, CellGroup())
  {
  }

  lemma {:induction false} MicrosAreAll(cells: seq<Cell>)
    ensures All(cells, CellMicros()) == Micros(cells) as real
    decreases |cells|
  {
    if cells != [] {
      MicrosAreAll(cells[..|cells| - 1]);
    }
  }

  /** Allocating moves and tops up cells, but keeps their groups. */
  lemma AllocatedGroups(cells: seq<Cell>, target: int)
    ensures KeysOf(Allocated(cells, target), CellGroup()) <= KeysOf(cells, CellGroup())
  {
    var after := Allocated(cells, target);
    AllocationKeepsCells(cells, target);
    hide Allocated;
    forall g <- KeysOf(after, CellGroup()) ensures g in KeysOf(cells, CellGroup()) {
      var k :| 0 <= k < |after| && CellGroup()(after[k]) == g;
      assert Floored(after)[k] in multiset(Floored(after));
      assert Floored(after)[k] in Floored(cells);
      var j :| 0 <= j < |cells| && Floored(cells)[j] == Floored(after)[k];
      assert CellGroup()(cells[j]) == g;
    }
  }

  /** The allocated micros are the rounded cost, with or without cells. */
  lemma AllocatedTotal(cells: seq<Cell>)
    ensures Micros(Allocated(cells, Round(Raw(cells)))) == Round(Raw(cells))
  {
    RoundedTargetFits(cells);
    if cells != [] {
      AllocationExact(cells, Round(Raw(cells)));
    }
  }

  /** Allocating gives the cells of each group their floors, and at most one more each. */
  lemma AllocatedWithin(cells: seq<Cell>, g: Group)
    ensures In(cells, CellGroup(), g, Value(Floors))
            <= In(Allocated(cells, Round(Raw(cells))), CellGroup(), g, CellMicros())
            <= In(cells, CellGroup(), g, Value(Floors)) + In(cells, CellGroup(), g, Value(Number))
  {
    var after := Allocated(cells, Round(Raw(cells)));
    AllocationFair(cells);
    AllocationKeepsCells(cells, Round(Raw(cells)));
    hide Allocated, Round, Raw, In, Micros, LargerFractionFirst;
    InWithin(after, CellGroup(), g, Value(Floors), CellMicros(), Value(Number));
    forall b: Bound ensures In(after, CellGroup(), g, Value(b)) == In(cells, CellGroup(), g, Value(b)) {
      InSame(after, Floored(after), CellGroup(), g, Value(b));
      InPermutes(Floored(after), Floored(cells), CellGroup(), g, Value(b));
      InSame(Floored(cells), cells, CellGroup(), g, Value(b));
    }
  }

  /** Between the floors of the group's shares of what models cost, and one micro more for each such model. */
  ghost predicate CostWithin(row: AliasRow, g: Group, models: seq<CanonicalRow>, rs: seq<Request>) {
    All(models, ValueFor(Floors, rs, g)) <= row.micros as real
      <= All(models, ValueFor(Floors, rs, g)) + All(models, ValueFor(Number, rs, g))
  }

  lemma RowsWithin(rows: map<Group, AliasRow>, models: seq<CanonicalRow>, rs: seq<Request>, cells: seq<Cell>)
    requires CellsSay(rs, models, cells)
    requires forall g <- rows :: rows[g].micros as real == In(Allocated(cells, Round(Raw(cells))), CellGroup(), g, CellMicros())
    ensures forall g <- rows :: CostWithin(rows[g], g, models, rs)
  {
    hide Allocated, Round, Raw, In, All;
    forall g <- rows ensures CostWithin(rows[g], g, models, rs) {
      AllocatedWithin(cells, g);
    }
  }

  lemma MicrosByGroup(rows: map<Group, AliasRow>, cells: seq<Cell>)
    requires KeysOf(cells, CellGroup()) <= rows.Keys
    requires forall g <- rows :: rows[g].micros as real == In(cells, CellGroup(), g, CellMicros())
    ensures Sum(rows.Keys, MicrosColumn(rows)) == Micros(cells) as real
  {
    Partition(cells, CellGroup(), CellMicros(), rows.Keys);
    MicrosAreAll(cells);
    hide In, KeysOf, CellGroup;
    SumSame(rows.Keys, MicrosColumn(rows), ByKey(cells, CellGroup(), CellMicros()));
  }

  lemma DividedSays(t: Seen, rs: seq<Request>, prices: map<string, Pricing>, models: seq<CanonicalRow>,
                    rows: map<Group, AliasRow>, cells: seq<Cell>)
    requires AllSeen(t, rs, prices) && Divided(t, rs, models, rows, cells)
    ensures KeysAre(rows.Keys, models, rs)
    ensures forall g <- rows :: rows[g].micros == 0 && RowSays(rows[g], g, models, rs, prices)
  {
    assert forall g: Group :: RowSeen(t, rs, prices, g);
    hide AllSeen, GroupOf, OnModel, KeysOf, ReadyFor, BillableFor, In, All, Amount, CellGroup, MicroCost;
    forall g <- rows ensures rows[g].micros == 0 && RowSays(rows[g], g, models, rs, prices) {
      assert RowSeen(t, rs, prices, g);
      assert rows[g] == RowAt(t.rows, g).(ready := All(models, ReadyFor(rs, g)), billable := All(models, BillableFor(rs, g)));
      assert forall m: Metric :: Measure(m, rows[g]) == Measure(m, RowAt(t.rows, g));
    }
    forall g: Group ensures g in t.rows <==> g in KeysOf(rs, GroupOf()) {
      assert RowSeen(t, rs, prices, g);
    }
  }

  method GroupModelsByAlias(models: seq<CanonicalRow>, rs: seq<Request>,
                            prices: map<string, Pricing>) returns (rows: map<Group, AliasRow>)
    ensures KeysAre(rows.Keys, models, rs) && forall g <- rows :: RowSays(rows[g], g, models, rs, prices)
    ensures Sum(rows.Keys, MicrosColumn(rows)) == Round(All(models, MicroCost())) as real
    ensures forall g <- rows :: CostWithin(rows[g], g, models, rs)
  {
    hide CellsSay, CostWithin, AllSeen, KeysAre, RowSays, DividedRows, Round, MicroCost, CellGroup, KeysOf, Allocated, In, Raw, Micros;
    var t := TallyAliases(rs, prices);
    var divided, cells := DivideModels(t, models, rs, prices);
    var target := CostTarget(models);
    DividedSays(t, rs, prices, models, divided, cells);
    var a := new Cell[|cells|](i requires 0 <= i < |cells| => cells[i]);
    assert a[..] == cells;
    AllocateBillingMicros(a, target);
    AllocatedGroups(cells, target);
    AllocatedTotal(cells);
    rows := AddMicros(divided, a);
    MicrosByGroup(rows, a[..]);
    RowsWithin(rows, models, rs, cells);
    forall g <- rows ensures RowSays(rows[g], g, models, rs, prices) {
      SaysWithout(divided[g], rows[g].micros, g, models, rs, prices);
    }
  }

  lemma SaysWithout(row: AliasRow, micros: int, g: Group, models: seq<CanonicalRow>, rs: seq<Request>,
                    prices: map<string, Pricing>)
    requires RowSays(row, g, models, rs, prices)
    ensures RowSays(row.(micros := micros), g, models, rs, prices)
  {
    hide All, In;
    assert forall m: Metric :: Measure(m, row.(micros := micros)) == Measure(m, row);
  }

  // ----- Nothing is lost -----

  function MeasureColumn(m: Metric, rows: map<Group, AliasRow>): Group -> real {
    g => Measure(m, RowAt(rows, g))
  }

  function TimeColumn(t: Time, rows: map<Group, AliasRow>): Group -> real {
    g => if t.ReadyTime? then RowAt(rows, g).ready else RowAt(rows, g).billable
  }

  lemma ShareIsScaled(rs: seq<Request>, model: string, g: Group)
    requires All(rs, OnModel(model)) > 0.0
    ensures ShareOf(rs, model)(g) == Times(ByKey(rs, GroupOf(), OnModel(model))(g), 1.0 / All(rs, OnModel(model)))
  {
    hide GroupOf, OnModel, In, All;
    Quotient(In(rs, GroupOf(), g, OnModel(model)), All(rs, OnModel(model)));
  }

  lemma UnusedShare(rs: seq<Request>, model: string, g: Group)
    requires All(rs, OnModel(model)) == 0.0
    ensures ShareOf(rs, model)(g) == if g == Unattributed then 1.0 else 0.0
  {
    hide GroupOf, OnModel, In, All;
  }

  lemma SharesAddUp(rs: seq<Request>, model: string, keys: set<Group>)
    requires KeysOf(rs, GroupOf()) <= keys && (All(rs, OnModel(model)) == 0.0 ==> Unattributed in keys)
    ensures Sum(keys, ShareOf(rs, model)) == 1.0
  {
    assert forall r: Request :: OnModel(model)(r) >= 0.0;
    InIsPart(rs, GroupOf(), Unattributed, OnModel(model));
    hide GroupOf, OnModel, In, All, KeysOf, ShareOf, ByKey, Times, Sum;
    var all := All(rs, OnModel(model));
    if all == 0.0 {
      forall g: Group ensures ShareOf(rs, model)(g) == if g == Unattributed then 1.0 else 0.0 {
        UnusedShare(rs, model, g);
      }
      SumPick(keys, ShareOf(rs, model), Unattributed);
      SumSubset({}, keys - {Unattributed}, ShareOf(rs, model));
      SumOfNone(ShareOf(rs, model));
    } else {
      Partition(rs, GroupOf(), OnModel(model), keys);
      forall g <- keys ensures ShareOf(rs, model)(g) == Times(ByKey(rs, GroupOf(), OnModel(model))(g), 1.0 / all) {
        ShareIsScaled(rs, model, g);
      }
      SumScale(keys, ByKey(rs, GroupOf(), OnModel(model)), ShareOf(rs, model), 1.0 / all);
      Quotient(all, all);
    }
  }

  lemma SumOfNone(f: Group -> real)
    ensures Sum({}, f) == 0.0
  {
  }

  lemma Quotient(a: real, b: real)
    requires b != 0.0
    ensures a / b == Times(a, 1.0 / b)
  {
  }

  function TimeByGroup(t: Time, models: seq<CanonicalRow>, rs: seq<Request>): Group -> real {
    g => All(models, TimeFor(t, rs, g))
  }

  lemma ScaledShares(t: Time, rs: seq<Request>, c: CanonicalRow, keys: set<Group>)
    requires Sum(keys, ShareOf(rs, c.model)) == 1.0
    ensures Sum(keys, Scaled(t, rs, c)) == TimeOf(t)(c)
  {
    SumScale(keys, ShareOf(rs, c.model), Scaled(t, rs, c), TimeOf(t)(c));
    TimesOne(TimeOf(t)(c));
  }

  lemma TimeIsScaled(t: Time, rs: seq<Request>, g: Group, c: CanonicalRow)
    ensures TimeFor(t, rs, g)(c) == Scaled(t, rs, c)(g)
  {
    assert ShareOf(rs, c.model)(g) == Share(rs, c.model, g);
  }

  lemma TimeOneMore(t: Time, models: seq<CanonicalRow>, rs: seq<Request>, g: Group)
    requires models != []
    ensures TimeByGroup(t, models, rs)(g) == TimeByGroup(t, models[..|models| - 1], rs)(g) + Scaled(t, rs, models[|models| - 1])(g)
  {
    var front, c := models[..|models| - 1], models[|models| - 1];
    assert All(models, TimeFor(t, rs, g)) == All(front, TimeFor(t, rs, g)) + TimeFor(t, rs, g)(c);
    TimeIsScaled(t, rs, g, c);
  }

  lemma TimeIsAdded(t: Time, models: seq<CanonicalRow>)
    requires models != []
    ensures All(models, TimeOf(t)) == All(models[..|models| - 1], TimeOf(t)) + TimeOf(t)(models[|models| - 1])
  {
  }

  lemma KeysOfFront(models: seq<CanonicalRow>, rs: seq<Request>, keys: set<Group>)
    requires KeysAre(keys, models, rs) && models != []
    ensures KeysAre(keys, models[..|models| - 1], rs)
    ensures KeysOf(rs, GroupOf()) <= keys
    ensures (All(rs, OnModel(models[|models| - 1].model)) == 0.0 ==> Unattributed in keys)
  {
    hide GroupOf, KeysOf, OnModel, All;
    assert models[|models| - 1] in models;
    assert forall x <- models[..|models| - 1] :: x in models;
  }

  lemma NoTime(t: Time, rs: seq<Request>, keys: set<Group>)
    ensures Sum(keys, TimeByGroup(t, [], rs)) == All([], TimeOf(t))
  {
    SumConstant(keys, TimeByGroup(t, [], rs), 0.0);
  }

  lemma {:induction false} TimeAddsUp(t: Time, models: seq<CanonicalRow>, rs: seq<Request>, keys: set<Group>)
    requires KeysAre(keys, models, rs)
    ensures Sum(keys, TimeByGroup(t, models, rs)) == All(models, TimeOf(t))
    decreases |models|
  {
    hide *;
    if models == [] {
      NoTime(t, rs, keys);
    } else {
      var front, c := models[..|models| - 1], models[|models| - 1];
      KeysOfFront(models, rs, keys);
      TimeIsAdded(t, models);
      TimeAddsUp(t, front, rs, keys);
      SharesAddUp(rs, c.model, keys);
      ScaledShares(t, rs, c, keys);
      forall g: Group ensures TimeByGroup(t, models, rs)(g) == TimeByGroup(t, front, rs)(g) + Scaled(t, rs, c)(g) {
        TimeOneMore(t, models, rs, g);
      }
      SumAdd(keys, TimeByGroup(t, front, rs), Scaled(t, rs, c), TimeByGroup(t, models, rs));
    }
  }

  function Scaled(t: Time, rs: seq<Request>, c: CanonicalRow): Group -> real {
    g => Times(ShareOf(rs, c.model)(g), TimeOf(t)(c))
  }

  /** Requests, tokens, used cost, durations, ready and billable time of the alias rows are those of the models. */
  lemma AliasesConserve(rows: map<Group, AliasRow>, models: seq<CanonicalRow>, rs: seq<Request>,
                        prices: map<string, Pricing>)
    requires KeysAre(rows.Keys, models, rs) && forall g <- rows :: RowSays(rows[g], g, models, rs, prices)
    ensures forall m: Metric :: Sum(rows.Keys, MeasureColumn(m, rows)) == All(rs, Amount(m, prices))
    ensures forall t: Time :: Sum(rows.Keys, TimeColumn(t, rows)) == All(models, TimeOf(t))
  {
    hide GroupOf, OnModel, Amount;
    forall m: Metric ensures Sum(rows.Keys, MeasureColumn(m, rows)) == All(rs, Amount(m, prices)) {
      Partition(rs, GroupOf(), Amount(m, prices), rows.Keys);
      SumSame(rows.Keys, MeasureColumn(m, rows), ByKey(rs, GroupOf(), Amount(m, prices)));
    }
    forall t: Time ensures Sum(rows.Keys, TimeColumn(t, rows)) == All(models, TimeOf(t)) {
      TimeAddsUp(t, models, rs, rows.Keys);
      SumSame(rows.Keys, TimeColumn(t, rows), TimeByGroup(t, models, rs));
    }
  }

  // ----- Whose row it is -----

  /** The alias that was asked for, blanks aside, names the group, and a blank one is unattributed. */
  lemma GroupExactly(r: Request, g: Group)
    ensures GroupOf()(r) == g <==>
            if TrimSpace(r.requestedModel) == "" then KindOf(g) == "unattributed"
            else KindOf(g) == "alias" && NameOf(g) == TrimSpace(r.requestedModel)
  {
    hide TrimSpace;
    assert "unattributed"[0] != "alias"[0];
  }

  /** One request more adds what it brought to the row of its alias, and leaves the others alone. */
  lemma RequestAddsToItsRow(t: Seen, u: Seen, rs: seq<Request>, r: Request, prices: map<string, Pricing>, g: Group)
    requires AllSeen(t, rs, prices) && AllSeen(u, rs + [r], prices)
    ensures var row := RowAt(t.rows, g);
            RowAt(u.rows, g) ==
            if GroupOf()(r) != g then row
            else AliasRow(row.requests + 1, row.duration + Duration(r), row.input + r.prompt, row.output + r.completion,
                          row.cached + r.cached, row.total + r.total, row.used + UsedCost(prices, r), 0.0, 0.0, 0)
  {
    assert RowSeen(t, rs, prices, g) && RowSeen(u, rs + [r], prices, g);
    assert (rs + [r])[..|rs|] == rs;
    var was, now := RowAt(t.rows, g), RowAt(u.rows, g);
    hide GroupOf, UsedCost, Duration, KeysOf, AllSeen;
    forall m: Metric ensures Measure(m, now) == Measure(m, was) + if GroupOf()(r) == g then Amount(m, prices)(r) else 0.0 {
    }
    hide In, RowSeen;
    assert Measure(Requests, now) == now.requests as real && Measure(Requests, was) == was.requests as real;
    assert Measure(Durations, now) == now.duration && Measure(Durations, was) == was.duration;
    assert Measure(Inputs, now) == now.input as real && Measure(Inputs, was) == was.input as real;
    assert Measure(Outputs, now) == now.output as real && Measure(Outputs, was) == was.output as real;
    assert Measure(Cacheds, now) == now.cached as real && Measure(Cacheds, was) == was.cached as real;
    assert Measure(Totals, now) == now.total as real && Measure(Totals, was) == was.total as real;
    assert Measure(Useds, now) == now.used && Measure(Useds, was) == was.used;
  }

  /** An alias bears the part of a model's cost that its requests are of the model's requests. */
  lemma ShareExactly(rs: seq<Request>, model: string, g: Group)
    ensures var own, all := |Under(rs, GroupOf(), g, model)|, |Under(rs, ModelOf(), model, model)|;
            Share(rs, model, g) == if all == 0 then (if g == Unattributed then 1.0 else 0.0) else own as real / all as real
  {
    CountedExactly(rs, GroupOf(), g, model);
  }
}
