/**
 What applications are charged: the use of their requests, and a proportional part of what
 a model cost beyond its use (`buildBillingSummary` and `allocateAppIdleCosts` in
 `internal/gateway/billing.go`).

 The source first groups the requests by model, which only changes the order of additions.
 */
module BillingApps {

  import opened Basics
  import opened Sums
  import opened Tallies

  datatype Usage = Usage(requests: int, duration: real)

  datatype AppRow = AppRow(used: real, idle: real)

  const UNATTRIBUTED := "_unattributed"

  function AppOf(): Request -> string {
    (r: Request) => var app := TrimSpace(r.appId); if app == "" then UNATTRIBUTED else app
  }

  function DurationOn(model: string): Request -> real {
    (r: Request) => if r.model == model then Duration(r) else 0.0
  }

  function UsedOn(prices: map<string, Pricing>, model: string): Request -> real {
    (r: Request) => if r.model == model then UsedCost(prices, r) else 0.0
  }

  // ----- The rule -----

  function CostOf(costs: map<string, real>, model: string): real {
    if model in costs then costs[model] else 0.0
  }

  /** By time if the model's requests took any, else by number. */
  function Basis(rs: seq<Request>, model: string): Request -> real {
    if All(rs, DurationOn(model)) > 0.0 then DurationOn(model) else OnModel(model)
  }

  /** What a model cost beyond its use. */
  function Idle(costs: map<string, real>, prices: map<string, Pricing>, rs: seq<Request>, model: string): real {
    var idle := CostOf(costs, model) - All(rs, UsedOn(prices, model));
    if idle <= 0.0 then 0.0 else idle
  }

  function IdlePart(idle: real, basis: real, total: real): real {
    if total <= 0.0 then 0.0 else idle * basis / total
  }

  /** What an application is charged of a model's idle cost. */
  function IdleOf(costs: map<string, real>, prices: map<string, Pricing>, rs: seq<Request>): (string, string) -> real {
    (app, model) => IdlePart(Idle(costs, prices, rs, model), In(rs, AppOf(), app, Basis(rs, model)), All(rs, Basis(rs, model)))
  }

  // ----- The loops -----

  function AppAt(apps: map<string, AppRow>, app: string): AppRow {
    if app in apps then apps[app] else AppRow(0.0, 0.0)
  }

  function UsageAt(usage: map<string, Usage>, key: string): Usage {
    if key in usage then usage[key] else Usage(0, 0.0)
  }

  function PairAt(usage: map<string, map<string, Usage>>, model: string, app: string): Usage {
    if model in usage then UsageAt(usage[model], app) else Usage(0, 0.0)
  }

  function RealAt(m: map<string, real>, key: string): real {
    if key in m then m[key] else 0.0
  }

  /** The four tables after the requests. */
  datatype Tables = Tables(
    apps: map<string, AppRow>, usage: map<string, map<string, Usage>>, totals: map<string, Usage>, used: map<string, real>)

  predicate AppTallied(t: Tables, rs: seq<Request>, prices: map<string, Pricing>, app: string) {
    && (app in t.apps <==> app in KeysOf(rs, AppOf()))
    && AppAt(t.apps, app) == AppRow(In(rs, AppOf(), app, Used(prices)), 0.0)
  }

  predicate ModelTallied(t: Tables, rs: seq<Request>, prices: map<string, Pricing>, model: string) {
    && (model in t.usage <==> model in KeysOf(rs, ModelOf()))
    && RealAt(t.used, model) == All(rs, UsedOn(prices, model))
    && UsageAt(t.totals, model).requests as real == All(rs, OnModel(model))
    && UsageAt(t.totals, model).duration == All(rs, DurationOn(model))
  }

  predicate PairTallied(t: Tables, rs: seq<Request>, model: string, app: string) {
    && PairAt(t.usage, model, app).requests as real == In(rs, AppOf(), app, OnModel(model))
    && PairAt(t.usage, model, app).duration == In(rs, AppOf(), app, DurationOn(model))
    && (model in t.usage && app in t.usage[model] ==> app in KeysOf(rs, AppOf()))
  }

  ghost predicate Tallied(t: Tables, rs: seq<Request>, prices: map<string, Pricing>) {
    && (forall app: string :: AppTallied(t, rs, prices, app))
    && (forall model: string :: ModelTallied(t, rs, prices, model))
    && (forall model: string, app: string :: PairTallied(t, rs, model, app))
  }

  function Count(u: Usage, r: Request): Usage {
    Usage(u.requests + 1, u.duration + Duration(r))
  }

  /** The tables after one more request. */
  function Counted(t: Tables, r: Request, prices: map<string, Pricing>): Tables {
    var app := AppOf()(r);
    var byApp := if r.model in t.usage then t.usage[r.model] else map[];
    Tables(t.apps[app := AppAt(t.apps, app).(used := AppAt(t.apps, app).used + UsedCost(prices, r))],
           t.usage[r.model := byApp[app := Count(UsageAt(byApp, app), r)]],
           t.totals[r.model := Count(UsageAt(t.totals, r.model), r)],
           t.used[r.model := RealAt(t.used, r.model) + UsedCost(prices, r)])
  }

  lemma AppCounted(t: Tables, rs: seq<Request>, i: nat, prices: map<string, Pricing>, app: string)
    requires i < |rs| && AppTallied(t, rs[..i], prices, app)
    ensures AppTallied(Counted(t, rs[i], prices), rs[..i + 1], prices, app)
  {
    hide AppOf, UsedCost, All, In, KeysOf, Count;
    KeysSnoc(rs, i, AppOf());
    InSnoc(rs, i, AppOf(), app, Used(prices));
  }

  lemma ModelCounted(t: Tables, rs: seq<Request>, i: nat, prices: map<string, Pricing>, model: string)
    requires i < |rs| && ModelTallied(t, rs[..i], prices, model)
    ensures ModelTallied(Counted(t, rs[i], prices), rs[..i + 1], prices, model)
  {
    hide AppOf, UsedCost, Duration, All, In, KeysOf;
    KeysSnoc(rs, i, ModelOf());
    InSnoc(rs, i, AppOf(), "", UsedOn(prices, model));
    InSnoc(rs, i, AppOf(), "", OnModel(model));
    InSnoc(rs, i, AppOf(), "", DurationOn(model));
  }

  lemma PairCounted(t: Tables, rs: seq<Request>, i: nat, prices: map<string, Pricing>, model: string, app: string)
    requires i < |rs| && PairTallied(t, rs[..i], model, app)
    ensures PairTallied(Counted(t, rs[i], prices), rs[..i + 1], model, app)
  {
    hide AppOf, UsedCost, Duration, All, In, KeysOf;
    KeysSnoc(rs, i, AppOf());
    InSnoc(rs, i, AppOf(), app, OnModel(model));
    InSnoc(rs, i, AppOf(), app, DurationOn(model));
  }

  lemma CountedTallies(t: Tables, rs: seq<Request>, i: nat, prices: map<string, Pricing>)
    requires i < |rs| && Tallied(t, rs[..i], prices)
    ensures Tallied(Counted(t, rs[i], prices), rs[..i + 1], prices)
  {
    hide AppTallied, ModelTallied, PairTallied, Counted;
    var after, more := Counted(t, rs[i], prices), rs[..i + 1];
    forall app: string ensures AppTallied(after, more, prices, app) {
      AppCounted(t, rs, i, prices, app);
    }
    forall model: string ensures ModelTallied(after, more, prices, model) {
      ModelCounted(t, rs, i, prices, model);
    }
    forall model: string, app: string ensures PairTallied(after, more, model, app) {
      PairCounted(t, rs, i, prices, model, app);
    }
  }

  lemma NothingTallied(prices: map<string, Pricing>)
    ensures Tallied(Tables(map[], map[], map[], map[]), [], prices)
  {
  }

  method TallyRequests(rs: seq<Request>, prices: map<string, Pricing>) returns (t: Tables)
    ensures Tallied(t, rs, prices)
  {
    var apps: map<string, AppRow> := map[];
    var usage: map<string, map<string, Usage>> := map[];
    var totals: map<string, Usage> := map[];
    var used: map<string, real> := map[];
    NothingTallied(prices);
    assert rs[..0] == [];
    hide Tallied, UsedCost, AppOf, Count;
    for i := 0 to |rs|
      invariant Tallied(Tables(apps, usage, totals, used), rs[..i], prices)
    {
      CountedTallies(Tables(apps, usage, totals, used), rs, i, prices);
      var r := rs[i];
      var app, cost := AppOf()(r), UsedCost(prices, r);
      totals := totals[r.model := Count(UsageAt(totals, r.model), r)];
      used := used[r.model := RealAt(used, r.model) + cost];
      var byApp := if r.model in usage then usage[r.model] else map[];
      usage := usage[r.model := byApp[app := Count(UsageAt(byApp, app), r)]];
      var row := AppAt(apps, app);
      apps := apps[app := row.(used := row.used + cost)];
    }
    assert rs[..|rs|] == rs;
    t := Tables(apps, usage, totals, used);
  }

  // ----- Idle cost -----

  /** What one model's users get of its idle cost, from the tables. */
  function PartAt(idle: real, total: Usage, u: Usage): real {
    var byTime := total.duration > 0.0;
    var basis := if byTime then u.duration else u.requests as real;
    if basis <= 0.0 then 0.0 else IdlePart(idle, basis, if byTime then total.duration else total.requests as real)
  }

  ghost predicate IdleGrew(before: map<string, AppRow>, after: map<string, AppRow>, part: string -> real) {
    before.Keys == after.Keys &&
    forall app: string ::
        AppAt(after, app).used == AppAt(before, app).used && AppAt(after, app).idle == AppAt(before, app).idle + part(app)
  }

  function PartsOf(idle: real, total: Usage, byApp: map<string, Usage>, apps: set<string>): string -> real {
    app => if app in apps && app in byApp then PartAt(idle, total, byApp[app]) else 0.0
  }

  method ShareIdle(apps: map<string, AppRow>, idle: real, total: Usage,
                   byApp: map<string, Usage>) returns (after: map<string, AppRow>)
    requires idle > 0.0 && byApp.Keys <= apps.Keys && total.requests > 0
    ensures IdleGrew(apps, after, PartsOf(idle, total, byApp, byApp.Keys))
  {
    hide IdlePart;
    var useDuration := total.duration > 0.0;
    var totalBasis := if useDuration then total.duration else total.requests as real;
    after := apps;
    var todo := byApp.Keys;
    while todo != {}
      invariant todo <= byApp.Keys
      invariant IdleGrew(apps, after, PartsOf(idle, total, byApp, byApp.Keys - todo))
    {
      var app :| app in todo;
      todo := todo - {app};
      var basis := if useDuration then byApp[app].duration else byApp[app].requests as real;
      if basis <= 0.0 {
        continue;
      }
      after := after[app := after[app].(idle := after[app].idle + IdlePart(idle, basis, totalBasis))];
    }
    assert byApp.Keys - {} == byApp.Keys;
  }

  /** The idle charges of an application, from a set of models. */
  ghost function IdleFrom(costs: map<string, real>, prices: map<string, Pricing>, rs: seq<Request>,
                          models: set<string>): string -> real {
    app => Sum(models, Left(IdleOf(costs, prices, rs), app))
  }

  lemma OnModelCounts(rs: seq<Request>, model: string)
    requires model in KeysOf(rs, ModelOf())
    ensures All(rs, OnModel(model)) >= 1.0
    decreases |rs|
  {
    var front, last := rs[..|rs| - 1], rs[|rs| - 1];
    if last.model == model {
      InIsPart(front, ModelOf(), model, OnModel(model));
    } else {
      var i :| 0 <= i < |rs| && ModelOf()(rs[i]) == model;
      assert front[i] == rs[i];
      OnModelCounts(front, model);
    }
  }

  /** The tables give exactly the rule's charge. */
  lemma PartIsIdleOf(t: Tables, rs: seq<Request>, costs: map<string, real>, prices: map<string, Pricing>, model: string,
                     app: string)
    requires ModelTallied(t, rs, prices, model) && PairTallied(t, rs, model, app) && model in t.usage
    ensures var idle := CostOf(costs, model) - RealAt(t.used, model);
            IdleOf(costs, prices, rs)(app, model) ==
            if idle <= 0.0 then 0.0 else PartsOf(idle, UsageAt(t.totals, model), t.usage[model], t.usage[model].Keys)(app)
  {
    hide AppOf, All, In, KeysOf, OnModel, DurationOn;
    OnModelCounts(rs, model);
    assert forall r: Request :: OnModel(model)(r) >= 0.0 && DurationOn(model)(r) >= 0.0 by {
      AmountsAreNotNegative(model);
    }
    InIsPart(rs, AppOf(), app, OnModel(model));
    InIsPart(rs, AppOf(), app, DurationOn(model));
    assert IdlePart(0.0, In(rs, AppOf(), app, Basis(rs, model)), All(rs, Basis(rs, model))) == 0.0;
    var idle := CostOf(costs, model) - RealAt(t.used, model);
    assert IdlePart(idle, 0.0, All(rs, Basis(rs, model))) == 0.0;
  }

  lemma AmountsAreNotNegative(model: string)
    ensures forall r: Request :: OnModel(model)(r) >= 0.0 && DurationOn(model)(r) >= 0.0
  {
  }

  lemma ReadyToShare(t: Tables, rs: seq<Request>, prices: map<string, Pricing>, model: string)
    requires Tallied(t, rs, prices) && model in t.usage
    ensures t.usage[model].Keys <= t.apps.Keys && UsageAt(t.totals, model).requests > 0
  {
    hide AppOf, All, In, KeysOf;
    forall app <- t.usage[model] ensures app in t.apps {
      assert PairTallied(t, rs, model, app) && AppTallied(t, rs, prices, app);
    }
    assert ModelTallied(t, rs, prices, model);
    OnModelCounts(rs, model);
  }

  lemma StartOfIdle(apps: map<string, AppRow>, costs: map<string, real>, prices: map<string, Pricing>, rs: seq<Request>)
    ensures IdleGrew(apps, apps, IdleFrom(costs, prices, rs, {}))
  {
  }

  lemma EndOfIdle(t: Tables, rs: seq<Request>, costs: map<string, real>, prices: map<string, Pricing>,
                  apps: map<string, AppRow>, app: string)
    requires Tallied(t, rs, prices) && IdleGrew(t.apps, apps, IdleFrom(costs, prices, rs, t.usage.Keys))
    ensures AppAt(apps, app).used == In(rs, AppOf(), app, Used(prices))
    ensures AppAt(apps, app).idle == IdleFrom(costs, prices, rs, KeysOf(rs, ModelOf()))(app)
    ensures app in apps <==> app in KeysOf(rs, AppOf())
  {
    hide AppOf, All, In, KeysOf, IdleFrom;
    assert AppTallied(t, rs, prices, app);
    forall model: string ensures model in t.usage.Keys <==> model in KeysOf(rs, ModelOf()) {
      assert ModelTallied(t, rs, prices, model);
    }
    assert t.usage.Keys == KeysOf(rs, ModelOf());
  }

  /** Every application's use and idle charges, for any requests and model costs. */
  method ChargeApps(costs: map<string, real>, prices: map<string, Pricing>,
                    rs: seq<Request>) returns (apps: map<string, AppRow>)
    ensures apps.Keys == KeysOf(rs, AppOf())
    ensures forall app: string ::
              && AppAt(apps, app).used == In(rs, AppOf(), app, Used(prices))
              && AppAt(apps, app).idle == IdleFrom(costs, prices, rs, KeysOf(rs, ModelOf()))(app)
  {
    hide Tallied, IdleFrom, PartsOf, AppOf, In, KeysOf;
    var t := TallyRequests(rs, prices);
    apps := t.apps;
    StartOfIdle(apps, costs, prices, rs);
    var todo := t.usage.Keys;
    assert t.usage.Keys - todo == {};
    while todo != {}
      invariant todo <= t.usage.Keys
      invariant IdleGrew(t.apps, apps, IdleFrom(costs, prices, rs, t.usage.Keys - todo))
    {
      var model :| model in todo;
      ghost var done, before := t.usage.Keys - todo, apps;
      todo := todo - {model};
      assert t.usage.Keys - todo == done + {model};
      var idle := CostOf(costs, model) - RealAt(t.used, model);
      ReadyToShare(t, rs, prices, model);
      if idle > 0.0 {
        apps := ShareIdle(apps, idle, UsageAt(t.totals, model), t.usage[model]);
      }
      ModelShared(t, rs, costs, prices, done, model, before, apps);
    }
    assert t.usage.Keys - {} == t.usage.Keys;
    forall app: string
      ensures AppAt(apps, app).used == In(rs, AppOf(), app, Used(prices))
      ensures AppAt(apps, app).idle == IdleFrom(costs, prices, rs, KeysOf(rs, ModelOf()))(app)
      ensures app in apps.Keys <==> app in KeysOf(rs, AppOf())
    {
      EndOfIdle(t, rs, costs, prices, apps, app);
    }
  }

  lemma ModelShared(t: Tables, rs: seq<Request>, costs: map<string, real>, prices: map<string, Pricing>,
                    done: set<string>, model: string,
                    before: map<string, AppRow>, after: map<string, AppRow>)
    requires Tallied(t, rs, prices) && model in t.usage && model !in done
    requires IdleGrew(t.apps, before, IdleFrom(costs, prices, rs, done))
    requires var idle := CostOf(costs, model) - RealAt(t.used, model);
             if idle <= 0.0 then after == before
             else IdleGrew(before, after, PartsOf(idle, UsageAt(t.totals, model), t.usage[model], t.usage[model].Keys))
    ensures IdleGrew(t.apps, after, IdleFrom(costs, prices, rs, done + {model}))
  {
    hide PartsOf, IdleOf, ModelTallied, PairTallied, AppTallied;
    forall app: string ensures IdleFrom(costs, prices, rs, done + {model})(app) ==
        IdleFrom(costs, prices, rs, done)(app) + IdleOf(costs, prices, rs)(app, model) {
      SumPut(done, Left(IdleOf(costs, prices, rs), app), model);
    }
    forall app: string {
      PartIsIdleOf(t, rs, costs, prices, model, app);
    }
  }

  // ----- Conservation -----

  function Larger(a: real, b: real): real {
    if a >= b then a else b
  }

  /** What a model with requests costs its users: its own cost, or its use where that is more. */
  function Charged(costs: map<string, real>, prices: map<string, Pricing>, rs: seq<Request>): string -> real {
    model => Larger(CostOf(costs, model), All(rs, UsedOn(prices, model)))
  }

  ghost function AppCharges(costs: map<string, real>, prices: map<string, Pricing>, rs: seq<Request>): string -> real {
    app => In(rs, AppOf(), app, Used(prices)) + IdleFrom(costs, prices, rs, KeysOf(rs, ModelOf()))(app)
  }

  lemma {:induction false} UsedByModel(rs: seq<Request>, prices: map<string, Pricing>, model: string)
    ensures ByKey(rs, ModelOf(), Used(prices))(model) == All(rs, UsedOn(prices, model))
    decreases |rs|
  {
    if rs != [] {
      UsedByModel(rs[..|rs| - 1], prices, model);
    }
  }

  /** The parts of one model's idle cost add up to it, whichever basis it is shared by. */
  lemma PartsAddUp(costs: map<string, real>, prices: map<string, Pricing>, rs: seq<Request>, model: string)
    requires model in KeysOf(rs, ModelOf())
    ensures Sum(KeysOf(rs, AppOf()), Right(IdleOf(costs, prices, rs), model)) == Idle(costs, prices, rs, model)
  {
    var idle, total := Idle(costs, prices, rs, model), All(rs, Basis(rs, model));
    OnModelCounts(rs, model);
    assert total > 0.0;
    hide Idle, Basis, All, AppOf, OnModel, DurationOn;
    var apps, bases := KeysOf(rs, AppOf()), ByKey(rs, AppOf(), Basis(rs, model));
    Partition(rs, AppOf(), Basis(rs, model), apps);
    forall app <- apps ensures Right(IdleOf(costs, prices, rs), model)(app) == Times(bases(app), idle / total) {
      PartIsScaled(idle, bases(app), total);
    }
    SumScale(apps, bases, Right(IdleOf(costs, prices, rs), model), idle / total);
    PartIsScaled(idle, total, total);
  }

  lemma PartIsScaled(idle: real, basis: real, total: real)
    requires total > 0.0
    ensures IdlePart(idle, basis, total) == Times(basis, idle / total)
    ensures Times(total, idle / total) == idle
  {
  }

  /**
   Before rounding, what all applications are charged is the sum over the models with requests
   of the model's cost or its use, whichever is more.
   */
  lemma ChargesConserved(costs: map<string, real>, prices: map<string, Pricing>, rs: seq<Request>)
    ensures Sum(KeysOf(rs, AppOf()), AppCharges(costs, prices, rs)) == Sum(KeysOf(rs, ModelOf()), Charged(costs, prices, rs))
  {
    hide AppOf, KeysOf, IdleOf;
    var apps, models, g := KeysOf(rs, AppOf()), KeysOf(rs, ModelOf()), IdleOf(costs, prices, rs);
    var used, idle := ByKey(rs, AppOf(), Used(prices)), IdleFrom(costs, prices, rs, models);
    SumAdd(apps, used, idle, AppCharges(costs, prices, rs));
    Partition(rs, AppOf(), Used(prices), apps);
    Partition(rs, ModelOf(), Used(prices), models);
    SwapSums(apps, models, g);
    SumSame(apps, idle, SumAlong(models, g));
    var usedByModel := ByKey(rs, ModelOf(), Used(prices));
    forall model <- models ensures Charged(costs, prices, rs)(model) == usedByModel(model) + SumAcross(apps, g)(model) {
      PartsAddUp(costs, prices, rs, model);
      UsedByModel(rs, prices, model);
    }
    SumAdd(models, usedByModel, SumAcross(apps, g), Charged(costs, prices, rs));
  }

  // ----- Which basis -----

  lemma {:induction false} TimedExactly(rs: seq<Request>, model: string)
    ensures All(rs, DurationOn(model)) >= 0.0
    ensures All(rs, DurationOn(model)) > 0.0 <==> exists k :: 0 <= k < |rs| && rs[k].model == model && rs[k].durationMs > 0
    decreases |rs|
  {
    if rs != [] {
      var n := |rs| - 1;
      TimedExactly(rs[..n], model);
      assert DurationOn(model)(rs[n]) > 0.0 <==> rs[n].model == model && rs[n].durationMs > 0;
      assert forall k :: 0 <= k < n ==> rs[..n][k] == rs[k];
    }
  }

  /** Idle cost is shared by time exactly when some request of the model took time, and else by number. */
  lemma BasisExactly(rs: seq<Request>, model: string, r: Request)
    ensures Basis(rs, model)(r) ==
            if r.model != model then 0.0
            else if exists k :: 0 <= k < |rs| && rs[k].model == model && rs[k].durationMs > 0 then Duration(r)
            else 1.0
  {
    TimedExactly(rs, model);
  }

  /** So of two applications the one with more of it pays more, in proportion. */
  lemma IdleInProportion(costs: map<string, real>, prices: map<string, Pricing>, rs: seq<Request>, model: string, a: string,
                         b: string)
    requires All(rs, Basis(rs, model)) > 0.0
    ensures IdleOf(costs, prices, rs)(a, model) * In(rs, AppOf(), b, Basis(rs, model)) ==
            IdleOf(costs, prices, rs)(b, model) * In(rs, AppOf(), a, Basis(rs, model))
  {
    hide Basis, AppOf, In, All, Idle;
    Proportional(Idle(costs, prices, rs, model), In(rs, AppOf(), a, Basis(rs, model)), In(rs, AppOf(), b, Basis(rs, model)),
        All(rs, Basis(rs, model)));
  }

  lemma Proportional(idle: real, a: real, b: real, total: real)
    requires total > 0.0
    ensures IdlePart(idle, a, total) * b == IdlePart(idle, b, total) * a
  {
    assert idle * a / total * b == idle * a * b / total;
    assert idle * b / total * a == idle * a * b / total;
  }

  // ----- Whose request it is -----

  /** A request is charged to the application it names, blanks aside, and to nobody in particular if it names none. */
  lemma RequestCharged(rs: seq<Request>, r: Request, prices: map<string, Pricing>, app: string)
    ensures In(rs + [r], AppOf(), app, Used(prices)) == In(rs, AppOf(), app, Used(prices)) +
            if (TrimSpace(r.appId) != "" && app == TrimSpace(r.appId)) || (TrimSpace(r.appId) == "" && app == "_unattributed")
            then UsedCost(prices, r) else 0.0
  {
    assert (rs + [r])[..|rs|] == rs;
    hide TrimSpace, UsedCost;
  }

  /** Untimed requests pay the idle cost by their number: an application with `n` of all a model's requests gets `n` parts. */
  lemma IdleByNumber(costs: map<string, real>, prices: map<string, Pricing>, rs: seq<Request>, model: string, app: string)
    requires model in KeysOf(rs, ModelOf()) && forall r <- rs :: r.model == model ==> r.durationMs <= 0
    ensures var own, all := |Under(rs, AppOf(), app, model)|, |Under(rs, ModelOf(), model, model)|;
            all > 0 && IdleOf(costs, prices, rs)(app, model) == IdlePart(Idle(costs, prices, rs, model), own as real, all as real)
  {
    assert Basis(rs, model) == OnModel(model) by {
      TimedExactly(rs, model);
    }
    hide *;
    OnModelCounts(rs, model);
    CountedExactly(rs, AppOf(), app, model);
    IdleOfIs(costs, prices, rs, model, app);
  }

  lemma IdleOfIs(costs: map<string, real>, prices: map<string, Pricing>, rs: seq<Request>, model: string, app: string)
    ensures IdleOf(costs, prices, rs)(app, model) ==
            IdlePart(Idle(costs, prices, rs, model), In(rs, AppOf(), app, Basis(rs, model)), All(rs, Basis(rs, model)))
  {
  }

  /** The part of a whole that is to it as the basis to the total. */
  lemma IdlePartExactly(idle: real, basis: real, total: real, part: real)
    requires total > 0.0
    ensures part == IdlePart(idle, basis, total) <==> part * total == idle * basis
  {
  }
}
