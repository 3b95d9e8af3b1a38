/** Requests added up as a whole and by a key, and the request fields billing reads. */
module Tallies {

  import opened Basics
  import opened Sums

  function All<R>(rs: seq<R>, v: R -> real): real {
    if rs == [] then 0.0 else All(rs[..|rs| - 1], v) + v(rs[|rs| - 1])
  }

  /** Over the entries with one key only. */
  function In<R, K(==)>(rs: seq<R>, key: R -> K, k: K, v: R -> real): real {
    if rs == [] then 0.0
    else In(rs[..|rs| - 1], key, k, v) + if key(rs[|rs| - 1]) == k then v(rs[|rs| - 1]) else 0.0
  }

  function ByKey<R, K(==)>(rs: seq<R>, key: R -> K, v: R -> real): K -> real {
    k => In(rs, key, k, v)
  }

  function KeysOf<R, K(==)>(rs: seq<R>, key: R -> K): set<K> {
    set i | 0 <= i < |rs| :: key(rs[i])
  }

  /** Adding up by key and then over the keys loses nothing. */
  lemma {:induction false} Partition<R, K(!new)>(rs: seq<R>, key: R -> K, v: R -> real, keys: set<K>)
    requires KeysOf(rs, key) <= keys
    ensures Sum(keys, ByKey(rs, key, v)) == All(rs, v)
    decreases |rs|
  {
    if rs == [] {
      SumConstant(keys, ByKey(rs, key, v), 0.0);
    } else {
      var front, last := rs[..|rs| - 1], rs[|rs| - 1];
      forall k <- KeysOf(front, key) ensures k in KeysOf(rs, key) {
        var i :| 0 <= i < |front| && key(front[i]) == k;
        assert rs[i] == front[i];
      }
      Partition(front, key, v, keys);
      assert key(rs[|rs| - 1]) in KeysOf(rs, key);
      var k := key(last);
      SumPick(keys, ByKey(rs, key, v), k);
      SumPick(keys, ByKey(front, key, v), k);
      SumSame(keys - {k}, ByKey(rs, key, v), ByKey(front, key, v));
    }
  }

  /** Only keys that occur have a sum, and amounts that are not negative do not cancel. */
  lemma {:induction false} InIsPart<R, K>(rs: seq<R>, key: R -> K, k: K, v: R -> real)
    requires forall r :: v(r) >= 0.0
    ensures 0.0 <= In(rs, key, k, v) <= All(rs, v)
    decreases |rs|
  {
    if rs != [] {
      InIsPart(rs[..|rs| - 1], key, k, v);
    }
  }

  lemma InSnoc<R, K>(rs: seq<R>, i: nat, key: R -> K, k: K, v: R -> real)
    requires i < |rs|
    ensures In(rs[..i + 1], key, k, v) == In(rs[..i], key, k, v) + if key(rs[i]) == k then v(rs[i]) else 0.0
    ensures All(rs[..i + 1], v) == All(rs[..i], v) + v(rs[i])
  {
    assert rs[..i + 1][..i] == rs[..i];
  }

  lemma KeysSnoc<R, K>(rs: seq<R>, i: nat, key: R -> K)
    requires i < |rs|
    ensures KeysOf(rs[..i + 1], key) == KeysOf(rs[..i], key) + {key(rs[i])}
  {
    forall k <- KeysOf(rs[..i], key) ensures k in KeysOf(rs[..i + 1], key) {
      var j :| 0 <= j < i && key(rs[..i][j]) == k;
      assert rs[..i + 1][j] == rs[..i][j];
    }
    assert rs[..i + 1][i] == rs[i];
    forall k <- KeysOf(rs[..i + 1], key) ensures k in KeysOf(rs[..i], key) + {key(rs[i])} {
      var j :| 0 <= j < i + 1 && key(rs[..i + 1][j]) == k;
      assert j < i ==> rs[..i][j] == rs[..i + 1][j];
    }
  }

  lemma {:induction false} InSame<R, K>(a: seq<R>, b: seq<R>, key: R -> K, k: K, v: R -> real)
    requires |a| == |b| && forall i :: 0 <= i < |a| ==> key(a[i]) == key(b[i]) && v(a[i]) == v(b[i])
    ensures In(a, key, k, v) == In(b, key, k, v)
    decreases |a|
  {
    if a != [] {
      InSame(a[..|a| - 1], b[..|a| - 1], key, k, v);
    }
  }

  lemma {:induction false} InRemove<R, K>(rs: seq<R>, i: nat, key: R -> K, k: K, v: R -> real)
    requires i < |rs|
    ensures In(rs, key, k, v) == In(rs[..i] + rs[i + 1..], key, k, v) + if key(rs[i]) == k then v(rs[i]) else 0.0
    decreases |rs|
  {
    var n := |rs| - 1;
    var rest := rs[..i] + rs[i + 1..];
    if i == n {
      assert rest == rs[..n];
    } else {
      InRemove(rs[..n], i, key, k, v);
      assert rest[..n - 1] == rs[..n][..i] + rs[..n][i + 1..] && rest[n - 1] == rs[n];
    }
  }

  lemma WithoutOne<R>(rs: seq<R>, i: nat)
    requires i < |rs|
    ensures multiset(rs[..i] + rs[i + 1..]) == multiset(rs) - multiset{rs[i]}
  {
    assert rs == rs[..i] + [rs[i]] + rs[i + 1..];
  }

  /** The order of the entries does not matter. */
  lemma {:induction false} InPermutes<R, K>(a: seq<R>, b: seq<R>, key: R -> K, k: K, v: R -> real)
    requires multiset(a) == multiset(b)
    ensures In(a, key, k, v) == In(b, key, k, v)
    decreases |a|
  {
    if a == [] {
      assert |multiset(b)| == 0;
    } else {
      var n := |a| - 1;
      assert a[n] in multiset(b);
      var i: nat :| i < |b| && b[i] == a[n];
      WithoutOne(a, n);
      WithoutOne(b, i);
      assert a[..n] + a[n + 1..] == a[..n];
      InRemove(b, i, key, k, v);
      InPermutes(a[..n], b[..i] + b[i + 1..], key, k, v);
    }
  }

  lemma {:induction false} InWithin<R, K>(rs: seq<R>, key: R -> K, k: K, low: R -> real, v: R -> real, more: R -> real)
    requires forall i :: 0 <= i < |rs| ==> low(rs[i]) <= v(rs[i]) <= low(rs[i]) + more(rs[i])
    ensures In(rs, key, k, low) <= In(rs, key, k, v) <= In(rs, key, k, low) + In(rs, key, k, more)
    decreases |rs|
  {
    if rs != [] {
      InWithin(rs[..|rs| - 1], key, k, low, v, more);
    }
  }

  // ----- Requests -----

  datatype Pricing = Pricing(perRequest: real, input: real, output: real, cached: real)

  /** `frozen` is the cost of a request that was priced before. */
  datatype Request = Request(
    model: string, requestedModel: string, appId: string, durationMs: int,
    prompt: int, completion: int, cached: int, total: int, frozen: Option<real>)

  /** A price for a request goes before prices for tokens; cached input is not charged twice. */
  function ConfiguredCost(p: Pricing, r: Request): real {
    if p.perRequest > 0.0 then p.perRequest
    else
      var uncached := if r.prompt > r.cached then r.prompt - r.cached else 0;
      uncached as real * p.input / 1000000.0 + r.completion as real * p.output / 1000000.0 + r.cached as real * p.cached / 1000000.0
  }

  function UsedCost(prices: map<string, Pricing>, r: Request): real {
    if r.frozen.Some? then r.frozen.value
    else ConfiguredCost(if r.model in prices then prices[r.model] else Pricing(0.0, 0.0, 0.0, 0.0), r)
  }

  function Duration(r: Request): real {
    if r.durationMs <= 0 then 0.0 else r.durationMs as real / 1000.0
  }

  function ModelOf(): Request -> string {
    (r: Request) => r.model
  }

  /** One for each request on the model. */
  function OnModel(model: string): Request -> real {
    (r: Request) => if r.model == model then 1.0 else 0.0
  }

  function Used(prices: map<string, Pricing>): Request -> real {
    r => UsedCost(prices, r)
  }

  // ----- What prices mean -----

  /** A price for a request is what it costs, whatever it reads and writes. */
  lemma PerRequestWins(p: Pricing, r: Request)
    requires p.perRequest > 0.0
    ensures ConfiguredCost(p, r) == p.perRequest
  {
  }

  /** Without one the tokens of two requests cost what the two cost. */
  lemma TokensAdd(p: Pricing, a: Request, b: Request, both: Request)
    requires p.perRequest <= 0.0 && 0 <= a.cached <= a.prompt && 0 <= b.cached <= b.prompt
    requires both.prompt == a.prompt + b.prompt && both.cached == a.cached + b.cached && both.completion == a.completion + b.completion
    ensures ConfiguredCost(p, both) == ConfiguredCost(p, a) + ConfiguredCost(p, b)
  {
    Linear((a.prompt - a.cached) as real, (b.prompt - b.cached) as real, p.input);
    Linear(a.completion as real, b.completion as real, p.output);
    Linear(a.cached as real, b.cached as real, p.cached);
  }

  lemma Linear(a: real, b: real, price: real)
    ensures (a + b) * price / 1000000.0 == a * price / 1000000.0 + b * price / 1000000.0
  {
  }

  /** A cached token is charged at its own price instead of the price of input; one of output costs its price. */
  lemma TokenPrices(p: Pricing, r: Request)
    requires p.perRequest <= 0.0 && 0 <= r.cached < r.prompt
    ensures ConfiguredCost(p, r.(cached := r.cached + 1)) == ConfiguredCost(p, r) + (p.cached - p.input) / 1000000.0
    ensures ConfiguredCost(p, r.(prompt := r.prompt + 1)) == ConfiguredCost(p, r) + p.input / 1000000.0
    ensures ConfiguredCost(p, r.(completion := r.completion + 1)) == ConfiguredCost(p, r) + p.output / 1000000.0
    ensures r.completion == 0 && r.cached == 0 ==> ConfiguredCost(p, r.(prompt := 0)) == 0.0
  {
    Linear((r.prompt - r.cached - 1) as real, 1.0, p.input);
    Linear((r.prompt - r.cached) as real, 1.0, p.input);
    Linear(r.cached as real, 1.0, p.cached);
    Linear(r.completion as real, 1.0, p.output);
  }

  /** A request that was priced before keeps its price; one of a model without prices costs nothing. */
  lemma UsedCostExactly(prices: map<string, Pricing>, r: Request)
    ensures r.frozen.Some? ==> UsedCost(prices, r) == r.frozen.value
    ensures r.frozen.None? && r.model in prices ==> UsedCost(prices, r) == ConfiguredCost(prices[r.model], r)
    ensures r.frozen.None? && r.model !in prices ==> UsedCost(prices, r) == 0.0
  {
  }

  // ----- Numbers of requests -----

  /** The places of the requests on a model under a key. */
  function Under<K(==)>(rs: seq<Request>, key: Request -> K, k: K, model: string): set<nat> {
    set i: nat | i < |rs| && rs[i].model == model && key(rs[i]) == k
  }

  lemma UnderSnoc<K>(rs: seq<Request>, key: Request -> K, k: K, model: string)
    requires rs != []
    ensures var n := |rs| - 1;
            |Under(rs, key, k, model)| == |Under(rs[..n], key, k, model)| + if rs[n].model == model && key(rs[n]) == k then 1 else 0
  {
    var n := |rs| - 1;
    assert Under(rs, key, k, model) ==
           Under(rs[..n], key, k, model) + if rs[n].model == model && key(rs[n]) == k then {n} else {};
  }

  lemma {:induction false} CountedIn<K>(rs: seq<Request>, key: Request -> K, k: K, model: string)
    ensures In(rs, key, k, OnModel(model)) == |Under(rs, key, k, model)| as real
    decreases |rs|
  {
    if rs == [] {
      assert Under(rs, key, k, model) == {};
    } else {
      CountedIn(rs[..|rs| - 1], key, k, model);
      UnderSnoc(rs, key, k, model);
      hide Under;
    }
  }

  lemma {:induction false} AllOfModel(rs: seq<Request>, model: string)
    ensures All(rs, OnModel(model)) == In(rs, ModelOf(), model, OnModel(model))
    decreases |rs|
  {
    if rs != [] {
      AllOfModel(rs[..|rs| - 1], model);
    }
  }

  /** Sums of ones count requests. */
  lemma CountedExactly<K>(rs: seq<Request>, key: Request -> K, k: K, model: string)
    ensures In(rs, key, k, OnModel(model)) == |Under(rs, key, k, model)| as real
    ensures All(rs, OnModel(model)) == |Under(rs, ModelOf(), model, model)| as real
  {
    CountedIn(rs, key, k, model);
    CountedIn(rs, ModelOf(), model, model);
    AllOfModel(rs, model);
  }
}
