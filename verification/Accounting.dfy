/** Counts of requests in flight (`internal/gateway/accounting.go`). */
module Accounting {

  import opened Basics

  datatype Record = Record(requestId: string, model: string, tag: string, worker: string)

  /** The three things a request is counted by. */
  datatype Axis = ByModel | ByTag | ByWorker

  function KeyOn(axis: Axis, r: Record): string {
    match axis
    case ByModel => r.model
    case ByTag => r.tag
    case ByWorker => r.worker
  }

  function CountAt(counts: map<string, int>, key: string): int {
    if key in counts then counts[key] else 0
  }

  /** The live requests with a key. */
  function Live(requests: map<nat, Record>, axis: Axis, key: string): set<nat> {
    set k <- requests | KeyOn(axis, requests[k]) == key
  }

  predicate ExactAt(counts: map<string, int>, requests: map<nat, Record>, axis: Axis, key: string) {
    CountAt(counts, key) == |Live(requests, axis, key)| && (key in counts <==> Live(requests, axis, key) != {})
  }

  /** Counted exactly, and keys without requests are not kept. */
  ghost predicate Exact(counts: map<string, int>, requests: map<nat, Record>, axis: Axis) {
    forall key: string :: ExactAt(counts, requests, axis, key)
  }

  function Incremented(counts: map<string, int>, key: string): map<string, int> {
    counts[key := CountAt(counts, key) + 1]
  }

  function Decremented(counts: map<string, int>, key: string): map<string, int> {
    if CountAt(counts, key) <= 1 then counts - {key} else counts[key := counts[key] - 1]
  }

  lemma LiveAdded(requests: map<nat, Record>, axis: Axis, k: nat, r: Record, key: string)
    requires k !in requests
    ensures Live(requests[k := r], axis, key) == if KeyOn(axis, r) == key
        then Live(requests, axis, key) + {k} else Live(requests, axis, key)
    ensures k !in Live(requests, axis, key)
  {
    hide KeyOn;
  }

  lemma LiveRemoved(requests: map<nat, Record>, axis: Axis, k: nat, key: string)
    requires k in requests
    ensures Live(requests - {k}, axis, key) == Live(requests, axis, key) - {k}
    ensures k in Live(requests, axis, key) <==> KeyOn(axis, requests[k]) == key
  {
    hide KeyOn;
  }

  lemma IncrementKeepsExact(counts: map<string, int>, requests: map<nat, Record>, axis: Axis, k: nat, r: Record)
    requires Exact(counts, requests, axis) && k !in requests
    ensures Exact(Incremented(counts, KeyOn(axis, r)), requests[k := r], axis)
  {
    var after := requests[k := r];
    forall key: string ensures ExactAt(Incremented(counts, KeyOn(axis, r)), after, axis, key) {
      assert ExactAt(counts, requests, axis, key);
      LiveAdded(requests, axis, k, r, key);
      hide Live, KeyOn, Exact;
    }
  }

  lemma DecrementKeepsExact(counts: map<string, int>, requests: map<nat, Record>, axis: Axis, k: nat)
    requires Exact(counts, requests, axis) && k in requests
    ensures Exact(Decremented(counts, KeyOn(axis, requests[k])), requests - {k}, axis)
  {
    var after := requests - {k};
    forall key: string ensures ExactAt(Decremented(counts, KeyOn(axis, requests[k])), after, axis, key) {
      assert ExactAt(counts, requests, axis, key);
      LiveRemoved(requests, axis, k, key);
      hide Live, KeyOn, Exact;
    }
  }

  /** The requests among some that carry an id. */
  function WithId(requests: map<nat, Record>, keys: set<nat>, id: string): set<nat> {
    set k | k in keys && k in requests && requests[k].requestId == id
  }

  lemma WithIdAdded(requests: map<nat, Record>, keys: set<nat>, k: nat, id: string)
    requires k in requests && k !in keys
    ensures WithId(requests, keys + {k}, id) == if requests[k].requestId == id
        then WithId(requests, keys, id) + {k} else WithId(requests, keys, id)
    ensures k !in WithId(requests, keys, id)
  {
  }

  class Accounting {
    var nextRequest: nat
    var requests: map<nat, Record>
    var models: map<string, int>
    var tags: map<string, int>
    var workers: map<string, int>

    /** Every count is the number of live requests. */
    ghost predicate Valid()
      reads this
    {
      && (forall k <- requests :: k <= nextRequest)
      && Exact(models, requests, ByModel) && Exact(tags, requests, ByTag) && Exact(workers, requests, ByWorker)
    }

    constructor ()
      ensures Valid() && requests == map[]
    {
      nextRequest, requests, models, tags, workers := 0, map[], map[], map[], map[];
    }

    method Acquire(requestId: string, model: string, tag: string, worker: string) returns (ownershipKey: nat)
      requires Valid()
      modifies this
      ensures Valid() && ownershipKey !in old(requests)
      ensures requests == old(requests)[ownershipKey := Record(requestId, model, tag, worker)]
      ensures models == Incremented(old(models), model) && tags == Incremented(old(tags), tag)
      ensures workers == Incremented(old(workers), worker)
    {
      var record := Record(requestId, model, tag, worker);
      nextRequest := nextRequest + 1;
      ownershipKey := nextRequest;
      IncrementKeepsExact(models, requests, ByModel, ownershipKey, record);
      IncrementKeepsExact(tags, requests, ByTag, ownershipKey, record);
      IncrementKeepsExact(workers, requests, ByWorker, ownershipKey, record);
      requests := requests[ownershipKey := record];
      models := Incremented(models, model);
      tags := Incremented(tags, tag);
      workers := Incremented(workers, worker);
    }

    /** Releasing twice is releasing once. */
    method Release(ownershipKey: nat)
      requires Valid()
      modifies this
      ensures Valid() && requests == old(requests) - {ownershipKey} && nextRequest == old(nextRequest)
      ensures ownershipKey !in old(requests) ==> models == old(models) && tags == old(tags) && workers == old(workers)
    {
      if ownershipKey !in requests {
        return;
      }
      var record := requests[ownershipKey];
      DecrementKeepsExact(models, requests, ByModel, ownershipKey);
      DecrementKeepsExact(tags, requests, ByTag, ownershipKey);
      DecrementKeepsExact(workers, requests, ByWorker, ownershipKey);
      requests := requests - {ownershipKey};
      models := Decremented(models, record.model);
      tags := Decremented(tags, record.tag);
      workers := Decremented(workers, record.worker);
    }

    /** How many live requests carry each id. */
    method CountIds() returns (idCounts: map<string, int>)
      ensures Counts(requests, idCounts)
    {
      idCounts := map[];
      var todo := requests.Keys;
      assert requests.Keys - todo == {};
      while todo != {}
        invariant todo <= requests.Keys
        invariant forall id: string :: CountAt(idCounts, id) == |WithId(requests, requests.Keys - todo, id)|
      {
        var k :| k in todo;
        OneFewer(requests.Keys, todo, k);
        forall id: string {
          WithIdAdded(requests, requests.Keys - todo, k, id);
        }
        hide WithId;
        todo := todo - {k};
        idCounts := Incremented(idCounts, requests[k].requestId);
      }
      assert requests.Keys - {} == requests.Keys;
    }

    /**
     Every live request once, under a key of its own. The key is the request's id where that is
     one request's alone, unless somebody sends ids that look like the made-up keys.
     */
    method RequestSnapshot() returns (out: map<string, Record>, ghost names: map<nat, string>)
      ensures |out| == |requests| && out.Values == requests.Values
      ensures Named(out, requests, requests.Keys, names)
      ensures NoMadeUpIds(requests) ==> forall k <- requests ::
          names[k] == if OwnId(requests, k) then requests[k].requestId else MadeUp(k)
    {
      var idCounts := CountIds();
      if NoMadeUpIds(requests) {
        KeysDiffer(requests, idCounts);
      }
      forall k <- requests ensures KeyFor(requests, idCounts, k) == if OwnId(requests, k) then requests[k].requestId else MadeUp(k) {
        CountedAlone(requests, idCounts, k);
      }
      out, names := KeyedApart(requests, idCounts);
      AllRecords(requests);
    }
  }

  method KeyedApart(requests: map<nat, Record>, idCounts: map<string, int>)
    returns (out: map<string, Record>, ghost names: map<nat, string>)
    ensures Keyed(out, requests, requests.Keys, idCounts, names)
  {
    out, names := map[], map[];
    var todo := requests.Keys;
    assert requests.Keys - todo == {};
    EmptySnapshot(requests);
    assert Keyed(out, requests, {}, idCounts, names);
    hide *;
    while todo != {}
      invariant todo <= requests.Keys && Keyed(out, requests, requests.Keys - todo, idCounts, names)
    {
      var k :| k in todo;
      var base := KeyFor(requests, idCounts, k);
      var key := FreeKey(out, base);
      KeyedOneMore(out, requests, requests.Keys - todo, idCounts, names, k, key);
      OneFewer(requests.Keys, todo, k);
      out, names := out[key := requests[k]], names[k := key];
      todo := todo - {k};
    }
    assert requests.Keys - {} == requests.Keys;
  }

  ghost predicate Keyed(out: map<string, Record>, requests: map<nat, Record>, keys: set<nat>, idCounts: map<string, int>,
                        names: map<nat, string>) {
    Shows(out, requests, keys) && Named(out, requests, keys, names)
        && (KeysApart(requests, idCounts) ==> Kept(requests, idCounts, names))
  }

  lemma KeyedOneMore(out: map<string, Record>, requests: map<nat, Record>, keys: set<nat>, idCounts: map<string, int>,
                     names: map<nat, string>, k: nat, key: string)
    requires Keyed(out, requests, keys, idCounts, names) && k in requests && k !in keys && key !in out
    requires KeyFor(requests, idCounts, k) !in out ==> key == KeyFor(requests, idCounts, k)
    ensures Keyed(out[key := requests[k]], requests, keys + {k}, idCounts, names[k := key])
  {
    hide KeyFor, Shows, Named, KeysApart, Kept;
    ShowsOneMore(out, requests, keys, k, key);
    NamedOneMore(out, requests, keys, names, k, key);
    if KeysApart(requests, idCounts) {
      KeptOneMore(out, requests, keys, idCounts, names, k);
    }
  }

  /** Each of the requests under a name of its own, and nothing else. */
  ghost predicate Named(out: map<string, Record>, requests: map<nat, Record>, keys: set<nat>, names: map<nat, string>) {
    && names.Keys == keys && keys <= requests.Keys
    && (forall k <- keys :: names[k] in out && out[names[k]] == requests[k])
    && (forall j <- keys, k <- keys :: names[j] == names[k] ==> j == k)
    && (forall name <- out :: exists k <- keys :: names[k] == name)
  }

  lemma NamedOneMore(out: map<string, Record>, requests: map<nat, Record>, keys: set<nat>, names: map<nat, string>,
                     k: nat, key: string)
    requires Named(out, requests, keys, names) && k in requests && k !in keys && key !in out
    ensures Named(out[key := requests[k]], requests, keys + {k}, names[k := key])
  {
    var after, now := out[key := requests[k]], names[k := key];
    forall name <- after ensures exists j <- keys + {k} :: now[j] == name {
      if name == key {
        assert now[k] == name;
      } else {
        var j :| j in keys && names[j] == name;
        assert now[j] == name;
      }
    }
  }

  /** The id tells the request from every other one. */
  predicate OwnId(requests: map<nat, Record>, k: nat)
    requires k in requests
  {
    requests[k].requestId != "" && forall j <- requests :: requests[j].requestId == requests[k].requestId ==> j == k
  }

  const MADE_UP := "__acquire:"

  function MadeUp(k: nat): string {
    MADE_UP + Decimal(k)
  }

  predicate NoMadeUpIds(requests: map<nat, Record>) {
    forall k <- requests :: !(MADE_UP <= requests[k].requestId)
  }

  ghost predicate Counts(requests: map<nat, Record>, idCounts: map<string, int>) {
    forall id: string :: CountAt(idCounts, id) == |WithId(requests, requests.Keys, id)|
  }

  lemma CountedAlone(requests: map<nat, Record>, idCounts: map<string, int>, k: nat)
    requires Counts(requests, idCounts) && k in requests
    ensures KeyFor(requests, idCounts, k) == if OwnId(requests, k) then requests[k].requestId else MadeUp(k)
  {
    var id := requests[k].requestId;
    var same := WithId(requests, requests.Keys, id);
    assert k in same;
    if j :| j in requests && requests[j].requestId == id && j != k {
      assert {j, k} <= same;
      AtLeast({j, k}, same);
    } else {
      assert same == {k};
    }
  }

  lemma {:induction false} AtLeast(a: set<nat>, b: set<nat>)
    requires a <= b
    ensures |a| <= |b|
  {
    if a != {} {
      var x :| x in a;
      AtLeast(a - {x}, b - {x});
    }
  }

  /** No two requests want the same key. */
  ghost predicate KeysApart(requests: map<nat, Record>, idCounts: map<string, int>) {
    forall j <- requests, k <- requests :: KeyFor(requests, idCounts, j) == KeyFor(requests, idCounts, k) ==> j == k
  }

  ghost predicate Kept(requests: map<nat, Record>, idCounts: map<string, int>, names: map<nat, string>) {
    forall k <- names :: k in requests && names[k] == KeyFor(requests, idCounts, k)
  }

  lemma KeptOneMore(out: map<string, Record>, requests: map<nat, Record>, keys: set<nat>, idCounts: map<string, int>,
                    names: map<nat, string>, k: nat)
    requires Named(out, requests, keys, names) && k in requests && k !in keys
    requires KeysApart(requests, idCounts) && Kept(requests, idCounts, names)
    ensures KeyFor(requests, idCounts, k) !in out && Kept(requests, idCounts, names[k := KeyFor(requests, idCounts, k)])
  {
    hide KeyFor;
  }

  lemma KeysDiffer(requests: map<nat, Record>, idCounts: map<string, int>)
    requires Counts(requests, idCounts) && NoMadeUpIds(requests)
    ensures KeysApart(requests, idCounts)
  {
    forall j <- requests, k <- requests | KeyFor(requests, idCounts, j) == KeyFor(requests, idCounts, k) ensures j == k {
      CountedAlone(requests, idCounts, j);
      CountedAlone(requests, idCounts, k);
      assert MADE_UP <= MadeUp(j) && MADE_UP <= MadeUp(k);
      if MadeUp(j) == MadeUp(k) {
        assert MadeUp(j)[|MADE_UP|..] == Decimal(j) && MadeUp(k)[|MADE_UP|..] == Decimal(k);
        DecimalIsInjective(j, k);
      }
    }
  }

  /** The request's id, unless it is empty or shared. */
  function KeyFor(requests: map<nat, Record>, idCounts: map<string, int>, k: nat): string
    requires k in requests
  {
    var key := requests[k].requestId;
    if key == "" || CountAt(idCounts, key) > 1 then MadeUp(k) else key
  }

  /** The requests with the given keys, each under a key of its own. */
  predicate Shows(out: map<string, Record>, requests: map<nat, Record>, keys: set<nat>) {
    |out| == |keys| && out.Values == Records(requests, keys)
  }

  lemma EmptySnapshot(requests: map<nat, Record>)
    ensures Shows(map[], requests, {})
  {
  }

  lemma ShowsOneMore(out: map<string, Record>, requests: map<nat, Record>, keys: set<nat>, k: nat, key: string)
    requires Shows(out, requests, keys) && k in requests && k !in keys && key !in out
    ensures Shows(out[key := requests[k]], requests, keys + {k})
  {
    AddedOnce(out, key, requests[k]);
    RecordsAdded(requests, keys, k);
  }

  function Records(requests: map<nat, Record>, keys: set<nat>): set<Record> {
    set k | k in keys && k in requests :: requests[k]
  }

  lemma RecordsAdded(requests: map<nat, Record>, keys: set<nat>, k: nat)
    requires k in requests
    ensures Records(requests, keys + {k}) == Records(requests, keys) + {requests[k]}
  {
  }

  lemma AllRecords(requests: map<nat, Record>)
    ensures Records(requests, requests.Keys) == requests.Values && |requests.Keys| == |requests|
  {
  }

  lemma AddedOnce(out: map<string, Record>, key: string, record: Record)
    requires key !in out
    ensures |out[key := record]| == |out| + 1 && out[key := record].Values == out.Values + {record}
  {
    assert out[key := record].Keys == out.Keys + {key};
    forall r <- out.Values ensures r in out[key := record].Values {
      var k :| k in out && out[k] == r;
      assert out[key := record][k] == r;
    }
    assert out[key := record][key] == record;
  }

  /** The key itself, or the first free one of key:2, key:3 and so on. */
  method FreeKey(out: map<string, Record>, base: string) returns (key: string)
    ensures key !in out && (base !in out ==> key == base)
    ensures key == base || exists n: nat :: n >= 2 && key == Suffixed(base, n)
  {
    key := base;
    var suffix := 2;
    ghost var tried: set<string> := {};
    SuffixesDiffer(base);
    hide Suffixed;
    while key in out
      invariant suffix >= 2 && tried <= out.Keys && key !in tried && (suffix > 2 ==> base in out)
      invariant key == base || exists n: nat :: n >= 2 && key == Suffixed(base, n)
      invariant key == (if suffix == 2 then base else Suffixed(base, suffix - 1))
      invariant forall n: nat :: n >= suffix ==> Suffixed(base, n) !in tried
      decreases |out.Keys - tried|
    {
      assert out.Keys - (tried + {key}) == out.Keys - tried - {key};
      tried := tried + {key};
      key := Suffixed(base, suffix);
      suffix := suffix + 1;
    }
  }

  // ----- Numbers as text -----

  const DIGITS := "0123456789"

  function Decimal(n: nat): string {
    if n < 10 then [DIGITS[n]] else Decimal(n / 10) + [DIGITS[n % 10]]
  }

  function Suffixed(base: string, n: nat): string {
    base + ":" + Decimal(n)
  }

  lemma DecimalLength(n: nat)
    ensures Decimal(n) != "" && (|Decimal(n)| == 1 <==> n < 10)
  {
    if n >= 10 {
      DecimalLength(n / 10);
    }
  }

  lemma {:induction false} DecimalIsInjective(m: nat, n: nat)
    requires Decimal(m) == Decimal(n)
    ensures m == n
    decreases m
  {
    DecimalLength(m);
    DecimalLength(n);
    var a, b := Decimal(m), Decimal(n);
    assert a[|a| - 1] == DIGITS[m % 10] && b[|b| - 1] == DIGITS[n % 10];
    assert m % 10 == n % 10;
    if m >= 10 {
      assert a[..|a| - 1] == Decimal(m / 10) && b[..|b| - 1] == Decimal(n / 10);
      DecimalIsInjective(m / 10, n / 10);
    }
  }

  /** Different suffixes give different keys, none of them the base. */
  lemma SuffixesDiffer(base: string)
    ensures forall m: nat, n: nat :: m != n ==> Suffixed(base, m) != Suffixed(base, n)
    ensures forall m: nat :: Suffixed(base, m) != base
  {
    forall m: nat, n: nat | m != n ensures Suffixed(base, m) != Suffixed(base, n) {
      if Suffixed(base, m) == Suffixed(base, n) {
        assert Suffixed(base, m)[|base| + 1..] == Decimal(m) && Suffixed(base, n)[|base| + 1..] == Decimal(n);
        DecimalIsInjective(m, n);
      }
    }
    forall m: nat ensures Suffixed(base, m) != base {
      assert |Suffixed(base, m)| > |base|;
    }
  }

  /** The live requests fix the counts: however they came about, taking one back restores them. */
  lemma ExactIsUnique(a: map<string, int>, b: map<string, int>, requests: map<nat, Record>, axis: Axis)
    requires Exact(a, requests, axis) && Exact(b, requests, axis)
    ensures a == b
  {
    forall key: string ensures key in a <==> key in b {
      assert ExactAt(a, requests, axis, key) && ExactAt(b, requests, axis, key);
    }
    forall key <- a ensures a[key] == b[key] {
      assert ExactAt(a, requests, axis, key) && ExactAt(b, requests, axis, key);
    }
  }

  /** Acquiring and releasing leaves every count as it was. */
  method AcquireAndRelease(a: Accounting, requestId: string, model: string, tag: string, worker: string)
    requires a.Valid()
    modifies a
    ensures a.Valid() && a.requests == old(a.requests) && a.models == old(a.models) && a.tags == old(a.tags)
    ensures a.workers == old(a.workers)
  {
    ghost var models, tags, workers := a.models, a.tags, a.workers;
    ghost var before := a.requests;
    var k := a.Acquire(requestId, model, tag, worker);
    a.Release(k);
    assert a.requests == before;
    ExactIsUnique(a.models, models, before, ByModel);
    ExactIsUnique(a.tags, tags, before, ByTag);
    ExactIsUnique(a.workers, workers, before, ByWorker);
  }
}
