/**
 The gateway's worker registry (`internal/gateway/workers.go`): heartbeats, restart locks,
 drains, admission and pruning.

 `WorkerRegistry` is the class; `Registry` is its value, and each method is proved against
 a function on that value. Times are integer ticks (milliseconds).
 */
module WorkerRegistries {

  import opened Basics

  const GLOBAL_SCOPE := "*"
  const OFFLINE_RETENTION := 600000
  const BACKOFF := 30000
  const BACKOFF_THRESHOLD := 3

  datatype Worker = Worker(
    url: string, needsRestart: bool, lastHeartbeat: int, draining: bool,
    scrapeFailures: int, backoffUntil: int)

  datatype Heartbeat = Heartbeat(agentId: string, url: string, needsRestart: bool, restartModels: seq<string>)

  datatype Response = Response(draining: bool, restartAllowed: bool)

  datatype Registry = Registry(
    workers: map<string, Worker>, order: seq<string>, active: map<string, int>,
    drains: set<string>, holders: map<string, string>)

  function ActiveOf(active: map<string, int>, id: string): int {
    if id in active then active[id] else 0
  }

  // ----- Restart scopes -----

  function Names(models: seq<string>): set<string> {
    set m | m in models && !Blank(m) :: TrimSpace(m)
  }

  /** The scopes a heartbeat asks for: its trimmed non-empty model names, or the global scope. */
  function Scopes(models: seq<string>): set<string> {
    if Names(models) == {} then {GLOBAL_SCOPE} else Names(models)
  }

  lemma NamesSnoc(models: seq<string>, m: string)
    ensures Names(models + [m]) == Names(models) + if Blank(m) then {} else {TrimSpace(m)}
  {
    forall x | x in models + [m] ensures x in models || x == m {
    }
    assert forall x <- models :: x in models + [m];
    assert m in models + [m];
  }

  function Elements(s: seq<string>): set<string> {
    set x | x in s
  }

  lemma ClaimOne(holders: map<string, string>, id: string, scopes: set<string>, s: string)
    ensures var h := Claimed(holders, id, scopes);
            Claimed(holders, id, scopes + {s}) == if s in h then h else h[s := id]
  {
  }

  function Blocked(holders: map<string, string>, id: string, scopes: set<string>): bool {
    || (GLOBAL_SCOPE in holders && holders[GLOBAL_SCOPE] != id)
    || (if scopes == {GLOBAL_SCOPE} then exists s <- holders :: holders[s] != id
        else exists s <- scopes :: s in holders && holders[s] != id)
  }

  function Claimed(holders: map<string, string>, id: string, scopes: set<string>): map<string, string> {
    holders + map s | s in scopes - holders.Keys :: id
  }

  function Unexpired(holders: map<string, string>, workers: map<string, Worker>, now: int): map<string, string> {
    map s | s in holders && holders[s] in workers && now - workers[holders[s]].lastHeartbeat <= OFFLINE_RETENTION :: holders[s]
  }

  function WithoutHolder(holders: map<string, string>, id: string): map<string, string> {
    map s | s in holders && holders[s] != id :: holders[s]
  }

  // ----- What each call does to the registry -----

  function NewWorker(workers: map<string, Worker>, hb: Heartbeat, now: int): Worker {
    if hb.agentId in workers then
      Worker(hb.url, hb.needsRestart, now, false, workers[hb.agentId].scrapeFailures, workers[hb.agentId].backoffUntil)
    else Worker(hb.url, hb.needsRestart, now, false, 0, 0)
  }

  function HoldersFor(r: Registry, hb: Heartbeat, now: int): map<string, string> {
    var live := Unexpired(r.holders, r.workers, now);
    if hb.needsRestart then live else WithoutHolder(live, hb.agentId)
  }

  /** The reporting worker is recorded as active and the holders are brought up to date. */
  function Arrived(r: Registry, hb: Heartbeat, now: int): Registry {
    r.(workers := r.workers[hb.agentId := NewWorker(r.workers, hb, now)],
       order := if hb.agentId in r.workers then r.order else r.order + [hb.agentId],
       holders := HoldersFor(r, hb, now))
  }

  predicate Grants(holders: map<string, string>, hb: Heartbeat) {
    hb.needsRestart && !Blocked(holders, hb.agentId, Scopes(hb.restartModels))
  }

  /** The restart decision; a granted or manually drained worker starts draining. */
  function Decided(r: Registry, hb: Heartbeat): (Registry, Response)
    requires hb.agentId in r.workers
  {
    var granted := Grants(r.holders, hb);
    var draining := granted || hb.agentId in r.drains;
    (r.(holders := if granted then Claimed(r.holders, hb.agentId, Scopes(hb.restartModels)) else r.holders,
        workers := if draining then r.workers[hb.agentId := r.workers[hb.agentId].(draining := true)] else r.workers),
     Response(draining, granted && ActiveOf(r.active, hb.agentId) == 0))
  }

  function AfterHeartbeat(r: Registry, hb: Heartbeat, now: int): (Registry, Response) {
    Decided(Arrived(r, hb, now), hb)
  }

  function AfterDrain(r: Registry, id: string): Registry {
    if id !in r.workers then r
    else r.(workers := r.workers[id := r.workers[id].(draining := true)], drains := r.drains + {id})
  }

  function AfterUndrain(r: Registry, id: string): Registry {
    if id !in r.workers then r
    else r.(workers := if r.workers[id].needsRestart then r.workers else r.workers[id := r.workers[id].(draining := false)],
            drains := r.drains - {id})
  }

  function Offline(r: Registry, now: int): set<string> {
    set id <- r.workers | now - r.workers[id].lastHeartbeat > OFFLINE_RETENTION
  }

  function OrderWithin(order: seq<string>, ids: set<string>): seq<string> {
    if order == [] then []
    else (if order[0] in ids then [order[0]] else []) + OrderWithin(order[1..], ids)
  }

  function AfterPrune(r: Registry, now: int): Registry {
    var gone := Offline(r, now);
    if gone == {} then r
    else Registry(r.workers - gone, OrderWithin(r.order, r.workers.Keys - gone), r.active - gone, r.drains - gone,
                  HeldByOthers(r.holders, gone))
  }

  function HeldByOthers(holders: map<string, string>, gone: set<string>): map<string, string> {
    map s | s in holders && holders[s] !in gone :: holders[s]
  }

  lemma OneMoreGone(r: Registry, gone: set<string>, id: string)
    ensures r.workers - gone - {id} == r.workers - (gone + {id}) && r.active - gone - {id} == r.active - (gone + {id})
    ensures r.drains - gone - {id} == r.drains - (gone + {id})
    ensures WithoutHolder(HeldByOthers(r.holders, gone), id) == HeldByOthers(r.holders, gone + {id})
  {
  }

  predicate Admits(r: Registry, staleAfter: int, id: string, now: int) {
    && id in r.workers
    && now - r.workers[id].lastHeartbeat < staleAfter
    && now >= r.workers[id].backoffUntil
    && !r.workers[id].draining
  }

  function AfterAcquire(r: Registry, staleAfter: int, id: string, now: int): Registry {
    if Admits(r, staleAfter, id, now) then r.(active := r.active[id := ActiveOf(r.active, id) + 1]) else r
  }

  function AfterRelease(r: Registry, id: string): Registry {
    if ActiveOf(r.active, id) <= 1 then r.(active := r.active - {id})
    else r.(active := r.active[id := r.active[id] - 1])
  }

  function AfterScrape(r: Registry, id: string, ok: bool, now: int): Registry {
    if id !in r.workers then r
    else
      var w := r.workers[id];
      var n := w.scrapeFailures + 1;
      r.(workers := r.workers[id :=
        if ok then w.(scrapeFailures := 0, backoffUntil := 0)
        else if n >= BACKOFF_THRESHOLD then w.(scrapeFailures := n, backoffUntil := now + BACKOFF)
        else w.(scrapeFailures := n)])
  }

  // ----- The registry -----

  class WorkerRegistry {
    const staleAfter: int
    var workers: map<string, Worker>
    var workerOrder: seq<string>
    var active: map<string, int>
    var manualDrains: set<string>
    var restartHolders: map<string, string>

    ghost function Value(): Registry
      reads this
    {
      Registry(workers, workerOrder, active, manualDrains, restartHolders)
    }

    /** Every worker is listed once, in the order the workers joined. */
    ghost predicate Valid()
      reads this
    {
      Listed(Value())
    }

    constructor (staleAfter: int)
      ensures this.staleAfter == staleAfter && Value() == Registry(map[], [], map[], {}, map[]) && Valid()
    {
      this.staleAfter := staleAfter;
      workers, workerOrder, active, manualDrains, restartHolders := map[], [], map[], {}, map[];
    }

    method UpsertHeartbeat(hb: Heartbeat, now: int) returns (resp: Response)
      requires Valid() && hb.agentId != ""
      modifies this
      ensures Valid()
      ensures (Value(), resp) == AfterHeartbeat(old(Value()), hb, now)
    {
      ghost var before := Value();
      ListedAfterHeartbeat(before, hb, now);
      ReleaseExpiredRestartHolders(now);
      var w := NewWorker(workers, hb, now);
      if hb.agentId !in workers {
        workerOrder := workerOrder + [hb.agentId];
      }
      workers := workers[hb.agentId := w];
      if !hb.needsRestart {
        ReleaseRestartHolderFor(hb.agentId);
      }
      assert restartHolders == HoldersFor(before, hb, now);
      assert Value() == Arrived(before, hb, now);
      resp := Decide(hb);
    }

    method Decide(hb: Heartbeat) returns (resp: Response)
      requires hb.agentId in workers && !workers[hb.agentId].draining
      modifies this`restartHolders, this`workers
      ensures (Value(), resp) == Decided(old(Value()), hb)
    {
      var restartDraining, restartAllowed := RestartDecision(hb.agentId, hb.needsRestart, hb.restartModels);
      var draining := restartDraining || hb.agentId in manualDrains;
      if draining {
        workers := workers[hb.agentId := workers[hb.agentId].(draining := true)];
      }
      resp := Response(draining, restartAllowed);
    }

    method RestartDecision(id: string, needsRestart: bool, models: seq<string>) returns (draining: bool, allowed: bool)
      modifies this`restartHolders
      ensures var scopes := Scopes(models);
              var granted := needsRestart && !Blocked(old(restartHolders), id, scopes);
              && draining == granted && allowed == (granted && ActiveOf(active, id) == 0)
              && restartHolders == if granted then Claimed(old(restartHolders), id, scopes) else old(restartHolders)
    {
      if !needsRestart {
        return false, false;
      }
      var scopes := RestartScopes(models);
      var blocked := RestartBlockedByOther(id, scopes);
      if blocked {
        return false, false;
      }
      for i := 0 to |scopes|
        invariant restartHolders == Claimed(old(restartHolders), id, Elements(scopes[..i]))
      {
        assert Elements(scopes[..i + 1]) == Elements(scopes[..i]) + {scopes[i]};
        ClaimOne(old(restartHolders), id, Elements(scopes[..i]), scopes[i]);
        if scopes[i] !in restartHolders {
          restartHolders := restartHolders[scopes[i] := id];
        }
      }
      assert scopes[..|scopes|] == scopes;
      return true, ActiveOf(active, id) == 0;
    }

    method RestartBlockedByOther(id: string, scopes: seq<string>) returns (blocked: bool)
      requires forall i, j :: 0 <= i < j < |scopes| ==> scopes[i] != scopes[j]
      requires scopes != []
      ensures blocked == Blocked(restartHolders, id, Elements(scopes))
    {
      if GLOBAL_SCOPE in restartHolders && restartHolders[GLOBAL_SCOPE] != id {
        return true;
      }
      ghost var all := Elements(scopes);
      assert all == {GLOBAL_SCOPE} <==> scopes == [GLOBAL_SCOPE] by {
        assert scopes[0] in all;
        if |scopes| > 1 {
          assert scopes[1] in all;
        }
      }
      if |scopes| == 1 && scopes[0] == GLOBAL_SCOPE {
        var todo := restartHolders.Keys;
        while todo != {}
          invariant todo <= restartHolders.Keys
          invariant forall s <- restartHolders.Keys - todo :: restartHolders[s] == id
        {
          var s :| s in todo;
          if restartHolders[s] != id {
            return true;
          }
          todo := todo - {s};
        }
        return false;
      }
      for i := 0 to |scopes|
        invariant forall k :: 0 <= k < i ==> !(scopes[k] in restartHolders && restartHolders[scopes[k]] != id)
      {
        if scopes[i] in restartHolders && restartHolders[scopes[i]] != id {
          assert scopes[i] in all;
          return true;
        }
      }
      return false;
    }

    static method RestartScopes(models: seq<string>) returns (out: seq<string>)
      ensures Elements(out) == Scopes(models)
      ensures out != [] && forall i, j :: 0 <= i < j < |out| ==> out[i] != out[j]
    {
      out := [];
      for i := 0 to |models|
        invariant Elements(out) == Names(models[..i])
        invariant forall a, b :: 0 <= a < b < |out| ==> out[a] != out[b]
      {
        NamesSnoc(models[..i], models[i]);
        assert models[..i + 1] == models[..i] + [models[i]];
        var name := TrimSpace(models[i]);
        BlankIsTrimmedEmpty(models[i]);
        if name == "" || name in out {
          assert name in out ==> name in Elements(out);
          continue;
        }
        assert Elements(out + [name]) == Elements(out) + {name};
        out := out + [name];
      }
      assert models[..|models|] == models;
      if |out| == 0 {
        assert Elements([GLOBAL_SCOPE]) == {GLOBAL_SCOPE};
        return [GLOBAL_SCOPE];
      }
      assert out[0] in Elements(out);
    }

    method ReleaseExpiredRestartHolders(now: int)
      modifies this`restartHolders
      ensures restartHolders == Unexpired(old(restartHolders), workers, now)
    {
      var todo := restartHolders.Keys;
      while todo != {}
        invariant todo <= restartHolders.Keys <= old(restartHolders).Keys
        invariant forall s <- restartHolders :: restartHolders[s] == old(restartHolders)[s]
        invariant forall s <- todo :: s in restartHolders
        invariant forall s <- old(restartHolders).Keys - todo ::
            s in restartHolders <==> s in Unexpired(old(restartHolders), workers, now)
      {
        var s :| s in todo;
        if restartHolders[s] !in workers || now - workers[restartHolders[s]].lastHeartbeat > OFFLINE_RETENTION {
          restartHolders := restartHolders - {s};
        }
        todo := todo - {s};
      }
    }

    method ReleaseRestartHolderFor(id: string)
      modifies this`restartHolders
      ensures restartHolders == WithoutHolder(old(restartHolders), id)
    {
      var todo := restartHolders.Keys;
      while todo != {}
        invariant todo <= restartHolders.Keys <= old(restartHolders).Keys
        invariant forall s <- restartHolders :: restartHolders[s] == old(restartHolders)[s]
        invariant forall s <- old(restartHolders).Keys - todo :: s in restartHolders <==> old(restartHolders)[s] != id
      {
        var s :| s in todo;
        if restartHolders[s] == id {
          restartHolders := restartHolders - {s};
        }
        todo := todo - {s};
      }
    }

    method Drain(id: string) returns (ok: bool)
      requires Valid()
      modifies this
      ensures Valid() && ok == (id in old(workers)) && Value() == AfterDrain(old(Value()), id)
    {
      if id !in workers {
        return false;
      }
      manualDrains := manualDrains + {id};
      workers := workers[id := workers[id].(draining := true)];
      return true;
    }

    method Undrain(id: string) returns (ok: bool)
      requires Valid()
      modifies this
      ensures Valid() && ok == (id in old(workers)) && Value() == AfterUndrain(old(Value()), id)
    {
      if id !in workers {
        return false;
      }
      manualDrains := manualDrains - {id};
      if !workers[id].needsRestart {
        workers := workers[id := workers[id].(draining := false)];
      }
      return true;
    }

    /** The workers in join order, after dropping those offline for too long. */
    method Snapshot(now: int) returns (out: seq<Worker>)
      requires Valid()
      modifies this
      ensures Valid() && Value() == AfterPrune(old(Value()), now)
      ensures |out| == |workerOrder| && forall i :: 0 <= i < |out| ==> out[i] == workers[workerOrder[i]]
    {
      PruneOffline(now);
      out := [];
      for i := 0 to |workerOrder|
        invariant |out| == i && forall k :: 0 <= k < i ==> out[k] == workers[workerOrder[k]]
      {
        out := out + [workers[workerOrder[i]]];
      }
    }

    method PruneOffline(now: int)
      requires Valid()
      modifies this
      ensures Valid() && Value() == AfterPrune(old(Value()), now)
    {
      ghost var gone := Offline(Value(), now);
      OrderWithinListed(workerOrder, workers.Keys - gone);
      var pruned := RemoveOffline(now);
      if !pruned {
        return;
      }
      var kept := [];
      for i := 0 to |workerOrder|
        invariant workerOrder == old(workerOrder)
        invariant kept == OrderWithin(workerOrder[..i], workers.Keys)
        invariant Value() == old(AfterPrune(Value(), now).(order := workerOrder))
      {
        OrderWithinSnoc(workerOrder[..i], workerOrder[i], workers.Keys);
        assert workerOrder[..i + 1] == workerOrder[..i] + [workerOrder[i]];
        if workerOrder[i] in workers {
          kept := kept + [workerOrder[i]];
        }
      }
      assert workerOrder[..|workerOrder|] == workerOrder;
      workerOrder := kept;
    }

    /** Forgets the offline workers everywhere but in the join order. */
    method RemoveOffline(now: int) returns (pruned: bool)
      modifies this`workers, this`active, this`manualDrains, this`restartHolders
      ensures pruned == (Offline(old(Value()), now) != {})
      ensures Value() == AfterPrune(old(Value()), now).(order := workerOrder)
    {
      ghost var before := Value();
      ghost var gone := {};
      pruned := false;
      var todo := workers.Keys;
      while todo != {}
        invariant todo <= workers.Keys
        invariant gone == Offline(before, now) - todo && gone * todo == {} && (pruned <==> gone != {})
        invariant workers == before.workers - gone && active == before.active - gone
        invariant manualDrains == before.drains - gone
        invariant restartHolders == HeldByOthers(before.holders, gone)
      {
        var id :| id in todo;
        todo := todo - {id};
        if now - workers[id].lastHeartbeat <= OFFLINE_RETENTION {
          continue;
        }
        OneMoreGone(before, gone, id);
        workers := workers - {id};
        active := active - {id};
        manualDrains := manualDrains - {id};
        ReleaseRestartHolderFor(id);
        gone, pruned := gone + {id}, true;
      }
      assert restartHolders == HeldByOthers(before.holders, gone);
      assert gone == {} ==> HeldByOthers(before.holders, gone) == before.holders;
    }

    method Acquire(id: string, now: int) returns (ok: bool)
      requires Valid()
      modifies this`active
      ensures Valid() && ok == Admits(old(Value()), staleAfter, id, now)
      ensures Value() == AfterAcquire(old(Value()), staleAfter, id, now)
    {
      if id !in workers || now - workers[id].lastHeartbeat >= staleAfter || now < workers[id].backoffUntil || workers[id].draining {
        return false;
      }
      active := active[id := ActiveOf(active, id) + 1];
      return true;
    }

    /** The body of the release function Acquire hands out; its caller runs it at most once. */
    method Release(id: string)
      requires Valid()
      modifies this`active
      ensures Valid() && Value() == AfterRelease(old(Value()), id)
    {
      if ActiveOf(active, id) <= 1 {
        active := active - {id};
        return;
      }
      active := active[id := active[id] - 1];
    }

    method RecordScrape(id: string, ok: bool, now: int)
      requires Valid()
      modifies this`workers
      ensures Valid() && Value() == AfterScrape(old(Value()), id, ok, now)
    {
      if id !in workers {
        return;
      }
      var w := workers[id];
      if ok {
        w := w.(scrapeFailures := 0, backoffUntil := 0);
      } else {
        w := w.(scrapeFailures := w.scrapeFailures + 1);
        if w.scrapeFailures >= BACKOFF_THRESHOLD {
          w := w.(backoffUntil := now + BACKOFF);
        }
      }
      workers := workers[id := w];
    }
  }

  // ----- Join order -----

  ghost predicate Listed(r: Registry) {
    && (forall i, j :: 0 <= i < j < |r.order| ==> r.order[i] != r.order[j])
    && (forall id :: id in r.order <==> id in r.workers)
  }

  lemma ListedAfterHeartbeat(r: Registry, hb: Heartbeat, now: int)
    requires Listed(r)
    ensures Listed(AfterHeartbeat(r, hb, now).0)
  {
  }

  lemma {:induction false} OrderWithinSnoc(order: seq<string>, id: string, ids: set<string>)
    ensures OrderWithin(order + [id], ids) == OrderWithin(order, ids) + if id in ids then [id] else []
    decreases |order|
  {
    if order == [] {
      assert order + [id] == [id] && OrderWithin([id][1..], ids) == [];
    } else {
      assert (order + [id])[1..] == order[1..] + [id];
      OrderWithinSnoc(order[1..], id, ids);
    }
  }

  lemma {:induction false} OrderWithinListed(order: seq<string>, ids: set<string>)
    requires forall i, j :: 0 <= i < j < |order| ==> order[i] != order[j]
    ensures var kept := OrderWithin(order, ids);
            && (forall id :: id in kept <==> id in order && id in ids)
            && (forall i, j :: 0 <= i < j < |kept| ==> kept[i] != kept[j])
    decreases |order|
  {
    if order != [] {
      OrderWithinListed(order[1..], ids);
      assert order[0] !in order[1..];
    }
  }
}
