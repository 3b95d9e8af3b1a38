/** What the counts are once a control plan has been carried out. */
module PlacementOutcomes {

  import opened Basics
  import opened Placement
  import opened PlacementPlans

  ghost predicate UniqueIds(ws: seq<Worker>) {
    forall i, j :: 0 <= i < j < |ws| ==> ws[i].id != ws[j].id
  }

  // ----- Warm-ups -----

  function Loading(model: string): Running {
    Running(model, "loading", 0)
  }

  /** The workers with one of them loading a model. */
  function WithLoading(ws: seq<Worker>, id: string, model: string): seq<Worker> {
    seq(|ws|, i requires 0 <= i < |ws| => if ws[i].id == id then ws[i].(running := ws[i].running + [Loading(model)]) else ws[i])
  }

  function AfterWarms(ws: seq<Worker>, actions: seq<Action>): seq<Worker> {
    if actions == [] then ws
    else
      var last := actions[|actions| - 1];
      WithLoading(AfterWarms(ws, actions[..|actions| - 1]), last.worker.id, last.model)
  }

  lemma {:induction false} FirstStateOfMore(running: seq<Running>, r: Running, model: string)
    ensures FirstState(running + [r], model).Some? == (FirstState(running, model).Some? || r.model == model)
    decreases |running|
  {
    if running == [] {
      assert (running + [r])[1..] == [];
    } else {
      assert (running + [r])[1..] == running[1..] + [r];
      hide TrimSpace;
      FirstStateOfMore(running[1..], r, model);
    }
  }

  lemma RunsAfterLoading(w: Worker, model: string, m: string)
    ensures Runs(w.(running := w.running + [Loading(model)]), m) == (Runs(w, m) || m == model)
  {
    FirstStateOfMore(w.running, Loading(model), m);
  }

  /** One worker more is taken by the model, if it did not run it. */
  lemma {:induction false} WarmOccupies(v: View, ws: seq<Worker>, id: string, model: string, m: string)
    requires UniqueIds(ws) && forall w <- ws :: w.id == id ==> !Runs(w, model)
    ensures Occupied(v, WithLoading(ws, id, model), m) ==
            Occupied(v, ws, m) + if m == model && id in v.healthy && (exists w <- ws :: w.id == id) then 1 else 0
    decreases |ws|
  {
    hide Runs;
    if ws != [] {
      var front, last := ws[..|ws| - 1], ws[|ws| - 1];
      assert WithLoading(ws, id, model)[..|ws| - 1] == WithLoading(front, id, model);
      assert ws == front + [last];
      WarmOccupies(v, front, id, model, m);
      RunsAfterLoading(last, model, m);
      assert last.id == id ==> forall w <- front :: w.id != id;
    }
  }

  lemma {:induction false} WarmsLeaveOthers(ws: seq<Worker>, actions: seq<Action>, id: string)
    requires forall a <- actions :: a.worker.id != id
    ensures |AfterWarms(ws, actions)| == |ws|
    ensures forall i :: 0 <= i < |ws| ==> AfterWarms(ws, actions)[i].id == ws[i].id
    ensures forall i :: 0 <= i < |ws| && ws[i].id == id ==> AfterWarms(ws, actions)[i] == ws[i]
    decreases |actions|
  {
    if actions != [] {
      WarmsLeaveOthers(ws, actions[..|actions| - 1], id);
      assert actions[|actions| - 1] in actions;
    }
  }

  /** Before the last warm-up its worker is still as it was. */
  lemma LastIsUntouched(ws: seq<Worker>, front: seq<Action>, last: Action, healthy: set<string>)
    requires UniqueIds(ws) && last.worker in ws && forall a <- front :: a.worker.id != last.worker.id
    ensures var now := AfterWarms(ws, front);
            && UniqueIds(now) && last.worker in now && forall w <- now :: w.id == last.worker.id ==> w == last.worker
  {
    WarmsLeaveOthers(ws, front, last.worker.id);
    hide AfterWarms;
    var now := AfterWarms(ws, front);
    var k :| 0 <= k < |ws| && ws[k] == last.worker;
    assert now[k] == last.worker;
    forall w <- now | w.id == last.worker.id ensures w == last.worker {
      var j :| 0 <= j < |now| && now[j] == w;
    }
  }

  lemma FrontIsApart(actions: seq<Action>)
    requires Apart(actions) && actions != []
    ensures Apart(actions[..|actions| - 1]) && actions[|actions| - 1] in actions
    ensures forall a <- actions[..|actions| - 1] :: a in actions && a.worker.id != actions[|actions| - 1].worker.id
  {
    var front := actions[..|actions| - 1];
    forall a <- front ensures a in actions && a.worker.id != actions[|actions| - 1].worker.id {
      var k :| 0 <= k < |front| && front[k] == a;
      assert actions[k] == a;
    }
  }

  /** The planned warm-ups all count: none meets another, and none is on a worker that runs the model. */
  lemma {:induction false} WarmsOccupy(v: View, rules: Rules, actions: seq<Action>, m: string)
    requires UniqueIds(v.workers) && Apart(actions)
    requires forall a <- actions :: a.Warm? && a.victim.None? && ActionOk(v, rules, a)
    ensures Occupied(v, AfterWarms(v.workers, actions), m) == Occupied(v, v.workers, m) + Warms(actions, m)
    decreases |actions|
  {
    hide ActionOk, Occupied, Runs, WithLoading, UniqueIds, Apart;
    if actions != [] {
      var front, last := actions[..|actions| - 1], actions[|actions| - 1];
      FrontIsApart(actions);
      WarmsOccupy(v, rules, front, m);
      LastIsThere(v, rules, last);
      LastIsUntouched(v.workers, front, last, v.healthy);
      WarmOccupies(v, AfterWarms(v.workers, front), last.worker.id, last.model, m);
    }
  }

  lemma LastIsThere(v: View, rules: Rules, a: Action)
    requires a.Warm? && a.victim.None? && ActionOk(v, rules, a)
    ensures a.worker in v.workers && a.worker.id in v.healthy && !Runs(a.worker, a.model)
  {
  }

  /** A carried-out plan takes no model above its ceiling that was not there already. */
  lemma PlanKeepsCeilings(v: View, rules: Rules, actions: seq<Action>, m: string)
    requires UniqueIds(v.workers) && SafePlan(v, rules, actions) && (forall a <- actions :: !HasVictim(a))
    requires m in rules.models
    ensures Occupied(v, AfterWarms(v.workers, actions), m) == Occupied(v, v.workers, m)
            || Occupied(v, AfterWarms(v.workers, actions), m) <= EffectiveMax(v, rules, m)
  {
    hide ActionOk, Occupied, EffectiveMax;
    WarmsOccupy(v, rules, actions, m);
  }

  // ----- Unloading -----

  function Without(running: seq<Running>, model: string): seq<Running> {
    if running == [] then []
    else
      var last := running[|running| - 1];
      Without(running[..|running| - 1], model) + if last.model == model then [] else [last]
  }

  function AfterUnload(ws: seq<Worker>, id: string, model: string): seq<Worker> {
    seq(|ws|, i requires 0 <= i < |ws| => if ws[i].id == id then ws[i].(running := Without(ws[i].running, model)) else ws[i])
  }

  lemma {:induction false} WithoutEntries(running: seq<Running>, model: string)
    ensures ReadyEntries(Without(running, model), model) == 0
    decreases |running|
  {
    hide EqualFold;
    if running != [] {
      var front, last := running[..|running| - 1], running[|running| - 1];
      WithoutEntries(front, model);
      var rest := Without(front, model);
      assert (rest + [last])[..|rest|] == rest;
      assert rest + [] == rest;
    }
  }

  /** The replicas the planner no longer counts: the worker's ready entries, if it is healthy. */
  lemma {:induction false} UnloadCosts(v: View, ws: seq<Worker>, k: nat, model: string)
    requires UniqueIds(ws) && k < |ws|
    ensures Loaded(v, AfterUnload(ws, ws[k].id, model), model) ==
            Loaded(v, ws, model) - if ws[k].id in v.healthy then ReadyEntries(ws[k].running, model) else 0
    ensures ws[k].id in v.healthy ==> Loaded(v, ws, model) >= ReadyEntries(ws[k].running, model)
    decreases |ws|
  {
    var n := |ws| - 1;
    hide ReadyEntries, Without;
    var after := AfterUnload(ws, ws[k].id, model);
    if k == n {
      WithoutEntries(ws[n].running, model);
      assert after[..n] == ws[..n];
    } else {
      UnloadCosts(v, ws[..n], k, model);
      assert after[..n] == AfterUnload(ws[..n], ws[k].id, model);
      assert after[n] == ws[n];
    }
  }

  /** Unloading a victim leaves its model at its floor exactly when its worker does not stand for too many replicas. */
  lemma FloorHoldsExactly(v: View, rules: Rules, k: nat, model: string)
    requires UniqueIds(v.workers) && k < |v.workers| && VictimOk(v, rules, v.workers[k], model)
    requires model in rules.models && rules.models[model].minLoaded > 0
    ensures var lost := if v.workers[k].id in v.healthy then ReadyEntries(v.workers[k].running, model) else 0;
            Loaded(v, AfterUnload(v.workers, v.workers[k].id, model), model) >= rules.models[model].minLoaded <==>
            Loaded(v, v.workers, model) - lost >= rules.models[model].minLoaded
  {
    UnloadCosts(v, v.workers, k, model);
  }

  predicate ListsOnce(running: seq<Running>, model: string) {
    forall i, j :: 0 <= i < j < |running| && running[i].model == model ==> running[j].model != model
  }

  lemma {:induction false} OnceIsAtMostOne(running: seq<Running>, model: string)
    requires ListsOnce(running, model)
    ensures ReadyEntries(running, model) <= 1
    ensures (forall r <- running :: r.model != model) ==> ReadyEntries(running, model) == 0
    decreases |running|
  {
    hide EqualFold;
    if running != [] {
      var front, last := running[..|running| - 1], running[|running| - 1];
      OnceIsAtMostOne(front, model);
      assert last in running && forall r <- front :: r in running;
      if last.model == model {
        forall r <- front ensures r.model != model {
          var i :| 0 <= i < |front| && front[i] == r;
          assert running[i] == r;
        }
      }
    }
  }

  /** So the floor holds whenever workers list a model once. */
  lemma UnloadKeepsFloor(v: View, rules: Rules, k: nat, model: string)
    requires UniqueIds(v.workers) && k < |v.workers| && VictimOk(v, rules, v.workers[k], model)
    requires model in rules.models && ListsOnce(v.workers[k].running, model)
    ensures Loaded(v, AfterUnload(v.workers, v.workers[k].id, model), model) >= rules.models[model].minLoaded
        || rules.models[model].minLoaded == 0
  {
    OnceIsAtMostOne(v.workers[k].running, model);
    UnloadCosts(v, v.workers, k, model);
  }

  /** A worker that lists a model twice counts as two replicas, and its unloading goes below the floor. */
  lemma ListedTwiceExample(w: Worker, v: View, rules: Rules)
    requires w == Worker("w", [], [Running("m", "ready", 0), Running("m", "ready", 0)], map[])
    requires v == View([w], {"w"}, map[], {}, map[], {}, 0) && rules == Rules(map["m" := Sizing(0, 1, 0, false)], map[])
    ensures VictimOk(v, rules, w, "m") && Loaded(v, AfterUnload(v.workers, "w", "m"), "m") < rules.models["m"].minLoaded
  {
    var r := Running("m", "ready", 0);
    assert EqualFold("ready", "ready");
    assert [r, r][..1] == [r] && [r][..0] == [];
    assert ReadyEntries([r], "m") == 1 && ReadyEntries([r, r], "m") == 2;
    assert v.workers[..0] == [];
    assert Loaded(v, [w], "m") == 2;
    assert r in w.running;
    UnloadCosts(v, v.workers, 0, "m");
  }
}
