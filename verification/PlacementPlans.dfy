/**
 The control plan of one tick (`PlanControlActions` and what it calls in
 `internal/gateway/placement.go`) and what is true once it has been carried out.
 */
module PlacementPlans {

  import opened Basics
  import opened Sorting
  import opened Placement

  datatype Action =
    | Warm(worker: Worker, model: string, victim: Option<string>)
    | Unload(worker: Worker, model: string)

  /** The demand score from replica counts and active requests, and refused cold requests. */
  datatype Pressure = Pressure(score: (string, int, int, int) -> int, noReady: string -> int)

  // ----- Victims -----

  predicate CanUnload(rules: Rules, counts: map<string, nat>, model: string) {
    model in rules.models ==> CountAt(counts, model) > rules.models[model].minLoaded || rules.models[model].minLoaded == 0
  }

  predicate Unprotected(v: View, r: Running) {
    r.protectedUntil == 0 || r.protectedUntil <= v.now
  }

  predicate IsVictim(v: View, rules: Rules, counts: map<string, nat>, target: string, r: Running) {
    EqualFold(r.state, "ready") && r.model != target && Unprotected(v, r) && CanUnload(rules, counts, r.model)
  }

  /** A worker a model may be taken from for another's floor; its health is not looked at. */
  predicate FloorDonor(v: View, rules: Rules, target: string, w: Worker) {
    ActiveOn(v, w.id) == 0 && !ReadyOn(w, target) && Allows(rules, w, target) && ArtifactRefreshable(w, target)
  }

  function SizingOf(rules: Rules, model: string): Sizing {
    if model in rules.models then rules.models[model] else Sizing(0, 0, 0, false)
  }

  datatype Rank = Rank(minLoadedZero: bool, priority: int, lastAccess: int, workerId: string)

  predicate RankLess(a: Rank, b: Rank) {
    if a.minLoadedZero != b.minLoadedZero then a.minLoadedZero
    else if a.priority != b.priority then a.priority < b.priority
    else if a.lastAccess != b.lastAccess then a.lastAccess < b.lastAccess
    else TextLess(a.workerId, b.workerId)
  }

  function RankOf(v: View, rules: Rules, w: Worker, r: Running): Rank {
    Rank(SizingOf(rules, r.model).minLoaded == 0, SizingOf(rules, r.model).priority,
         if (w.id, r.model) in v.access then v.access[(w.id, r.model)] else 0, w.id)
  }

  /** A running entry of a worker. */
  type Entry = (Worker, Running)

  function FloorDonors(v: View, rules: Rules, target: string): Worker -> bool {
    w => FloorDonor(v, rules, target, w)
  }

  function FloorVictims(v: View, rules: Rules, counts: map<string, nat>, target: string): Entry -> bool {
    (e: Entry) => IsVictim(v, rules, counts, target, e.1)
  }

  function FloorLess(v: View, rules: Rules): (Entry, Entry) -> bool {
    (a: Entry, b: Entry) => RankLess(RankOf(v, rules, a.0, a.1), RankOf(v, rules, b.0, b.1))
  }

  lemma RankLessChains(a: Rank, b: Rank, c: Rank)
    ensures !RankLess(a, a)
    ensures RankLess(a, b) && RankLess(b, c) ==> RankLess(a, c)
  {
    TextLessTotal(a.workerId, a.workerId);
    if TextLess(a.workerId, b.workerId) && TextLess(b.workerId, c.workerId) {
      TextLessChains(a.workerId, b.workerId, c.workerId);
    }
  }

  lemma FloorLessIsStrict(v: View, rules: Rules)
    ensures StrictOrder(FloorLess(v, rules))
  {
    hide RankLess, RankOf;
    forall a: Entry, b: Entry, c: Entry
      ensures !FloorLess(v, rules)(a, a)
      ensures FloorLess(v, rules)(a, b) && FloorLess(v, rules)(b, c) ==> FloorLess(v, rules)(a, c)
    {
      RankLessChains(RankOf(v, rules, a.0, a.1), RankOf(v, rules, b.0, b.1), RankOf(v, rules, c.0, c.1));
    }
  }

  // ----- The best victim over all workers -----

  function Entries(ws: seq<Worker>, donor: Worker -> bool, victim: Entry -> bool): set<Entry> {
    set w <- ws, r <- w.running | donor(w) && victim((w, r)) :: (w, r)
  }

  function EntriesOn(w: Worker, running: seq<Running>, victim: Entry -> bool): set<Entry> {
    set r <- running | victim((w, r)) :: (w, r)
  }

  lemma EntriesSnoc(ws: seq<Worker>, i: nat, donor: Worker -> bool, victim: Entry -> bool)
    requires i < |ws|
    ensures Entries(ws[..i + 1], donor, victim) ==
            Entries(ws[..i], donor, victim) + if donor(ws[i]) then EntriesOn(ws[i], ws[i].running, victim) else {}
  {
    assert ws[..i + 1] == ws[..i] + [ws[i]];
  }

  method PickOnWorker(w: Worker, victim: Entry -> bool, less: (Entry, Entry) -> bool, start: Option<Entry>,
                      ghost seen: set<Entry>)
    returns (best: Option<Entry>)
    requires StrictOrder(less) && LeastBy(seen, start, less)
    ensures LeastBy(seen + EntriesOn(w, w.running, victim), best, less)
  {
    hide LeastBy, StrictOrder;
    best := start;
    assert seen + EntriesOn(w, w.running[..0], victim) == seen;
    for j := 0 to |w.running|
      invariant LeastBy(seen + EntriesOn(w, w.running[..j], victim), best, less)
    {
      var e := (w, w.running[j]);
      assert w.running[..j + 1] == w.running[..j] + [w.running[j]];
      ghost var before := seen + EntriesOn(w, w.running[..j], victim);
      if !victim(e) {
        assert seen + EntriesOn(w, w.running[..j + 1], victim) == before;
        continue;
      }
      LeastByOneMore(before, best, less, e);
      assert seen + EntriesOn(w, w.running[..j + 1], victim) == before + {e};
      if best.None? || less(e, best.value) {
        best := Some(e);
      }
    }
    assert w.running[..|w.running|] == w.running;
  }

  /** The first entry no other is less than, over the workers that may donate. */
  method PickLeast(ws: seq<Worker>, donor: Worker -> bool, victim: Entry -> bool,
                   less: (Entry, Entry) -> bool) returns (best: Option<Entry>)
    requires StrictOrder(less)
    ensures LeastBy(Entries(ws, donor, victim), best, less)
  {
    hide StrictOrder;
    best := None;
    assert ws[..0] == [] && Entries([], donor, victim) == {};
    for i := 0 to |ws|
      invariant LeastBy(Entries(ws[..i], donor, victim), best, less)
    {
      hide LeastBy, Entries;
      EntriesSnoc(ws, i, donor, victim);
      if !donor(ws[i]) {
        assert Entries(ws[..i], donor, victim) + {} == Entries(ws[..i], donor, victim);
        continue;
      }
      best := PickOnWorker(ws[i], victim, less, best, Entries(ws[..i], donor, victim));
    }
    assert ws[..|ws|] == ws;
  }

  method PickEvictionVictimForModel(v: View, rules: Rules, counts: map<string, nat>,
                                    target: string) returns (best: Option<Entry>)
    ensures LeastBy(Entries(v.workers, FloorDonors(v, rules, target), FloorVictims(v, rules, counts, target)),
        best, FloorLess(v, rules))
  {
    FloorLessIsStrict(v, rules);
    best := PickLeast(v.workers, FloorDonors(v, rules, target), FloorVictims(v, rules, counts, target), FloorLess(v, rules));
  }

  /** The choice does not depend on which workers are healthy. */
  lemma FloorVictimIgnoresHealth(v: View, rules: Rules, counts: map<string, nat>, target: string, healthy: set<string>)
    ensures var other := v.(healthy := healthy);
            Entries(v.workers, FloorDonors(v, rules, target), FloorVictims(v, rules, counts, target)) ==
            Entries(v.workers, FloorDonors(other, rules, target), FloorVictims(other, rules, counts, target))
  {
    hide Allows, ArtifactRefreshable, ReadyOn, EqualFold;
    var other := v.(healthy := healthy);
    forall w: Worker ensures FloorDonor(v, rules, target, w) == FloorDonor(other, rules, target, w) {
    }
    forall r: Running ensures IsVictim(v, rules, counts, target, r) == IsVictim(other, rules, counts, target, r) {
    }
  }

  /** Which worker it is on decides between entries that are otherwise alike. */
  lemma FloorLessTotal(v: View, rules: Rules, a: Entry, b: Entry)
    ensures FloorLess(v, rules)(a, b) || FloorLess(v, rules)(b, a) || a.0.id == b.0.id
  {
    TextLessTotal(a.0.id, b.0.id);
  }

  /** So the victim is on a healthy worker exactly when some healthy one ranks before each unhealthy one. */
  lemma FloorVictimHealthyExactly(v: View, rules: Rules, counts: map<string, nat>, target: string, e: Entry)
    requires LeastBy(FloorEntries(v, rules, counts, target), Some(e), FloorLess(v, rules))
    ensures e.0.id in v.healthy <==>
            forall u <- FloorEntries(v, rules, counts, target) :: u.0.id !in v.healthy ==>
              exists g <- FloorEntries(v, rules, counts, target) :: g.0.id in v.healthy && FloorLess(v, rules)(g, u)
  {
    hide FloorLess, Entries;
    if e.0.id in v.healthy {
      forall u <- FloorEntries(v, rules, counts, target) | u.0.id !in v.healthy ensures FloorLess(v, rules)(e, u) {
        FloorLessTotal(v, rules, e, u);
      }
    }
  }

  function AccessOf(v: View, e: Entry): int {
    if (e.0.id, e.1.model) in v.access then v.access[(e.0.id, e.1.model)] else 0
  }

  /**
   What decides about the victim for a floor, in this order: a model without a floor goes
   first, then the lower priority, then the longer unused, then the name of the worker.
   */
  lemma FloorVictimIsLast(v: View, rules: Rules, counts: map<string, nat>, target: string, e: Entry, x: Entry)
    requires LeastBy(FloorEntries(v, rules, counts, target), Some(e), FloorLess(v, rules)) && x in FloorEntries(v, rules, counts, target)
    ensures var chosen, other := SizingOf(rules, e.1.model), SizingOf(rules, x.1.model);
            && (other.minLoaded == 0 ==> chosen.minLoaded == 0)
            && ((chosen.minLoaded == 0) == (other.minLoaded == 0) ==>
                  && chosen.priority <= other.priority
                  && (chosen.priority == other.priority ==>
                        && AccessOf(v, e) <= AccessOf(v, x)
                        && (AccessOf(v, e) == AccessOf(v, x) ==> !TextLess(x.0.id, e.0.id))))
  {
    hide Entries, FloorVictims, FloorDonors;
    assert !FloorLess(v, rules)(x, e);
  }

  // ----- Eviction for demand -----

  predicate HasExcess(rules: Rules, counts: map<string, nat>, model: string) {
    if model in rules.models && rules.models[model].minLoaded > 0 then CountAt(counts, model) > rules.models[model].minLoaded
    else CountAt(counts, model) > 0
  }

  function KeepScore(v: View, rules: Rules, counts: map<string, nat>, w: Worker, r: Running): int {
    var s := SizingOf(rules, r.model);
    s.priority
    + (if CountAt(counts, r.model) <= s.minLoaded then 120 else 0)
    + (if Unprotected(v, r) then 0 else 80)
    + (if ActiveOn(v, w.id) > 0 then 50 else 0)
    + (if (w.id, r.model) in v.access && (w.id, r.model) in v.recent then 30 else 0)
    - (if s.minLoaded == 0 then 40 else 0)
  }

  /** On no account is the first replica worth more to keep than the second. */
  predicate NoMoreToKeep(v: View, rules: Rules, counts: map<string, nat>, a: Entry, b: Entry) {
    var x, y := SizingOf(rules, a.1.model), SizingOf(rules, b.1.model);
    && x.priority <= y.priority
    && (CountAt(counts, a.1.model) <= x.minLoaded ==> CountAt(counts, b.1.model) <= y.minLoaded)
    && (!Unprotected(v, a.1) ==> !Unprotected(v, b.1))
    && (ActiveOn(v, a.0.id) > 0 ==> ActiveOn(v, b.0.id) > 0)
    && (UsedLately(v, a) ==> UsedLately(v, b))
    && (y.minLoaded == 0 ==> x.minLoaded == 0)
  }

  predicate UsedLately(v: View, e: Entry) {
    (e.0.id, e.1.model) in v.access && (e.0.id, e.1.model) in v.recent
  }

  /** Priority, floor, protection, work, recent use: each of them keeps a replica, and nothing else does. */
  lemma KeepScoreDirected(v: View, rules: Rules, counts: map<string, nat>, a: Entry, b: Entry)
    requires NoMoreToKeep(v, rules, counts, a, b)
    ensures KeepScore(v, rules, counts, a.0, a.1) <= KeepScore(v, rules, counts, b.0, b.1)
    ensures KeepScore(v, rules, counts, a.0, a.1) == KeepScore(v, rules, counts, b.0, b.1) <==> NoMoreToKeep(v, rules, counts, b, a)
  {
  }

  /** So none of those that could have been the victim is worth less to keep on one account and no more on any other. */
  lemma DemandVictimIsLeast(v: View, rules: Rules, counts: map<string, nat>, entries: set<Entry>, e: Entry, x: Entry)
    requires LeastBy(entries, Some(e), KeepLess(v, rules, counts)) && x in entries && NoMoreToKeep(v, rules, counts, x, e)
    ensures NoMoreToKeep(v, rules, counts, e, x) && !TextLess(x.1.model, e.1.model)
    ensures x.1.model == e.1.model ==> !TextLess(x.0.id, e.0.id)
  {
    KeepScoreDirected(v, rules, counts, x, e);
    hide KeepScore, NoMoreToKeep;
    assert !KeepLess(v, rules, counts)(x, e);
  }

  function Donors(v: View, rules: Rules, target: string): Worker -> bool {
    w => EvictionEligible(v, rules, w, target)
  }

  /** Worth less than the demand, or an excess replica when requests find nothing ready. */
  function DemandVictims(v: View, rules: Rules, counts: map<string, nat>, target: string, demand: int,
                         coldStart: bool): Entry -> bool {
    (e: Entry) =>
      && IsVictim(v, rules, counts, target, e.1)
      && (demand > KeepScore(v, rules, counts, e.0, e.1) + SWITCH_COST || (coldStart && HasExcess(rules, counts, e.1.model)))
  }

  function KeepLess(v: View, rules: Rules, counts: map<string, nat>): (Entry, Entry) -> bool {
    (a: Entry, b: Entry) => KeepRankLess(KeepScore(v, rules, counts, a.0, a.1), a.1.model,
        a.0.id, KeepScore(v, rules, counts, b.0, b.1), b.1.model, b.0.id)
  }

  predicate KeepRankLess(keepA: int, modelA: string, idA: string, keepB: int, modelB: string, idB: string) {
    keepA < keepB || (keepA == keepB && (TextLess(modelA, modelB) || (modelA == modelB && TextLess(idA, idB))))
  }

  lemma KeepRankLessChains(a: int, modelA: string, idA: string, b: int, modelB: string, idB: string, c: int,
                           modelC: string, idC: string)
    ensures !KeepRankLess(a, modelA, idA, a, modelA, idA)
    ensures KeepRankLess(a, modelA, idA, b, modelB, idB) && KeepRankLess(b, modelB, idB, c, modelC, idC)
        ==> KeepRankLess(a, modelA, idA, c, modelC, idC)
  {
    TextLessTotal(modelA, modelA);
    TextLessTotal(idA, idA);
    if TextLess(modelA, modelB) && TextLess(modelB, modelC) {
      TextLessChains(modelA, modelB, modelC);
    }
    if TextLess(idA, idB) && TextLess(idB, idC) {
      TextLessChains(idA, idB, idC);
    }
    hide TextLess;
  }

  lemma KeepLessIsStrict(v: View, rules: Rules, counts: map<string, nat>)
    ensures StrictOrder(KeepLess(v, rules, counts))
  {
    hide KeepRankLess, KeepScore;
    forall a: Entry, b: Entry, c: Entry
      ensures !KeepLess(v, rules, counts)(a, a)
      ensures KeepLess(v, rules, counts)(a, b) && KeepLess(v, rules, counts)(b, c) ==> KeepLess(v, rules, counts)(a, c)
    {
      KeepRankLessChains(KeepScore(v, rules, counts, a.0, a.1), a.1.model, a.0.id,
          KeepScore(v, rules, counts, b.0, b.1), b.1.model, b.0.id,
                         KeepScore(v, rules, counts, c.0, c.1), c.1.model, c.0.id);
    }
  }

  // ----- What a plan may do -----

  /** At most one replica of a floor is lost, and only one the planner counts above the floor. */
  predicate VictimOk(v: View, rules: Rules, w: Worker, model: string) {
    && w in v.workers && ActiveOn(v, w.id) == 0
    && (exists r <- w.running :: r.model == model && EqualFold(r.state, "ready") && Unprotected(v, r))
    && (model in rules.models ==> Loaded(v, v.workers, model) > rules.models[model].minLoaded || rules.models[model].minLoaded == 0)
  }

  predicate ActionOk(v: View, rules: Rules, a: Action) {
    match a
    case Unload(w, model) => VictimOk(v, rules, w, model)
    case Warm(w, model, None) => w in v.workers && WarmEligible(v, rules, w, model) && w.running == []
    case Warm(w, model, Some(victim)) =>
      w in v.workers && WarmEligible(v, rules, w, model) && victim != model && VictimOk(v, rules, w, victim)
  }

  function Warms(actions: seq<Action>, model: string): nat {
    if actions == [] then 0
    else Warms(actions[..|actions| - 1], model) + if actions[|actions| - 1].Warm? && actions[|actions| - 1].model == model then 1 else 0
  }

  predicate HasVictim(a: Action) {
    a.Unload? || a.victim.Some?
  }

  ghost predicate WithinCeilings(v: View, rules: Rules, actions: seq<Action>) {
    forall model <- rules.models ::
        Warms(actions, model) > 0 ==> Occupied(v, v.workers, model) + Warms(actions, model) <= EffectiveMax(v, rules, model)
  }

  predicate Apart(actions: seq<Action>) {
    forall i, j :: 0 <= i < j < |actions| ==> actions[i].worker.id != actions[j].worker.id
  }

  ghost predicate SafePlan(v: View, rules: Rules, actions: seq<Action>) {
    && (forall a <- actions :: ActionOk(v, rules, a) && (a.Warm? ==> a.model in rules.models))
    && Apart(actions) && WithinCeilings(v, rules, actions)
    && (forall a <- actions :: HasVictim(a) ==> |actions| == 1)
  }

  lemma CanUnloadMeans(v: View, rules: Rules, counts: map<string, nat>, w: Worker, r: Running, target: string)
    requires CountsAre(counts, v) && w in v.workers && r in w.running && ActiveOn(v, w.id) == 0
    requires IsVictim(v, rules, counts, target, r)
    ensures VictimOk(v, rules, w, r.model) && r.model != target
  {
    hide EqualFold, Loaded;
    assert CountAt(counts, r.model) == Loaded(v, v.workers, r.model);
  }

  lemma OneActionPlan(v: View, rules: Rules, a: Action)
    requires ActionOk(v, rules, a)
    requires (a.Warm? ==> a.model in rules.models && Occupied(v, v.workers, a.model) < EffectiveMax(v, rules, a.model))
    ensures SafePlan(v, rules, [a])
  {
    hide ActionOk, Occupied, EffectiveMax;
    forall model: string ensures Warms([a], model) == if a.Warm? && a.model == model then 1 else 0 {
      assert [a][..0] == [];
    }
  }

  // ----- Planning -----

  predicate ById(a: Worker, b: Worker) {
    TextLess(a.id, b.id)
  }

  lemma ByIdIsWeak()
    ensures WeakOrder(ById)
  {
    forall a: Worker, b: Worker ensures ById(a, b) ==> !ById(b, a) {
      TextLessTotal(a.id, b.id);
    }
    forall a: Worker, b: Worker, c: Worker | !ById(b, a) && !ById(c, b) ensures !ById(c, a) {
      TextLessWeak(a.id, b.id, c.id);
    }
  }

  predicate EmptyWarm(v: View, rules: Rules, model: string, excluded: set<string>, w: Worker) {
    w.id !in excluded && WarmEligible(v, rules, w, model) && w.running == []
  }

  lemma SortedByName(ws: seq<Worker>)
    ensures forall w :: w in SortBy(ws, ById) <==> w in ws
    ensures forall i, j :: 0 <= i < j < |ws| ==> !TextLess(SortBy(ws, ById)[j].id, SortBy(ws, ById)[i].id)
  {
    ByIdIsWeak();
    SortByOrders(ws, ById);
    SortByPermutes(ws, ById);
    hide SortBy, WeakOrder;
    var sorted := SortBy(ws, ById);
    forall i, j | 0 <= i < j < |sorted| ensures !TextLess(sorted[j].id, sorted[i].id) {
      assert !ById(sorted[j], sorted[i]);
    }
  }

  /** The first by name of the workers that could take the model and run nothing. */
  method PickEmptyWarmWorkerExcluding(v: View, rules: Rules, model: string,
                                      excluded: set<string>) returns (r: Option<Worker>)
    ensures r.Some? ==> r.value in v.workers && EmptyWarm(v, rules, model, excluded, r.value)
    ensures forall w <- v.workers :: EmptyWarm(v, rules, model, excluded, w) ==> r.Some? && !TextLess(w.id, r.value.id)
  {
    var sorted := SortBy(v.workers, ById);
    SortedByName(v.workers);
    hide SortBy, WarmEligible, TextLess;
    for i := 0 to |sorted|
      invariant forall k :: 0 <= k < i ==> !EmptyWarm(v, rules, model, excluded, sorted[k])
    {
      var w := sorted[i];
      if w.id in excluded {
        continue;
      }
      if !WarmEligible(v, rules, w, model) {
        continue;
      }
      if w.running == [] {
        FirstFound(v, rules, model, excluded, sorted, i);
        assert w in sorted;
        return Some(w);
      }
    }
    forall w <- v.workers ensures !EmptyWarm(v, rules, model, excluded, w) {
      assert w in sorted;
    }
    r := None;
  }

  lemma FirstFound(v: View, rules: Rules, model: string, excluded: set<string>, sorted: seq<Worker>, i: nat)
    requires i < |sorted| && (forall k :: 0 <= k < i ==> !EmptyWarm(v, rules, model, excluded, sorted[k]))
    requires forall i, j :: 0 <= i < j < |sorted| ==> !TextLess(sorted[j].id, sorted[i].id)
    ensures forall w <- sorted :: EmptyWarm(v, rules, model, excluded, w) ==> !TextLess(w.id, sorted[i].id)
  {
    hide EmptyWarm;
    TextLessTotal(sorted[i].id, sorted[i].id);
    hide TextLess;
    forall w <- sorted | EmptyWarm(v, rules, model, excluded, w) ensures !TextLess(w.id, sorted[i].id) {
      var k :| 0 <= k < |sorted| && sorted[k] == w;
    }
  }

  function EvictionAction(e: Entry, target: string): Action {
    if ArtifactReady(e.0, target) then Warm(e.0, target, Some(e.1.model)) else Unload(e.0, e.1.model)
  }

  /** A victim for the demand; with a stale artifact the worker is only freed. */
  method PlanWarmEviction(v: View, rules: Rules, counts: map<string, nat>, target: string, demand: int,
                          coldStart: bool) returns (r: Option<Action>)
    requires CountsAre(counts, v) && target in rules.models
    requires Occupied(v, v.workers, target) < EffectiveMax(v, rules, target)
    ensures r.Some? ==> SafePlan(v, rules, [r.value])
    ensures r.None? <==> Entries(v.workers, Donors(v, rules, target), DemandVictims(v, rules, counts, target, demand, coldStart)) == {}
    ensures r.Some? ==>
              exists e: Entry :: LeastBy(Entries(v.workers, Donors(v, rules, target),
                  DemandVictims(v, rules, counts, target, demand, coldStart)), Some(e), KeepLess(v, rules, counts))
                          && r.value == EvictionAction(e, target)
  {
    KeepLessIsStrict(v, rules, counts);
    var best := PickLeast(v.workers, Donors(v, rules, target),
        DemandVictims(v, rules, counts, target, demand, coldStart), KeepLess(v, rules, counts));
    if best.None? {
      return None;
    }
    var e := best.value;
    VictimIsSafe(v, rules, counts, target, demand, coldStart, e);
    hide *;
    return Some(EvictionAction(e, target));
  }

  lemma VictimIsSafe(v: View, rules: Rules, counts: map<string, nat>, target: string, demand: int, coldStart: bool,
                     e: Entry)
    requires CountsAre(counts, v) && target in rules.models
    requires Occupied(v, v.workers, target) < EffectiveMax(v, rules, target)
    requires e in Entries(v.workers, Donors(v, rules, target), DemandVictims(v, rules, counts, target, demand, coldStart))
    ensures SafePlan(v, rules, [EvictionAction(e, target)])
  {
    hide KeepScore, HasExcess, Allows, ArtifactRefreshable, ArtifactReady, Runs, EqualFold, Occupied, EffectiveMax, SafePlan, CountsAre;
    CanUnloadMeans(v, rules, counts, e.0, e.1, target);
    OneActionPlan(v, rules, EvictionAction(e, target));
  }

  /** Higher priority first, then by name. */
  function MoreUrgent(rules: Rules): (string, string) -> bool {
    (a: string, b: string) =>
      if SizingOf(rules, a).priority != SizingOf(rules, b).priority
          then SizingOf(rules, a).priority > SizingOf(rules, b).priority else TextLess(a, b)
  }

  lemma MoreUrgentIsWeak(rules: Rules)
    ensures WeakOrder(MoreUrgent(rules))
  {
    forall a: string, b: string ensures MoreUrgent(rules)(a, b) ==> !MoreUrgent(rules)(b, a) {
      TextLessTotal(a, b);
    }
    forall a: string, b: string, c: string | !MoreUrgent(rules)(b, a) && !MoreUrgent(rules)(c, b) ensures !MoreUrgent(rules)(c, a) {
      if !TextLess(b, a) && !TextLess(c, b) {
        TextLessWeak(a, b, c);
      }
    }
  }

  /** All models once, by falling priority, then by name. */
  ghost predicate OrderOf(rules: Rules, order: seq<string>) {
    (forall m :: m in order <==> m in rules.models) && Distinct(order) && Ordered(order, MoreUrgent(rules))
  }

  method ModelNamesByPriority(rules: Rules) returns (order: seq<string>)
    ensures OrderOf(rules, order)
  {
    var names: seq<string> := [];
    var todo := rules.models.Keys;
    while todo != {}
      invariant todo <= rules.models.Keys && Distinct(names)
      invariant forall m :: m in names <==> m in rules.models.Keys - todo
    {
      var name :| name in todo;
      todo := todo - {name};
      assert forall k :: 0 <= k < |names| ==> names[k] in names;
      names := names + [name];
    }
    MoreUrgentIsWeak(rules);
    SortByPermutes(names, MoreUrgent(rules));
    SortByDistinct(names, MoreUrgent(rules));
    SortByOrders(names, MoreUrgent(rules));
    order := SortBy(names, MoreUrgent(rules));
  }

  function Demand(v: View, counts: map<string, nat>, pressure: Pressure, model: string): int {
    pressure.score(model, CountAt(counts, model), Occupied(v, v.workers, model), ActiveReady(v, v.workers, model))
  }

  /** Requests found nothing ready, and nothing is loading either. */
  predicate ColdStart(v: View, counts: map<string, nat>, pressure: Pressure, model: string) {
    pressure.noReady(model) > 0 && CountAt(counts, model) == 0 && Occupied(v, v.workers, model) == 0
  }

  /** Below its ceiling, none of its replicas still loading, and in demand. */
  predicate Wants(v: View, rules: Rules, counts: map<string, nat>, pressure: Pressure, model: string)
    requires model in rules.models
  {
    && Occupied(v, v.workers, model) < EffectiveMax(v, rules, model) && Occupied(v, v.workers, model) <= CountAt(counts, model)
    && Demand(v, counts, pressure, model) >= MIN_SCALE_OUT_SCORE
  }

  ghost predicate NoRoom(v: View, rules: Rules, model: string, taken: set<string>) {
    forall w <- v.workers :: !EmptyWarm(v, rules, model, taken, w)
  }

  function DemandEntries(v: View, rules: Rules, counts: map<string, nat>, pressure: Pressure,
                         model: string): set<Entry> {
    Entries(v.workers, Donors(v, rules, model),
            DemandVictims(v, rules, counts, model, Demand(v, counts, pressure, model), ColdStart(v, counts, pressure, model)))
  }

  /** No empty worker could take it, and nothing is worth evicting for it. */
  ghost predicate Unserved(v: View, rules: Rules, counts: map<string, nat>, pressure: Pressure, model: string) {
    NoRoom(v, rules, model, {}) && DemandEntries(v, rules, counts, pressure, model) == {}
  }

  /** The first empty worker by name, or the least entry worth evicting. */
  ghost predicate Serves(v: View, rules: Rules, counts: map<string, nat>, pressure: Pressure, model: string,
                         a: Action) {
    if NoRoom(v, rules, model, {})
    then exists e: Entry :: LeastBy(DemandEntries(v, rules, counts, pressure, model),
        Some(e), KeepLess(v, rules, counts)) && a == EvictionAction(e, model)
    else
      && a == Warm(a.worker, model, None) && a.worker in v.workers && EmptyWarm(v, rules, model, {}, a.worker)
      && forall w <- v.workers :: EmptyWarm(v, rules, model, {}, w) ==> !TextLess(w.id, a.worker.id)
  }

  /** The most urgent model that wants a replica and can be served gets it. */
  ghost predicate DemandOutcome(v: View, rules: Rules, counts: map<string, nat>, pressure: Pressure, order: seq<string>,
                                r: Option<Action>)
    requires forall m <- order :: m in rules.models
  {
    if r.None? then forall k ::
        0 <= k < |order| && Wants(v, rules, counts, pressure, order[k]) ==> Unserved(v, rules, counts, pressure, order[k])
    else exists i :: ServedFirst(v, rules, counts, pressure, order, i, r.value)
  }

  ghost predicate ServedFirst(v: View, rules: Rules, counts: map<string, nat>, pressure: Pressure, order: seq<string>,
                              i: int, a: Action)
    requires forall m <- order :: m in rules.models
  {
    && 0 <= i < |order| && Wants(v, rules, counts, pressure, order[i]) && Serves(v, rules, counts, pressure, order[i], a)
    && forall k :: 0 <= k < i && Wants(v, rules, counts, pressure, order[k]) ==> Unserved(v, rules, counts, pressure, order[k])
  }

  /** `order` lists the models by falling priority. */
  method PlanWarmAction(v: View, rules: Rules, counts: map<string, nat>, order: seq<string>,
                        pressure: Pressure) returns (r: Option<Action>)
    requires CountsAre(counts, v) && forall m <- order :: m in rules.models
    ensures r.Some? ==> SafePlan(v, rules, [r.value])
    ensures DemandOutcome(v, rules, counts, pressure, order, r)
  {
    hide CountsAre, SafePlan, Entries, LeastBy, EffectiveMax, Occupied, ActiveReady,
        EmptyWarm, WarmEligible, Donors, DemandVictims, KeepLess, TextLess, EvictionAction;
    for i := 0 to |order|
      invariant forall k :: 0 <= k < i && Wants(v, rules, counts, pressure, order[k]) ==> Unserved(v, rules, counts, pressure, order[k])
    {
      var model := order[i];
      var ready := CountAt(counts, model);
      var occupied := CountOccupied(v, model);
      var maxLoaded, _ := ComputeEffectiveMax(v, rules, model);
      if maxLoaded <= 0 || occupied >= maxLoaded {
        continue;
      }
      if occupied > ready {
        continue;
      }
      var coldStart := pressure.noReady(model) > 0 && ready == 0 && occupied == 0;
      var active := ActiveForReady(v, model);
      var demand := pressure.score(model, ready, occupied, active);
      if demand < MIN_SCALE_OUT_SCORE {
        continue;
      }
      var w := PickEmptyWarmWorkerExcluding(v, rules, model, {});
      if w.Some? {
        EmptyWarmIsSafe(v, rules, model, w.value);
        assert ServedFirst(v, rules, counts, pressure, order, i, Warm(w.value, model, None));
        return Some(Warm(w.value, model, None));
      }
      r := PlanWarmEviction(v, rules, counts, model, demand, coldStart);
      if r.Some? {
        assert ServedFirst(v, rules, counts, pressure, order, i, r.value);
        return;
      }
    }
    r := None;
  }

  lemma EmptyWarmIsSafe(v: View, rules: Rules, model: string, w: Worker)
    requires w in v.workers && EmptyWarm(v, rules, model, {}, w) && model in rules.models
    requires Occupied(v, v.workers, model) < EffectiveMax(v, rules, model)
    ensures SafePlan(v, rules, [Warm(w, model, None)])
  {
    OneActionPlan(v, rules, Warm(w, model, None));
  }

  /** Requests on the workers that have the model ready. */
  function ActiveReady(v: View, ws: seq<Worker>, model: string): nat {
    if ws == [] then 0
    else ActiveReady(v, ws[..|ws| - 1], model) + if ReadyOn(ws[|ws| - 1], model) then ActiveOn(v, ws[|ws| - 1].id) else 0
  }

  method ActiveForReady(v: View, model: string) returns (total: nat)
    ensures total == ActiveReady(v, v.workers, model)
  {
    hide ReadyOn;
    total := 0;
    for i := 0 to |v.workers|
      invariant total == ActiveReady(v, v.workers[..i], model)
    {
      assert v.workers[..i + 1][..i] == v.workers[..i];
      if ReadyOn(v.workers[i], model) {
        total := total + ActiveOn(v, v.workers[i].id);
      }
    }
    assert v.workers[..|v.workers|] == v.workers;
  }

  // ----- Floors -----

  /** Below its floor, with room under its ceiling. */
  predicate Short(v: View, rules: Rules, model: string)
    requires model in rules.models
  {
    && 0 < rules.models[model].minLoaded && Occupied(v, v.workers, model) < rules.models[model].minLoaded
    && Occupied(v, v.workers, model) < EffectiveMax(v, rules, model)
  }

  /** Floor or ceiling, whichever is lower. */
  function Target(v: View, rules: Rules, model: string): int
    requires model in rules.models
  {
    if rules.models[model].minLoaded < EffectiveMax(v, rules, model)
        then rules.models[model].minLoaded else EffectiveMax(v, rules, model)
  }

  function FloorEntries(v: View, rules: Rules, counts: map<string, nat>, model: string): set<Entry> {
    Entries(v.workers, FloorDonors(v, rules, model), FloorVictims(v, rules, counts, model))
  }

  /** No empty worker could take it and there is no victim for it. */
  ghost predicate Starved(v: View, rules: Rules, counts: map<string, nat>, model: string) {
    NoRoom(v, rules, model, {}) && FloorEntries(v, rules, counts, model) == {}
  }

  function WorkerIds(actions: seq<Action>): set<string> {
    set a <- actions :: a.worker.id
  }

  predicate FillsFloor(v: View, rules: Rules, a: Action) {
    a.Warm? && a.victim.None? && ActionOk(v, rules, a) && a.model in rules.models && Short(v, rules, a.model)
  }

  /** Warm-ups planned for floors so far; models after the first `done` have none yet. */
  ghost predicate FloorPlan(v: View, rules: Rules, actions: seq<Action>, reserved: set<string>, order: seq<string>,
                            done: nat)
    requires done <= |order|
  {
    && (forall a <- actions :: FillsFloor(v, rules, a))
    && reserved == WorkerIds(actions) && Apart(actions) && WithinCeilings(v, rules, actions)
    && (forall k :: done <= k < |order| ==> Warms(actions, order[k]) == 0)
  }

  /** A short model has reached its target, or no worker is left for it. */
  ghost predicate Filled(v: View, rules: Rules, actions: seq<Action>, model: string)
    requires model in rules.models
  {
    Short(v, rules, model) ==>
      Occupied(v, v.workers, model) + Warms(actions, model) == Target(v, rules, model) || NoRoom(v, rules, model, WorkerIds(actions))
  }

  lemma FloorPlanIsSafe(v: View, rules: Rules, actions: seq<Action>, reserved: set<string>, order: seq<string>,
                        done: nat)
    requires done <= |order| && FloorPlan(v, rules, actions, reserved, order, done)
    ensures SafePlan(v, rules, actions)
  {
    hide Short, ActionOk;
  }

  lemma OneMoreWarm(v: View, rules: Rules, actions: seq<Action>, reserved: set<string>, order: seq<string>, i: nat,
                    w: Worker)
    requires i < |order| && order[i] in rules.models && (forall j :: i < j < |order| ==> order[j] != order[i])
    requires FloorPlan(v, rules, actions, reserved, order, i + 1) && Short(v, rules, order[i])
    requires w in v.workers && EmptyWarm(v, rules, order[i], reserved, w)
    requires Occupied(v, v.workers, order[i]) + Warms(actions, order[i]) < EffectiveMax(v, rules, order[i])
    ensures FloorPlan(v, rules, actions + [Warm(w, order[i], None)], reserved + {w.id}, order, i + 1)
    ensures forall model: string ::
        Warms(actions + [Warm(w, order[i], None)], model) == Warms(actions, model) + if model == order[i] then 1 else 0
  {
    var a := Warm(w, order[i], None);
    assert FillsFloor(v, rules, a) && w.id !in reserved;
    hide FillsFloor, ActionOk, Occupied, EffectiveMax, EmptyWarm, Short, Warms, Apart, WorkerIds, WithinCeilings;
    CeilingsOneMore(v, rules, actions, a);
    WarmsOneMore(actions, a);
    ApartOneMore(actions, a);
  }

  lemma CeilingsOneMore(v: View, rules: Rules, actions: seq<Action>, a: Action)
    requires a.Warm? && a.model in rules.models && WithinCeilings(v, rules, actions)
    requires Occupied(v, v.workers, a.model) + Warms(actions, a.model) < EffectiveMax(v, rules, a.model)
    ensures WithinCeilings(v, rules, actions + [a])
  {
    WarmsOneMore(actions, a);
    hide Occupied, EffectiveMax, Warms;
  }

  lemma WarmsOneMore(actions: seq<Action>, a: Action)
    requires a.Warm?
    ensures forall model: string :: Warms(actions + [a], model) == Warms(actions, model) + if model == a.model then 1 else 0
  {
    assert (actions + [a])[..|actions|] == actions;
  }

  lemma ApartOneMore(actions: seq<Action>, a: Action)
    requires Apart(actions) && a.worker.id !in WorkerIds(actions)
    ensures Apart(actions + [a]) && WorkerIds(actions + [a]) == WorkerIds(actions) + {a.worker.id}
  {
    var more := actions + [a];
    forall k, j | 0 <= k < j < |more| ensures more[k].worker.id != more[j].worker.id {
      if j == |actions| {
        assert actions[k] in actions;
      }
    }
  }

  /** What is filled stays filled while workers are taken for a later model. */
  lemma StaysFilled(v: View, rules: Rules, actions: seq<Action>, a: Action, model: string)
    requires model in rules.models && Filled(v, rules, actions, model) && !(a.Warm? && a.model == model)
    ensures Filled(v, rules, actions + [a], model)
  {
    var more := actions + [a];
    assert more[..|actions|] == actions;
    assert WorkerIds(actions) <= WorkerIds(more);
    hide Short, Target, Occupied, WarmEligible, WorkerIds;
  }

  /** One model below its floor: empty workers are warmed up until the floor or the ceiling is reached. */
  method FillFloor(v: View, rules: Rules, order: seq<string>, i: nat, start: seq<Action>, busy: set<string>, count: nat,
                   targetCount: int)
    returns (actions: seq<Action>, reserved: set<string>, occupied: nat)
    requires i < |order| && order[i] in rules.models && Distinct(order)
    requires FloorPlan(v, rules, start, busy, order, i) && count == Occupied(v, v.workers, order[i])
    requires Short(v, rules, order[i]) && targetCount == Target(v, rules, order[i])
    requires forall k :: 0 <= k < i ==> order[k] in rules.models && Filled(v, rules, start, order[k])
    ensures FloorPlan(v, rules, actions, reserved, order, i + 1)
    ensures forall k :: 0 <= k <= i ==> order[k] in rules.models && Filled(v, rules, actions, order[k])
    ensures occupied == count + Warms(actions, order[i]) && |start| <= |actions|
    ensures occupied < targetCount ==> NoRoom(v, rules, order[i], reserved)
  {
    actions, reserved, occupied := start, busy, count;
    WeakenFloorPlan(v, rules, start, busy, order, i);
    TargetIsAhead(v, rules, order[i]);
    hide FloorPlan, Filled, EmptyWarm, Occupied, EffectiveMax, Warms, Short, Target;
    while occupied < targetCount
      invariant FloorPlan(v, rules, actions, reserved, order, i + 1) && |start| <= |actions|
      invariant forall k :: 0 <= k < i ==> Filled(v, rules, actions, order[k])
      invariant occupied == count + Warms(actions, order[i]) && occupied <= targetCount
      decreases targetCount - occupied
    {
      var w := PickEmptyWarmWorkerExcluding(v, rules, order[i], reserved);
      if w.None? {
        FilledNow(v, rules, actions, reserved, order, i);
        return;
      }
      OneMoreWarm(v, rules, actions, reserved, order, i, w.value);
      forall k | 0 <= k < i ensures Filled(v, rules, actions + [Warm(w.value, order[i], None)], order[k]) {
        StaysFilled(v, rules, actions, Warm(w.value, order[i], None), order[k]);
      }
      actions, reserved, occupied := actions + [Warm(w.value, order[i], None)], reserved + {w.value.id}, occupied + 1;
    }
    FilledNow(v, rules, actions, reserved, order, i);
  }

  lemma TargetIsAhead(v: View, rules: Rules, model: string)
    requires model in rules.models && Short(v, rules, model)
    ensures Occupied(v, v.workers, model) < Target(v, rules, model) <= EffectiveMax(v, rules, model)
  {
  }

  lemma FilledNow(v: View, rules: Rules, actions: seq<Action>, reserved: set<string>, order: seq<string>, i: nat)
    requires i < |order| && order[i] in rules.models && FloorPlan(v, rules, actions, reserved, order, i + 1)
    requires Occupied(v, v.workers, order[i]) + Warms(actions, order[i]) == Target(v, rules, order[i])
        || NoRoom(v, rules, order[i], reserved)
    ensures Filled(v, rules, actions, order[i])
  {
    hide Short, Target, Occupied, ActionOk, NoRoom;
  }

  lemma WeakenFloorPlan(v: View, rules: Rules, actions: seq<Action>, reserved: set<string>, order: seq<string>, i: nat)
    requires i < |order| && FloorPlan(v, rules, actions, reserved, order, i)
    ensures FloorPlan(v, rules, actions, reserved, order, i + 1) && Warms(actions, order[i]) == 0
  {
    hide Short, ActionOk;
  }

  /** The first short model that nothing could be warmed for and that has a victim; short ones before it are starved. */
  ghost predicate FreedFirst(v: View, rules: Rules, counts: map<string, nat>, order: seq<string>, i: int, a: Action)
    requires forall m <- order :: m in rules.models
  {
    && 0 <= i < |order| && Short(v, rules, order[i]) && NoRoom(v, rules, order[i], {})
    && (exists e: Entry :: LeastBy(FloorEntries(v, rules, counts, order[i]), Some(e), FloorLess(v, rules)) && a == Unload(e.0, e.1.model))
    && forall k :: 0 <= k < i && Short(v, rules, order[k]) ==> Starved(v, rules, counts, order[k])
  }

  /** Floors go before demand, warming before unloading, and nothing that can be done for a floor is left. */
  ghost predicate Outcome(v: View, rules: Rules, counts: map<string, nat>, pressure: Pressure, order: seq<string>,
                          actions: seq<Action>)
    requires forall m <- order :: m in rules.models
  {
    if !exists k :: 0 <= k < |order| && Short(v, rules, order[k]) then
      |actions| <= 1 && DemandOutcome(v, rules, counts, pressure, order, if actions == [] then None else Some(actions[0]))
    else if actions == [] then forall k :: 0 <= k < |order| && Short(v, rules, order[k]) ==> Starved(v, rules, counts, order[k])
    else if actions[0].Unload? then |actions| == 1 && exists i :: FreedFirst(v, rules, counts, order, i, actions[0])
    else
      && (forall a <- actions :: a.Warm? && a.victim.None? && a.model in rules.models && Short(v, rules, a.model))
      && forall k :: 0 <= k < |order| ==> Filled(v, rules, actions, order[k])
  }

  /** The loop so far, while nothing has been returned. */
  ghost predicate FloorsDone(v: View, rules: Rules, counts: map<string, nat>, order: seq<string>, done: nat,
                             actions: seq<Action>, reserved: set<string>, short: bool)
    requires done <= |order| && forall m <- order :: m in rules.models
  {
    && FloorPlan(v, rules, actions, reserved, order, done)
    && (short <==> exists k :: 0 <= k < done && Short(v, rules, order[k]))
    && (forall k :: 0 <= k < done ==> Filled(v, rules, actions, order[k]))
    && (actions == [] ==> forall k :: 0 <= k < done && Short(v, rules, order[k]) ==> Starved(v, rules, counts, order[k]))
  }

  /** Floors in order, then demand. */
  method PlanInOrder(v: View, rules: Rules, counts: map<string, nat>, order: seq<string>,
                     pressure: Pressure) returns (actions: seq<Action>)
    requires CountsAre(counts, v) && OrderOf(rules, order)
    ensures SafePlan(v, rules, actions) && Outcome(v, rules, counts, pressure, order, actions)
  {
    var underloadedFloor := false;
    var reserved: set<string> := {};
    actions := [];
    NoFloorPlan(v, rules, order);
    hide CountsAre, FloorPlan, SafePlan, Occupied, EffectiveMax, Warms, LeastBy, Entries,
        MoreUrgent, Ordered, NoRoom, Filled, DemandOutcome, FloorLess, FloorDonors, FloorVictims;
    for i := 0 to |order|
      invariant FloorsDone(v, rules, counts, order, i, actions, reserved, underloadedFloor)
    {
      var model := order[i];
      var s := rules.models[model];
      WeakenFloorPlan(v, rules, actions, reserved, order, i);
      NotShortIsFilled(v, rules, actions, model);
      if s.minLoaded <= 0 {
        continue;
      }
      var count := CountOccupied(v, model);
      if count >= s.minLoaded {
        continue;
      }
      var maxLoaded, _ := ComputeEffectiveMax(v, rules, model);
      if maxLoaded <= 0 || count >= maxLoaded {
        continue;
      }
      underloadedFloor := true;
      var targetCount := if s.minLoaded < maxLoaded then s.minLoaded else maxLoaded;
      assert Short(v, rules, model);
      var occupied: nat;
      ghost var before := actions;
      actions, reserved, occupied := FillFloor(v, rules, order, i, actions, reserved, count, targetCount);
      NoWarmsNoRoom(v, rules, actions, reserved, order, i, occupied, targetCount);
      if occupied >= targetCount || |actions| > 0 {
        continue;
      }
      var victim := PickEvictionVictimForModel(v, rules, counts, model);
      if victim.None? {
        NoVictimMeans(v, rules, counts, model);
        continue;
      }
      FloorVictimIsSafe(v, rules, counts, model, victim.value);
      actions := [Unload(victim.value.0, victim.value.1.model)];
      assert FreedFirst(v, rules, counts, order, i, actions[0]);
      return;
    }
    FloorPlanIsSafe(v, rules, actions, reserved, order, |order|);
    if |actions| > 0 {
      WarmsAreForShort(v, rules, actions, reserved, order);
      return;
    }
    if underloadedFloor {
      return;
    }
    var action := PlanWarmAction(v, rules, counts, order, pressure);
    if action.Some? {
      actions := [action.value];
    }
  }

  /** Every plan is safe and does what can be done, for any snapshot and configuration. */
  method PlanControlActions(v: View, rules: Rules, pressure: Pressure)
    returns (actions: seq<Action>, ghost order: seq<string>, ghost counts: map<string, nat>)
    ensures OrderOf(rules, order) && CountsAre(counts, v)
    ensures SafePlan(v, rules, actions) && Outcome(v, rules, counts, pressure, order, actions)
  {
    hide *;
    var loadedCounts := RunningModelCounts(v);
    var models := ModelNamesByPriority(rules);
    counts, order := loadedCounts, models;
    actions := PlanInOrder(v, rules, loadedCounts, models, pressure);
  }

  lemma NotShortIsFilled(v: View, rules: Rules, actions: seq<Action>, model: string)
    requires model in rules.models
    ensures !Short(v, rules, model) ==> Filled(v, rules, actions, model)
  {
    hide Short;
  }

  lemma NoWarmsNoRoom(v: View, rules: Rules, actions: seq<Action>, reserved: set<string>, order: seq<string>, i: nat,
                      occupied: nat, targetCount: int)
    requires i < |order| && order[i] in rules.models && FloorPlan(v, rules, actions, reserved, order, i + 1)
    requires Short(v, rules, order[i]) && targetCount == Target(v, rules, order[i])
    requires occupied == Occupied(v, v.workers, order[i]) + Warms(actions, order[i])
    requires (occupied < targetCount ==> NoRoom(v, rules, order[i], reserved))
    ensures actions == [] ==> occupied < targetCount && NoRoom(v, rules, order[i], {})
  {
    TargetIsAhead(v, rules, order[i]);
    hide Short, Target, Occupied, ActionOk, NoRoom;
  }

  lemma NoVictimMeans(v: View, rules: Rules, counts: map<string, nat>, model: string)
    requires LeastBy(Entries(v.workers, FloorDonors(v, rules, model), FloorVictims(v, rules, counts, model)), None, FloorLess(v, rules))
    ensures FloorEntries(v, rules, counts, model) == {}
  {
  }

  lemma WarmsAreForShort(v: View, rules: Rules, actions: seq<Action>, reserved: set<string>, order: seq<string>)
    requires FloorPlan(v, rules, actions, reserved, order, |order|) && actions != [] && OrderOf(rules, order)
    ensures forall a <- actions :: a.Warm? && a.victim.None? && a.model in rules.models && Short(v, rules, a.model)
    ensures exists k :: 0 <= k < |order| && Short(v, rules, order[k])
  {
    hide Short, ActionOk, Ordered, MoreUrgent;
    var a := actions[0];
    assert FillsFloor(v, rules, a);
    assert a.model in order;
    var k :| 0 <= k < |order| && order[k] == a.model;
    assert Short(v, rules, order[k]);
  }

  lemma NoFloorPlan(v: View, rules: Rules, order: seq<string>)
    ensures FloorPlan(v, rules, [], {}, order, 0)
  {
  }

  lemma FloorVictimIsSafe(v: View, rules: Rules, counts: map<string, nat>, target: string, e: Entry)
    requires CountsAre(counts, v)
    requires LeastBy(Entries(v.workers, FloorDonors(v, rules, target), FloorVictims(v, rules, counts, target)),
        Some(e), FloorLess(v, rules))
    ensures SafePlan(v, rules, [Unload(e.0, e.1.model)])
  {
    assert FloorDonor(v, rules, target, e.0) && IsVictim(v, rules, counts, target, e.1);
    CanUnloadMeans(v, rules, counts, e.0, e.1, target);
    OneActionPlan(v, rules, Unload(e.0, e.1.model));
  }

  // ----- What an empty plan says -----

  predicate Idle(v: View, w: Worker) {
    w.id in v.active ==> v.active[w.id] == 0
  }

  predicate AllowedByTag(rules: Rules, w: Worker, model: string) {
    exists tag <- w.tags :: tag in rules.allowed && model in rules.allowed[tag]
  }

  /** A worker is free to be warmed up when it is healthy, idle, allowed, not cooling down, empty and has the artifact. */
  predicate FreeFor(v: View, rules: Rules, model: string, w: Worker) {
    && w.id in v.healthy && Idle(v, w) && AllowedByTag(rules, w, model) && (w.id, model) !in v.cooling
    && w.running == [] && model in w.artifacts && SaysReady(w.artifacts[model])
  }

  lemma FreeForExactly(v: View, rules: Rules, model: string, w: Worker)
    ensures EmptyWarm(v, rules, model, {}, w) <==> FreeFor(v, rules, model, w)
  {
    ReadyFolds(Status(w, model));
    assert SaysReady(Status(w, model)) ==> model in w.artifacts;
    hide EqualFold, SaysReady;
  }

  /** A ready replica of another model that is not protected and not needed for a floor. */
  predicate Spare(v: View, rules: Rules, model: string, r: Running) {
    && SaysReady(r.state) && r.model != model && (r.protectedUntil == 0 || r.protectedUntil <= v.now)
    && (r.model in rules.models && rules.models[r.model].minLoaded != 0 ==>
          |Replicas(v, v.workers, r.model)| > rules.models[r.model].minLoaded)
  }

  lemma SpareExactly(v: View, rules: Rules, counts: map<string, nat>, model: string, r: Running)
    requires CountsAre(counts, v)
    ensures IsVictim(v, rules, counts, model, r) <==> Spare(v, rules, model, r)
  {
    ReadyFolds(r.state);
    LoadedCounts(v, v.workers, r.model);
    assert CountAt(counts, r.model) == Loaded(v, v.workers, r.model);
    hide EqualFold, SaysReady, CountsAre;
  }

  /** Fewer workers list the model than its floor and its ceiling ask for. */
  predicate BelowFloor(v: View, rules: Rules, model: string) {
    && model in rules.models
    && Occupied(v, v.workers, model) < rules.models[model].minLoaded && Occupied(v, v.workers, model) < EffectiveMax(v, rules, model)
  }

  /** Where the model could be put at the cost of another. */
  predicate CanMakeRoom(v: View, rules: Rules, model: string, w: Worker) {
    Idle(v, w) && AllowedByTag(rules, w, model) && SaysRefreshable(w, model)
  }

  /**
   When nothing is planned, no worker is free for a model below its floor, and none that could
   make room for it has a replica to spare.
   */
  lemma EmptyPlanFloors(v: View, rules: Rules, counts: map<string, nat>, pressure: Pressure, order: seq<string>,
                        model: string, w: Worker)
    requires OrderOf(rules, order) && CountsAre(counts, v) && Outcome(v, rules, counts, pressure, order, [])
    requires BelowFloor(v, rules, model) && w in v.workers
    ensures !FreeFor(v, rules, model, w)
    ensures CanMakeRoom(v, rules, model, w) && !FirstSaysReady(w.running, model) ==> forall r <- w.running :: !Spare(v, rules, model, r)
  {
    FreeForExactly(v, rules, model, w);
    FirstStateExactly(w.running, model);
    RefreshableExactly(w, model);
    var k :| 0 <= k < |order| && order[k] == model;
    assert Short(v, rules, order[k]);
    hide Short, FreeFor, EmptyWarm, Ordered, MoreUrgent, DemandOutcome, ArtifactRefreshable, SaysRefreshable, FirstSaysReady,
        FirstState, EqualFold, CountsAre;
    assert Starved(v, rules, counts, model);
    forall r <- w.running | CanMakeRoom(v, rules, model, w) && !FirstSaysReady(w.running, model) ensures !Spare(v, rules, model, r) {
      SpareExactly(v, rules, counts, model, r);
      assert (w, r) !in FloorEntries(v, rules, counts, model);
      hide IsVictim, Spare;
      assert FloorDonor(v, rules, model, w);
    }
  }

  /**
   Then, with no model below its floor, no worker is free for a model in demand, and none that
   could make room for it has a spare replica that is worth less, or one at all when requests
   find nothing ready or loading.
   */
  lemma EmptyPlanDemand(v: View, rules: Rules, counts: map<string, nat>, pressure: Pressure, order: seq<string>,
                        model: string, w: Worker)
    requires OrderOf(rules, order) && CountsAre(counts, v) && Outcome(v, rules, counts, pressure, order, [])
    requires model in rules.models && w in v.workers && forall m: string :: !BelowFloor(v, rules, m)
    requires var ready, occupied := |Replicas(v, v.workers, model)|, Occupied(v, v.workers, model);
             occupied <= ready && occupied < EffectiveMax(v, rules, model)
             && pressure.score(model, ready, occupied, ActiveReady(v, v.workers, model)) >= 120
    ensures !FreeFor(v, rules, model, w)
    ensures CanMakeRoom(v, rules, model, w) && w.id in v.healthy && (w.id, model) !in v.cooling
            && (forall r <- w.running :: r.model != model) ==>
              forall r <- w.running | Spare(v, rules, model, r) ::
                pressure.score(model, |Replicas(v, v.workers, model)|, Occupied(v, v.workers, model), ActiveReady(v, v.workers, model))
                <= KeepScore(v, rules, counts, w, r) + 80
                && !(pressure.noReady(model) > 0 && Replicas(v, v.workers, model) == {} && Occupied(v, v.workers, model) == 0)
  {
    DemandIsUnserved(v, rules, counts, pressure, order, model);
    FreeForExactly(v, rules, model, w);
    FirstStateExactly(w.running, model);
    RefreshableExactly(w, model);
    LoadedCounts(v, v.workers, model);
    assert CountAt(counts, model) == Loaded(v, v.workers, model);
    hide FreeFor, EmptyWarm, OrderOf, Outcome, ArtifactRefreshable, SaysRefreshable, FirstSaysReady, ColdStart,
        FirstState, EqualFold, CountsAre, KeepScore, HasExcess, IsVictim, Spare, Loaded, Replicas, Occupied, EffectiveMax, ActiveReady;
    if CanMakeRoom(v, rules, model, w) && w.id in v.healthy && (w.id, model) !in v.cooling && (forall r <- w.running :: r.model != model) {
      assert EvictionEligible(v, rules, w, model);
      forall r <- w.running | Spare(v, rules, model, r)
        ensures Demand(v, counts, pressure, model) <= KeepScore(v, rules, counts, w, r) + 80
        ensures !ColdStart(v, counts, pressure, model)
      {
        SpareIsExcess(v, rules, counts, model, w, r);
        SpareExactly(v, rules, counts, model, r);
        assert (w, r) !in DemandEntries(v, rules, counts, pressure, model);
      }
    }
  }

  lemma SpareIsExcess(v: View, rules: Rules, counts: map<string, nat>, model: string, w: Worker, r: Running)
    requires CountsAre(counts, v) && w in v.workers && w.id in v.healthy && r in w.running && Spare(v, rules, model, r)
    ensures HasExcess(rules, counts, r.model)
  {
    LoadedCounts(v, v.workers, r.model);
    assert CountAt(counts, r.model) == Loaded(v, v.workers, r.model);
    hide CountsAre, Loaded, SaysReady;
    var i: nat :| i < |v.workers| && v.workers[i] == w;
    var j: nat :| j < |w.running| && w.running[j] == r;
    assert (i, j) in Replicas(v, v.workers, r.model);
  }

  lemma DemandIsUnserved(v: View, rules: Rules, counts: map<string, nat>, pressure: Pressure, order: seq<string>,
                         model: string)
    requires OrderOf(rules, order) && CountsAre(counts, v) && Outcome(v, rules, counts, pressure, order, [])
    requires model in rules.models && forall m: string :: !BelowFloor(v, rules, m)
    requires var ready, occupied := |Replicas(v, v.workers, model)|, Occupied(v, v.workers, model);
             occupied <= ready && occupied < EffectiveMax(v, rules, model)
             && pressure.score(model, ready, occupied, ActiveReady(v, v.workers, model)) >= 120
    ensures Unserved(v, rules, counts, pressure, model)
  {
    LoadedCounts(v, v.workers, model);
    assert CountAt(counts, model) == Loaded(v, v.workers, model);
    var k :| 0 <= k < |order| && order[k] == model;
    forall j | 0 <= j < |order| ensures !Short(v, rules, order[j]) {
      assert !BelowFloor(v, rules, order[j]);
    }
    hide Short, Ordered, MoreUrgent, CountsAre, Loaded, Replicas, Occupied, EffectiveMax, ActiveReady, Unserved;
    assert Wants(v, rules, counts, pressure, order[k]);
  }
}
