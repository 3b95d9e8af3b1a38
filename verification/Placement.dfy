/**
 Where requests go and which models are loaded where (`internal/gateway/placement.go`,
 `scheduler.go`, `runningModelCounts` in `reconcile.go`).

 `View` is one snapshot of the registry, its cooldowns and its access times. The demand score
 of a model is a parameter.
 */
module Placement {

  import opened Basics
  import opened Sorting

  const MIN_SCALE_OUT_SCORE := 120
  const SWITCH_COST := 80

  datatype Running = Running(model: string, state: string, protectedUntil: int)

  datatype Worker = Worker(id: string, tags: seq<string>, running: seq<Running>, artifacts: map<string, string>)

  datatype Sizing = Sizing(priority: int, minLoaded: int, maxLoaded: int, maxLoadedSet: bool)

  datatype Rules = Rules(models: map<string, Sizing>, allowed: map<string, seq<string>>)

  /** A missing access time is the zero time; `recent` are the accesses inside the pressure window. */
  datatype View = View(
    workers: seq<Worker>, healthy: set<string>, active: map<string, nat>, cooling: set<(string, string)>,
    access: map<(string, string), int>, recent: set<(string, string)>, now: int)

  // ----- Predicates on one worker -----

  /** Case folding as far as it can reach an ASCII letter. */
  function Fold(c: char): char {
    if 'A' <= c <= 'Z' then (c as int + 32) as char
    else if c == '\U{017F}' then 's' else if c == '\U{212A}' then 'k' else c
  }

  predicate EqualFold(s: string, t: string) {
    |s| == |t| && forall i :: 0 <= i < |s| ==> Fold(s[i]) == Fold(t[i])
  }

  function StateOf(w: Worker, model: string): Option<string> {
    FirstState(w.running, model)
  }

  function FirstState(running: seq<Running>, model: string): Option<string> {
    if running == [] then None else if running[0].model == model
        then Some(TrimSpace(running[0].state)) else FirstState(running[1..], model)
  }

  predicate Runs(w: Worker, model: string) {
    StateOf(w, model).Some?
  }

  predicate ReadyOn(w: Worker, model: string) {
    Runs(w, model) && EqualFold(StateOf(w, model).value, "ready")
  }

  predicate Allows(rules: Rules, w: Worker, model: string) {
    exists tag <- w.tags :: tag in rules.allowed && model in rules.allowed[tag]
  }

  function Status(w: Worker, model: string): string {
    if model in w.artifacts then w.artifacts[model] else ""
  }

  predicate ArtifactReady(w: Worker, model: string) {
    EqualFold(Status(w, model), "ready")
  }

  predicate ArtifactRefreshable(w: Worker, model: string) {
    EqualFold(Status(w, model), "ready") || EqualFold(Status(w, model), "stale_config")
  }

  function ActiveOn(v: View, id: string): nat {
    if id in v.active then v.active[id] else 0
  }

  /** Healthy, idle, allowed, not cooling down, and not running the model. */
  predicate MayTake(v: View, rules: Rules, w: Worker, model: string) {
    w.id in v.healthy && ActiveOn(v, w.id) == 0 && Allows(rules, w, model) && (w.id, model) !in v.cooling && !Runs(w, model)
  }

  predicate WarmEligible(v: View, rules: Rules, w: Worker, model: string) {
    MayTake(v, rules, w, model) && ArtifactReady(w, model)
  }

  predicate EvictionEligible(v: View, rules: Rules, w: Worker, model: string) {
    MayTake(v, rules, w, model) && ArtifactRefreshable(w, model)
  }

  /** Ready is said in capitals or small letters. */
  predicate SaysReady(s: string) {
    |s| == 5 && s[0] in "rR" && s[1] in "eE" && s[2] in "aA" && s[3] in "dD" && s[4] in "yY"
  }

  lemma ReadyFolds(s: string)
    ensures EqualFold(s, "ready") <==> SaysReady(s)
  {
    var t := "ready";
    assert t[0] == 'r' && t[1] == 'e' && t[2] == 'a' && t[3] == 'd' && t[4] == 'y';
    if |s| == 5 {
      FoldsTo(s[0], 'r', 'R');
      FoldsTo(s[1], 'e', 'E');
      FoldsTo(s[2], 'a', 'A');
      FoldsTo(s[3], 'd', 'D');
      FoldsTo(s[4], 'y', 'Y');
      var small, large := "ready", "READY";
      assert forall i :: 0 <= i < 5 ==> (Fold(s[i]) == Fold(t[i]) <==> s[i] == small[i] || s[i] == large[i]);
    }
  }

  lemma FoldsTo(c: char, small: char, large: char)
    requires small in {'r', 'e', 'a', 'd', 'y'} && large as int + 32 == small as int
    ensures Fold(c) == Fold(small) <==> c == small || c == large
  {
  }

  /** The first entry of the model decides, and blanks around its state do not. */
  predicate FirstSaysReady(running: seq<Running>, model: string) {
    exists k :: 0 <= k < |running| && FirstOf(running, model, k) && SaysReady(TrimSpace(running[k].state))
  }

  predicate FirstOf(running: seq<Running>, model: string, k: nat)
    requires k < |running|
  {
    running[k].model == model && forall j :: 0 <= j < k ==> running[j].model != model
  }

  lemma {:induction false} FirstStateExactly(running: seq<Running>, model: string)
    ensures FirstState(running, model).Some? && EqualFold(FirstState(running, model).value, "ready") <==> FirstSaysReady(running, model)
    ensures FirstState(running, model).Some? <==> exists r <- running :: r.model == model
  {
    hide EqualFold, SaysReady, TrimSpace;
    if running != [] {
      FirstStateExactly(running[1..], model);
      if running[0].model == model {
        ReadyFolds(TrimSpace(running[0].state));
        assert FirstOf(running, model, 0);
      } else {
        assert forall k :: 0 <= k < |running| - 1 ==> (FirstOf(running[1..], model, k) <==> FirstOf(running, model, k + 1));
        assert forall r :: r in running <==> r == running[0] || r in running[1..];
        if FirstSaysReady(running, model) {
          var k :| 0 <= k < |running| && FirstOf(running, model, k) && SaysReady(TrimSpace(running[k].state));
          assert k > 0 && FirstOf(running[1..], model, k - 1);
        }
        if FirstSaysReady(running[1..], model) {
          var k :| 0 <= k < |running| - 1 && FirstOf(running[1..], model, k) && SaysReady(TrimSpace(running[1..][k].state));
          assert FirstOf(running, model, k + 1) && running[k + 1] == running[1..][k];
        }
      }
    }
  }

  // ----- Counts -----

  /** Healthy workers that run the model in whatever state. */
  function Occupied(v: View, ws: seq<Worker>, model: string): nat {
    if ws == [] then 0
    else Occupied(v, ws[..|ws| - 1], model) + if ws[|ws| - 1].id in v.healthy && Runs(ws[|ws| - 1], model) then 1 else 0
  }

  /** Entries of the model that are exactly ready. */
  function ReadyEntries(running: seq<Running>, model: string): nat {
    if running == [] then 0
    else
      var last := running[|running| - 1];
      ReadyEntries(running[..|running| - 1], model) + if EqualFold(last.state, "ready") && last.model == model then 1 else 0
  }

  /** The loaded replicas the planner counts: ready entries on healthy workers. */
  function Loaded(v: View, ws: seq<Worker>, model: string): nat {
    if ws == [] then 0
    else
      var last := ws[|ws| - 1];
      Loaded(v, ws[..|ws| - 1], model) + if last.id in v.healthy then ReadyEntries(last.running, model) else 0
  }

  function Refreshable(v: View, rules: Rules, ws: seq<Worker>, model: string): nat {
    if ws == [] then 0
    else
      var last := ws[|ws| - 1];
      Refreshable(v, rules, ws[..|ws| - 1], model) +
      if last.id in v.healthy && Allows(rules, last, model) && ArtifactRefreshable(last, model) then 1 else 0
  }

  predicate MaxLoadedIsAuto(s: Sizing) {
    !s.maxLoadedSet && s.maxLoaded == 0
  }

  /** The configured ceiling, or the number of workers that could run the model. */
  function EffectiveMax(v: View, rules: Rules, model: string): int
    requires model in rules.models
  {
    var s := rules.models[model];
    if MaxLoadedIsAuto(s) then Refreshable(v, rules, v.workers, model)
    else if s.maxLoadedSet || s.maxLoaded > 0 then s.maxLoaded else 0
  }

  // ----- What the counts count -----

  function Places(ws: seq<Worker>, p: Worker -> bool): set<nat> {
    set i: nat | i < |ws| && p(ws[i])
  }

  lemma PlacesSnoc(ws: seq<Worker>, p: Worker -> bool)
    requires ws != []
    ensures |Places(ws, p)| == |Places(ws[..|ws| - 1], p)| + if p(ws[|ws| - 1]) then 1 else 0
  {
    var n := |ws| - 1;
    assert Places(ws, p) == Places(ws[..n], p) + if p(ws[n]) then {n} else {};
  }

  function Lists(v: View, model: string): Worker -> bool {
    (w: Worker) => w.id in v.healthy && exists r <- w.running :: r.model == model
  }

  /** A model occupies the healthy workers that list it. */
  lemma {:induction false} OccupiedCounts(v: View, ws: seq<Worker>, model: string)
    ensures Occupied(v, ws, model) == |Places(ws, Lists(v, model))|
    decreases |ws|
  {
    var p := Lists(v, model);
    if ws == [] {
      assert Places(ws, p) == {};
    } else {
      OccupiedCounts(v, ws[..|ws| - 1], model);
      PlacesSnoc(ws, p);
      FirstStateExactly(ws[|ws| - 1].running, model);
      hide FirstState, Places;
    }
  }

  predicate SaysRefreshable(w: Worker, model: string) {
    model in w.artifacts && (SaysReady(w.artifacts[model]) || EqualFold(w.artifacts[model], "stale_config"))
  }

  lemma RefreshableExactly(w: Worker, model: string)
    ensures ArtifactRefreshable(w, model) <==> SaysRefreshable(w, model)
  {
    ReadyFolds(Status(w, model));
    hide SaysReady;
  }

  lemma {:induction false} RefreshableCounts(v: View, rules: Rules, ws: seq<Worker>, model: string)
    ensures Refreshable(v, rules, ws, model) == |Places(ws, CouldRun(v, rules, model))|
    decreases |ws|
  {
    var p := CouldRun(v, rules, model);
    if ws == [] {
      assert Places(ws, p) == {};
    } else {
      RefreshableCounts(v, rules, ws[..|ws| - 1], model);
      PlacesSnoc(ws, p);
      RefreshableExactly(ws[|ws| - 1], model);
      hide ArtifactRefreshable, SaysRefreshable, Places;
    }
  }

  function CouldRun(v: View, rules: Rules, model: string): Worker -> bool {
    (w: Worker) =>
      && w.id in v.healthy && SaysRefreshable(w, model)
      && exists tag <- w.tags :: tag in rules.allowed && model in rules.allowed[tag]
  }

  /** A configured ceiling is the ceiling, and otherwise it is the number of workers that could run the model. */
  lemma CeilingExactly(v: View, rules: Rules, model: string)
    requires model in rules.models
    ensures var s := rules.models[model];
            EffectiveMax(v, rules, model) ==
            if s.maxLoadedSet || s.maxLoaded > 0 then s.maxLoaded
            else if s.maxLoaded == 0 then |Places(v.workers, CouldRun(v, rules, model))| else 0
  {
    RefreshableCounts(v, rules, v.workers, model);
  }

  /** The places in the list of workers, and in theirs of models, where the model is ready. */
  function Replicas(v: View, ws: seq<Worker>, model: string): set<(nat, nat)> {
    set i: nat, j: nat | i < |ws| && j < |ws[i].running| && ws[i].id in v.healthy && IsReplica(ws[i].running[j], model) :: (i, j)
  }

  predicate IsReplica(r: Running, model: string) {
    SaysReady(r.state) && r.model == model
  }

  function ReplicasOn(i: nat, running: seq<Running>, model: string): set<(nat, nat)> {
    set j: nat | j < |running| && IsReplica(running[j], model) :: (i, j)
  }

  lemma ReplicasOnSnoc(i: nat, running: seq<Running>, model: string)
    requires running != []
    ensures var n := |running| - 1;
            |ReplicasOn(i, running, model)| == |ReplicasOn(i, running[..n], model)| + if IsReplica(running[n], model) then 1 else 0
  {
    hide IsReplica;
    var n := |running| - 1;
    assert ReplicasOn(i, running, model) == ReplicasOn(i, running[..n], model) + if IsReplica(running[n], model) then {(i, n)} else {};
  }

  lemma {:induction false} ReadyEntriesCount(i: nat, running: seq<Running>, model: string)
    ensures ReadyEntries(running, model) == |ReplicasOn(i, running, model)|
    decreases |running|
  {
    if running == [] {
      assert ReplicasOn(i, running, model) == {};
    } else {
      var n := |running| - 1;
      ReadyEntriesCount(i, running[..n], model);
      ReadyFolds(running[n].state);
      hide SaysReady, EqualFold;
      ReplicasOnSnoc(i, running, model);
      hide ReplicasOn;
    }
  }

  lemma {:induction false} LoadedCounts(v: View, ws: seq<Worker>, model: string)
    ensures Loaded(v, ws, model) == |Replicas(v, ws, model)|
    decreases |ws|
  {
    hide IsReplica;
    if ws == [] {
      assert Replicas(v, ws, model) == {};
    } else {
      var n := |ws| - 1;
      LoadedCounts(v, ws[..n], model);
      ReadyEntriesCount(n, ws[n].running, model);
      var here := if ws[n].id in v.healthy then ReplicasOn(n, ws[n].running, model) else {};
      assert Replicas(v, ws, model) == Replicas(v, ws[..n], model) + here;
      assert Replicas(v, ws[..n], model) !! here;
    }
  }

  method CountOccupied(v: View, model: string) returns (count: nat)
    ensures count == Occupied(v, v.workers, model)
  {
    count := 0;
    for i := 0 to |v.workers|
      invariant count == Occupied(v, v.workers[..i], model)
    {
      hide Runs;
      assert v.workers[..i + 1][..i] == v.workers[..i];
      var w := v.workers[i];
      if w.id !in v.healthy {
        continue;
      }
      if Runs(w, model) {
        count := count + 1;
      }
    }
    assert v.workers[..|v.workers|] == v.workers;
  }

  method ComputeEffectiveMax(v: View, rules: Rules, model: string) returns (maxLoaded: int, auto: bool)
    requires model in rules.models
    ensures maxLoaded == EffectiveMax(v, rules, model) && auto == MaxLoadedIsAuto(rules.models[model])
  {
    var s := rules.models[model];
    if !MaxLoadedIsAuto(s) {
      return if s.maxLoadedSet || s.maxLoaded > 0 then s.maxLoaded else 0, false;
    }
    maxLoaded, auto := 0, true;
    for i := 0 to |v.workers|
      invariant maxLoaded == Refreshable(v, rules, v.workers[..i], model)
    {
      hide Allows, ArtifactRefreshable;
      assert v.workers[..i + 1][..i] == v.workers[..i];
      var w := v.workers[i];
      if w.id !in v.healthy {
        continue;
      }
      if Allows(rules, w, model) && ArtifactRefreshable(w, model) {
        maxLoaded := maxLoaded + 1;
      }
    }
    assert v.workers[..|v.workers|] == v.workers;
  }

  function CountAt(counts: map<string, nat>, model: string): nat {
    if model in counts then counts[model] else 0
  }

  ghost predicate CountsAre(counts: map<string, nat>, v: View) {
    forall model: string :: CountAt(counts, model) == Loaded(v, v.workers, model)
  }

  method RunningModelCounts(v: View) returns (counts: map<string, nat>)
    ensures CountsAre(counts, v)
  {
    counts := map[];
    for i := 0 to |v.workers|
      invariant forall model: string :: CountAt(counts, model) == Loaded(v, v.workers[..i], model)
    {
      hide EqualFold;
      var w := v.workers[i];
      assert v.workers[..i + 1][..i] == v.workers[..i];
      if w.id !in v.healthy {
        continue;
      }
      ghost var before := counts;
      for j := 0 to |w.running|
        invariant forall model: string :: CountAt(counts, model) == CountAt(before, model) + ReadyEntries(w.running[..j], model)
      {
        assert w.running[..j + 1][..j] == w.running[..j];
        var r := w.running[j];
        if EqualFold(r.state, "ready") {
          counts := counts[r.model := CountAt(counts, r.model) + 1];
        }
      }
      assert w.running[..|w.running|] == w.running;
    }
    assert v.workers[..|v.workers|] == v.workers;
  }

  // ----- Picking a ready worker -----

  predicate Candidate(v: View, rules: Rules, model: string, exclude: set<string>, w: Worker) {
    && w.id !in exclude && w.id in v.healthy && Allows(rules, w, model) && ArtifactReady(w, model)
    && (w.id, model) !in v.cooling && ReadyOn(w, model)
  }

  /** Healthy, not tried yet, allowed by a tag, with the artifact and the model ready, and not cooling down. */
  lemma CandidateExactly(v: View, rules: Rules, model: string, exclude: set<string>, w: Worker)
    ensures Candidate(v, rules, model, exclude, w) <==>
            && w.id !in exclude && w.id in v.healthy && (w.id, model) !in v.cooling
            && (exists tag <- w.tags :: tag in rules.allowed && model in rules.allowed[tag])
            && model in w.artifacts && SaysReady(w.artifacts[model]) && FirstSaysReady(w.running, model)
  {
    FirstStateExactly(w.running, model);
    ReadyFolds(Status(w, model));
    assert SaysReady(Status(w, model)) ==> model in w.artifacts;
    hide EqualFold, SaysReady, FirstSaysReady, FirstState;
  }

  function Score(ready: bool, running: bool, empty: bool, canScaleOut: bool, targetLoaded: bool, readyCount: int,
                 active: int): int {
    if ready then (if active == 0 then 600 else if canScaleOut then 100 - active else 500 - active)
    else if running then (if readyCount == 0 then 450 - active else 350 - active)
    else if canScaleOut then (if empty then 400 - active else 200 - active)
    else if !targetLoaded then (if empty then 100 - active else 50 - active)
    else 0
  }

  datatype Scored = Scored(worker: Worker, score: int)

  predicate Better(a: Scored, b: Scored) {
    if a.score != b.score then a.score > b.score else TextLess(a.worker.id, b.worker.id)
  }

  lemma BetterIsWeak()
    ensures WeakOrder(Better)
  {
    forall a: Scored, b: Scored ensures Better(a, b) ==> !Better(b, a) {
      TextLessTotal(a.worker.id, b.worker.id);
    }
    forall a: Scored, b: Scored, c: Scored | !Better(b, a) && !Better(c, b) ensures !Better(c, a) {
      if a.score == b.score == c.score {
        TextLessWeak(a.worker.id, b.worker.id, c.worker.id);
      }
    }
  }

  datatype Pick = Picked(worker: Worker) | UnknownModel | NotLoadable | NoReadyWorker | NoHealthyWorker

  /** Fewer requests, and of equally busy workers the first by name. */
  predicate NoBusier(v: View, a: Worker, b: Worker) {
    ActiveOn(v, a.id) < ActiveOn(v, b.id) || (ActiveOn(v, a.id) == ActiveOn(v, b.id) && !TextLess(b.id, a.id))
  }

  /** The scores come to this: of the ready workers the least busy one is picked. */
  method PickReadyWorker(v: View, rules: Rules, model: string, exclude: set<string>) returns (r: Pick)
    ensures r.Picked? ==> r.worker in v.workers && Candidate(v, rules, model, exclude, r.worker)
    ensures r.Picked? ==> forall w <- v.workers :: Candidate(v, rules, model, exclude, w) ==> NoBusier(v, r.worker, w)
    ensures r.Picked? <==>
            && model in rules.models && (EffectiveMax(v, rules, model) > 0 || MaxLoadedIsAuto(rules.models[model]))
            && exists w <- v.workers :: Candidate(v, rules, model, exclude, w)
    ensures r == NoReadyWorker ==>
            && !(exists w <- v.workers :: MayServe(v, rules, model, w) && ArtifactReady(w, model) && ReadyOn(w, model))
            && exists w <- v.workers :: MayServe(v, rules, model, w) && (ArtifactReady(w, model) || Runs(w, model))
    ensures r == NoHealthyWorker ==>
            || (exists w <- v.workers :: MayServe(v, rules, model, w) && ArtifactReady(w, model) && ReadyOn(w, model))
            || forall w <- v.workers :: !(MayServe(v, rules, model, w) && (ArtifactReady(w, model) || Runs(w, model)))
  {
    hide MayServe, ReadyOn, Candidate, NoBusier, ArtifactReady, Allows, EqualFold, StateOf, Runs, EffectiveMax, Occupied;
    if model !in rules.models {
      return UnknownModel;
    }
    var readyCount, eligibleCount, occupiedCount := Survey(v, rules, model);
    var maxLoaded, auto := ComputeEffectiveMax(v, rules, model);
    if maxLoaded <= 0 && !auto {
      return NotLoadable;
    }
    var canScaleOut := maxLoaded > 0 && occupiedCount < maxLoaded;
    var candidates := Collect(v, rules, model, exclude, canScaleOut, readyCount);
    if candidates == [] {
      if readyCount > 0 {
        return NoHealthyWorker;
      }
      return if eligibleCount > 0 || occupiedCount > 0 then NoReadyWorker else NoHealthyWorker;
    }
    var sorted := SortBy(candidates, Better);
    FirstIsLeastBusy(v, candidates, canScaleOut, readyCount);
    return Picked(sorted[0].worker);
  }

  /** Healthy workers that may serve the model: with it ready, with its artifact, with it running. */
  method Survey(v: View, rules: Rules, model: string) returns (ready: nat, eligible: nat, occupied: nat)
    ensures ready > 0 <==> exists w <- v.workers :: MayServe(v, rules, model, w) && ArtifactReady(w, model) && ReadyOn(w, model)
    ensures eligible + occupied > 0 <==> exists w <- v.workers ::
        MayServe(v, rules, model, w) && (ArtifactReady(w, model) || Runs(w, model))
  {
    hide MayServe, ArtifactReady, ReadyOn, Runs;
    ready, eligible, occupied := 0, 0, 0;
    for i := 0 to |v.workers|
      invariant ready > 0 <==> exists k ::
          0 <= k < i && MayServe(v, rules, model, v.workers[k]) && ArtifactReady(v.workers[k], model) && ReadyOn(v.workers[k], model)
      invariant eligible + occupied > 0 <==>
                exists k ::
                    0 <= k < i && MayServe(v, rules, model, v.workers[k]) && (ArtifactReady(v.workers[k], model)
                        || Runs(v.workers[k], model))
    {
      var w := v.workers[i];
      if !MayServe(v, rules, model, w) {
        continue;
      }
      if Runs(w, model) {
        occupied := occupied + 1;
      }
      if !ArtifactReady(w, model) {
        continue;
      }
      eligible := eligible + 1;
      if ReadyOn(w, model) {
        ready := ready + 1;
      }
    }
  }

  predicate MayServe(v: View, rules: Rules, model: string, w: Worker) {
    w.id in v.healthy && Allows(rules, w, model)
  }

  function ScoreOf(v: View, w: Worker, canScaleOut: bool, readyCount: int): int {
    Score(true, true, w.running == [], canScaleOut, readyCount > 0, readyCount, ActiveOn(v, w.id))
  }

  method Collect(v: View, rules: Rules, model: string, exclude: set<string>, canScaleOut: bool,
                 readyCount: int) returns (candidates: seq<Scored>)
    ensures forall c <- candidates ::
        c.worker in v.workers && Candidate(v, rules, model, exclude, c.worker)
            && c.score == ScoreOf(v, c.worker, canScaleOut, readyCount)
    ensures forall w <- v.workers ::
        Candidate(v, rules, model, exclude, w) ==> Scored(w, ScoreOf(v, w, canScaleOut, readyCount)) in candidates
  {
    candidates := [];
    for i := 0 to |v.workers|
      invariant forall c <- candidates ::
          c.worker in v.workers && Candidate(v, rules, model, exclude, c.worker)
              && c.score == ScoreOf(v, c.worker, canScaleOut, readyCount)
      invariant forall k ::
          0 <= k < i && Candidate(v, rules, model, exclude, v.workers[k]) ==>
            Scored(v.workers[k], ScoreOf(v, v.workers[k], canScaleOut, readyCount)) in candidates
    {
      hide ArtifactReady, Allows, EqualFold, StateOf, Runs, Score;
      var w := v.workers[i];
      if w.id in exclude || w.id !in v.healthy || !Allows(rules, w, model) || !ArtifactReady(w, model) || (w.id, model) in v.cooling {
        continue;
      }
      if !ReadyOn(w, model) {
        continue;
      }
      var more := candidates + [Scored(w, ScoreOf(v, w, canScaleOut, readyCount))];
      assert forall c <- candidates :: c in more;
      candidates := more;
    }
  }

  /** With one ceiling for all, a higher score is fewer requests. */
  lemma FirstIsLeastBusy(v: View, candidates: seq<Scored>, canScaleOut: bool, readyCount: int)
    requires candidates != [] && forall c <- candidates :: c.score == ScoreOf(v, c.worker, canScaleOut, readyCount)
    ensures var best := SortBy(candidates, Better)[0];
            best in candidates && forall c <- candidates :: NoBusier(v, best.worker, c.worker)
  {
    BetterIsWeak();
    SortByOrders(candidates, Better);
    SortByPermutes(candidates, Better);
    hide SortBy, WeakOrder, TextLess;
    var sorted := SortBy(candidates, Better);
    assert sorted[0] in sorted;
    forall c <- candidates ensures NoBusier(v, sorted[0].worker, c.worker) {
      assert c in sorted;
      var k :| 0 <= k < |sorted| && sorted[k] == c;
      if k > 0 {
        assert !Better(sorted[k], sorted[0]);
      } else {
        TextLessTotal(c.worker.id, c.worker.id);
      }
    }
  }
}
