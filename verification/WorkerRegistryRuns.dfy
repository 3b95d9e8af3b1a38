/**
 What the worker registry keeps over every run of heartbeats, drains, undrains, prunes,
 scrapes, admissions and releases (`internal/gateway/workers.go`).
 */
module WorkerRegistryRuns {

  import opened Basics
  import opened WorkerRegistries

  /** The registry and the admitted requests that have not been released. */
  datatype System = System(reg: Registry, outstanding: map<nat, string>)

  datatype Event =
    | Beat(hb: Heartbeat, now: int)
    | Drain(id: string)
    | Undrain(id: string)
    | Prune(now: int)
    | Acquire(id: string, now: int, token: nat)
    | Release(token: nat)
    | Scrape(id: string, ok: bool, now: int)

  function Next(s: System, staleAfter: int, e: Event): System {
    match e
    case Beat(hb, now) => s.(reg := AfterHeartbeat(s.reg, hb, now).0)
    case Drain(id) => s.(reg := AfterDrain(s.reg, id))
    case Undrain(id) => s.(reg := AfterUndrain(s.reg, id))
    case Prune(now) => s.(reg := AfterPrune(s.reg, now))
    case Acquire(id, now, token) =>
      if token in s.outstanding || !Admits(s.reg, staleAfter, id, now) then s
      else System(AfterAcquire(s.reg, staleAfter, id, now), s.outstanding[token := id])
    case Release(token) =>
      if token !in s.outstanding then s
      else System(AfterRelease(s.reg, s.outstanding[token]), s.outstanding - {token})
    case Scrape(id, ok, now) => s.(reg := AfterScrape(s.reg, id, ok, now))
  }

  function Run(s: System, staleAfter: int, evs: seq<Event>): System
    decreases |evs|
  {
    if evs == [] then s else Run(Next(s, staleAfter, evs[0]), staleAfter, evs[1..])
  }

  // ----- Restart locks -----

  /** Whoever holds the global scope holds every held scope. */
  ghost predicate GlobalExclusive(holders: map<string, string>) {
    GLOBAL_SCOPE in holders ==> forall s <- holders :: holders[s] == holders[GLOBAL_SCOPE]
  }

  predicate MixesGlobal(scopes: set<string>) {
    GLOBAL_SCOPE in scopes && scopes != {GLOBAL_SCOPE}
  }

  /**
   A heartbeat keeps the global scope exclusive unless it is granted a list that names a
   model "*" beside others while another worker holds some scope; then it never does.
   */
  lemma HeartbeatKeepsExclusionExactly(r: Registry, hb: Heartbeat, now: int)
    requires GlobalExclusive(r.holders)
    ensures var holders := HoldersFor(r, hb, now);
            GlobalExclusive(AfterHeartbeat(r, hb, now).0.holders) <==>
            !(Grants(holders, hb) && MixesGlobal(Scopes(hb.restartModels)) && exists s <- holders :: holders[s] != hb.agentId)
  {
    var holders, scopes := HoldersFor(r, hb, now), Scopes(hb.restartModels);
    assert GlobalExclusive(holders);
    if Grants(holders, hb) {
      var after := Claimed(holders, hb.agentId, scopes);
      if GLOBAL_SCOPE in holders {
        assert holders[GLOBAL_SCOPE] == hb.agentId;
      }
      if exists s <- holders :: holders[s] != hb.agentId {
        var s :| s in holders && holders[s] != hb.agentId;
        assert s in after && after[s] == holders[s];
      }
    }
  }

  /** The reserved name slipping in as a model: "b" takes the global lock while "a" restarts "m". */
  lemma ReservedNameBreaksExclusion(r: Registry, now: int)
    requires r.holders == map["m" := "a"] && "a" in r.workers && now == r.workers["a"].lastHeartbeat
    ensures GlobalExclusive(r.holders)
    ensures !GlobalExclusive(AfterHeartbeat(r, Heartbeat("b", "", true, ["*", "n"]), now).0.holders)
  {
    var hb := Heartbeat("b", "", true, ["*", "n"]);
    NamesSnoc([], "*");
    NamesSnoc(["*"], "n");
    assert [] + ["*"] == ["*"] && ["*"] + ["n"] == ["*", "n"];
    assert Names([]) == {};
    assert TrimSpace("*") == "*" && TrimSpace("n") == "n";
    assert Names(["*", "n"]) == {"*", "n"};
    assert "n" in {"*", "n"};
    assert {"*", "n"} != {"*"};
    assert HoldersFor(r, hb, now) == r.holders;
    assert r.holders["m"] != hb.agentId;
    HeartbeatKeepsExclusionExactly(r, hb, now);
  }

  predicate NamesNoGlobal(e: Event) {
    e.Beat? ==> !MixesGlobal(Scopes(e.hb.restartModels))
  }

  lemma StepKeepsExclusion(s: System, staleAfter: int, e: Event)
    requires GlobalExclusive(s.reg.holders) && NamesNoGlobal(e)
    ensures GlobalExclusive(Next(s, staleAfter, e).reg.holders)
  {
    match e
    case Beat(hb, now) => HeartbeatKeepsExclusionExactly(s.reg, hb, now);
    case _ =>
  }

  lemma {:induction false} ExclusionOverRuns(s: System, staleAfter: int, evs: seq<Event>)
    requires GlobalExclusive(s.reg.holders) && forall e <- evs :: NamesNoGlobal(e)
    ensures GlobalExclusive(Run(s, staleAfter, evs).reg.holders)
    decreases |evs|
  {
    if evs != [] {
      StepKeepsExclusion(s, staleAfter, evs[0]);
      ExclusionOverRuns(Next(s, staleAfter, evs[0]), staleAfter, evs[1..]);
    }
  }

  /** Allowed to restart: every asked scope is held, the worker drains and nothing runs on it. */
  ghost predicate Restarting(r: Registry, id: string, scopes: set<string>, at: int) {
    && id in r.workers && r.workers[id].needsRestart && r.workers[id].draining && r.workers[id].lastHeartbeat == at
    && ActiveOf(r.active, id) == 0
    && forall s <- scopes :: s in r.holders && r.holders[s] == id
  }

  lemma AllowedMeansRestarting(r: Registry, hb: Heartbeat, now: int)
    requires AfterHeartbeat(r, hb, now).1.restartAllowed
    ensures Restarting(AfterHeartbeat(r, hb, now).0, hb.agentId, Scopes(hb.restartModels), now)
  {
    var holders, scopes := HoldersFor(r, hb, now), Scopes(hb.restartModels);
    forall s <- scopes ensures s in Claimed(holders, hb.agentId, scopes) && Claimed(holders, hb.agentId, scopes)[s] == hb.agentId {
      assert s in holders ==> holders[s] == hb.agentId by {
        if scopes == {GLOBAL_SCOPE} {
          assert s in holders ==> holders[s] == hb.agentId;
        }
      }
    }
  }

  /** Gone, or still waiting for its restart: either way no request can be admitted. */
  ghost predicate ShutOut(r: Registry, id: string) {
    && (id in r.workers ==> r.workers[id].needsRestart && r.workers[id].draining)
    && ActiveOf(r.active, id) == 0
  }

  predicate BeatOf(e: Event, id: string) {
    e.Beat? && e.hb.agentId == id
  }

  lemma StepShutOut(s: System, staleAfter: int, e: Event, id: string)
    requires ShutOut(s.reg, id) && !BeatOf(e, id)
    ensures ShutOut(Next(s, staleAfter, e).reg, id)
  {
  }

  /**
   From a reply that allows a restart until the worker's next heartbeat, no request is
   admitted to it, whatever drains, undrains, prunes and other heartbeats come between.
   */
  lemma {:induction false} NoAdmissionUntilNextHeartbeat(s: System, staleAfter: int, evs: seq<Event>, id: string)
    requires ShutOut(s.reg, id) && forall e <- evs :: !BeatOf(e, id)
    ensures ShutOut(Run(s, staleAfter, evs).reg, id)
    ensures forall now :: !Admits(Run(s, staleAfter, evs).reg, staleAfter, id, now)
    decreases |evs|
  {
    if evs != [] {
      StepShutOut(s, staleAfter, evs[0], id);
      NoAdmissionUntilNextHeartbeat(Next(s, staleAfter, evs[0]), staleAfter, evs[1..], id);
    }
  }

  predicate Within(e: Event, limit: int) {
    match e
    case Beat(_, now) => now <= limit
    case Prune(now) => now <= limit
    case _ => true
  }

  lemma StepKeepsLocks(s: System, staleAfter: int, e: Event, id: string, scopes: set<string>, at: int)
    requires Restarting(s.reg, id, scopes, at) && !BeatOf(e, id) && Within(e, at + OFFLINE_RETENTION)
    ensures Restarting(Next(s, staleAfter, e).reg, id, scopes, at)
  {
    match e
    case Beat(hb, now) =>
      var holders := HoldersFor(s.reg, hb, now);
      assert forall x <- scopes :: x in holders && holders[x] == id;
    case Prune(now) =>
      assert id !in Offline(s.reg, now);
    case Undrain(_) =>
    case _ =>
  }

  lemma {:induction false} LocksHeld(s: System, staleAfter: int, evs: seq<Event>, id: string, scopes: set<string>,
                                     at: int)
    requires Restarting(s.reg, id, scopes, at)
    requires forall e <- evs :: !BeatOf(e, id) && Within(e, at + OFFLINE_RETENTION)
    ensures Restarting(Run(s, staleAfter, evs).reg, id, scopes, at)
    decreases |evs|
  {
    if evs != [] {
      StepKeepsLocks(s, staleAfter, evs[0], id, scopes, at);
      LocksHeld(Next(s, staleAfter, evs[0]), staleAfter, evs[1..], id, scopes, at);
    }
  }

  predicate Overlap(a: set<string>, b: set<string>) {
    a * b != {} || GLOBAL_SCOPE in a || GLOBAL_SCOPE in b
  }

  /**
   Mutual exclusion: once a worker has been allowed to restart, and until it reports again
   or has been silent for the offline retention, no other worker is allowed to restart over
   an overlapping scope.
   */
  lemma RestartsExclude(s: System, staleAfter: int, first: Heartbeat, at: int, evs: seq<Event>, second: Heartbeat,
                        now: int)
    requires AfterHeartbeat(s.reg, first, at).1.restartAllowed
    requires forall e <- evs :: !BeatOf(e, first.agentId) && Within(e, at + OFFLINE_RETENTION)
    requires second.agentId != first.agentId && now <= at + OFFLINE_RETENTION
    requires Overlap(Scopes(first.restartModels), Scopes(second.restartModels))
    requires !MixesGlobal(Scopes(second.restartModels))
    ensures var after := Run(Next(s, staleAfter, Beat(first, at)), staleAfter, evs);
            var (later, reply) := AfterHeartbeat(after.reg, second, now);
            !reply.restartAllowed && forall x <- Scopes(first.restartModels) :: x in later.holders && later.holders[x] == first.agentId
  {
    var a, b := Scopes(first.restartModels), Scopes(second.restartModels);
    AllowedMeansRestarting(s.reg, first, at);
    var start := Next(s, staleAfter, Beat(first, at));
    LocksHeld(start, staleAfter, evs, first.agentId, a, at);
    var after := Run(start, staleAfter, evs);
    StepKeepsLocks(after, staleAfter, Beat(second, now), first.agentId, a, at);
    var holders := HoldersFor(after.reg, second, now);
    assert forall x <- a :: x in holders && holders[x] == first.agentId;
    assert a != {} by {
      assert GLOBAL_SCOPE in {GLOBAL_SCOPE};
    }
    if b == {GLOBAL_SCOPE} {
      var x :| x in a;
      assert holders[x] != second.agentId;
    } else if GLOBAL_SCOPE !in a {
      var x :| x in a * b;
      assert x in b && holders[x] != second.agentId;
    }
    assert Blocked(holders, second.agentId, b);
  }

  // ----- Who gets the locks, and how they come free -----

  /** Another worker, known and not silent for too long, holds the scope. */
  predicate HeldByOther(r: Registry, id: string, scope: string, now: int) {
    && scope in r.holders && r.holders[scope] != id && r.holders[scope] in r.workers
    && now - r.workers[r.holders[scope]].lastHeartbeat <= OFFLINE_RETENTION
  }

  /** A held scope stands in the way of those that name it, and the global one of all. */
  predicate Obstructs(scope: string, wanted: set<string>) {
    scope == GLOBAL_SCOPE || wanted == {GLOBAL_SCOPE} || scope in wanted
  }

  predicate Obstructed(r: Registry, hb: Heartbeat, now: int) {
    exists s <- r.holders :: HeldByOther(r, hb.agentId, s, now) && Obstructs(s, Scopes(hb.restartModels))
  }

  /** The scopes asked for are the names, blanks aside, and all of them when there are none. */
  lemma ScopesExactly(models: seq<string>, s: string)
    ensures s in Scopes(models) <==>
            || (s != "" && exists m <- models :: TrimSpace(m) == s)
            || (s == "*" && forall m <- models :: TrimSpace(m) == "")
  {
    hide TrimSpace;
    forall m <- models
      ensures Blank(m) <==> TrimSpace(m) == ""
      ensures TrimSpace(m) != "" ==> TrimSpace(m) in Names(models)
    {
      BlankIsTrimmedEmpty(m);
    }
  }

  /** A restart is granted exactly when no other worker's lock stands in the way, and starts when nothing runs. */
  lemma GrantedExactly(r: Registry, hb: Heartbeat, now: int)
    ensures var (after, reply) := AfterHeartbeat(r, hb, now);
            var granted := hb.needsRestart && !Obstructed(r, hb, now);
            && reply.restartAllowed == (granted && ActiveOf(r.active, hb.agentId) == 0)
            && reply.draining == (granted || hb.agentId in r.drains) == after.workers[hb.agentId].draining
            && (granted ==> forall s <- Scopes(hb.restartModels) :: s in after.holders && after.holders[s] == hb.agentId)
  {
    var holders, scopes := HoldersFor(r, hb, now), Scopes(hb.restartModels);
    if hb.needsRestart {
      assert forall s :: s in holders && holders[s] != hb.agentId <==> HeldByOther(r, hb.agentId, s, now);
      if Obstructed(r, hb, now) {
        var s :| s in r.holders && HeldByOther(r, hb.agentId, s, now) && Obstructs(s, scopes);
        assert s in holders && holders[s] != hb.agentId;
        assert Blocked(holders, hb.agentId, scopes);
      } else {
        forall s <- scopes ensures s in holders ==> holders[s] == hb.agentId {
          assert s in holders && holders[s] != hb.agentId ==> HeldByOther(r, hb.agentId, s, now) && Obstructs(s, scopes);
        }
      }
    }
  }

  /** What a heartbeat leaves held: by workers that are known and not silent, and by none that needs no restart. */
  lemma HeldAfterHeartbeat(r: Registry, hb: Heartbeat, now: int)
    ensures var after := AfterHeartbeat(r, hb, now).0;
            && (forall s <- after.holders ::
                  after.holders[s] in after.workers && now - after.workers[after.holders[s]].lastHeartbeat <= OFFLINE_RETENTION)
            && (!hb.needsRestart ==> forall s <- after.holders :: after.holders[s] != hb.agentId)
            && (forall s <- r.holders :: HeldByOther(r, hb.agentId, s, now) ==> s in after.holders && after.holders[s] == r.holders[s])
  {
  }

  /** The last heartbeat of a worker in a run, if it sent one. */
  function LastBeat(evs: seq<Event>, id: string): Option<Heartbeat> {
    if evs == [] then None
    else if BeatOf(evs[|evs| - 1], id) then Some(evs[|evs| - 1].hb)
    else LastBeat(evs[..|evs| - 1], id)
  }

  /** Every lock belongs to a known worker whose last heartbeat asked for a restart. */
  ghost predicate LocksAreWanted(s: System, evs: seq<Event>) {
    forall scope <- s.reg.holders ::
      && s.reg.holders[scope] in s.reg.workers
      && LastBeat(evs, s.reg.holders[scope]).Some? && LastBeat(evs, s.reg.holders[scope]).value.needsRestart
  }

  lemma StepKeepsWanted(s: System, staleAfter: int, evs: seq<Event>, e: Event)
    requires LocksAreWanted(s, evs)
    ensures LocksAreWanted(Next(s, staleAfter, e), evs + [e])
  {
    var t := Next(s, staleAfter, e);
    assert (evs + [e])[..|evs|] == evs;
    if e.Beat? {
      HeldAfterHeartbeat(s.reg, e.hb, e.now);
    }
    forall scope <- t.reg.holders
      ensures t.reg.holders[scope] in t.reg.workers
      ensures LastBeat(evs + [e], t.reg.holders[scope]).Some? && LastBeat(evs + [e], t.reg.holders[scope]).value.needsRestart
    {
      if !BeatOf(e, t.reg.holders[scope]) {
        assert scope in s.reg.holders && s.reg.holders[scope] == t.reg.holders[scope];
      }
    }
  }

  lemma {:induction false} RunSnoc(s: System, staleAfter: int, evs: seq<Event>, e: Event)
    ensures Run(s, staleAfter, evs + [e]) == Next(Run(s, staleAfter, evs), staleAfter, e)
    decreases |evs|
  {
    if evs == [] {
      assert evs + [e] == [e] && Run(Next(s, staleAfter, e), staleAfter, [e][1..]) == Next(s, staleAfter, e);
    } else {
      assert (evs + [e])[1..] == evs[1..] + [e];
      RunSnoc(Next(s, staleAfter, evs[0]), staleAfter, evs[1..], e);
    }
  }

  const EMPTY_SYSTEM := System(Registry(map[], [], map[], {}, map[]), map[])

  /** So no lock outlives the wish for it. */
  lemma {:induction false} LocksWantedOverRuns(staleAfter: int, evs: seq<Event>)
    ensures LocksAreWanted(Run(EMPTY_SYSTEM, staleAfter, evs), evs)
    decreases |evs|
  {
    if evs != [] {
      var front, e := evs[..|evs| - 1], evs[|evs| - 1];
      assert evs == front + [e];
      LocksWantedOverRuns(staleAfter, front);
      RunSnoc(EMPTY_SYSTEM, staleAfter, front, e);
      StepKeepsWanted(Run(EMPTY_SYSTEM, staleAfter, front), staleAfter, front, e);
    }
  }

  /**
   A rolling restart goes on: when the one worker in the way reports that it is done, the next
   idle one that asks may restart.
   */
  lemma NextInLine(r: Registry, done: Heartbeat, at: int, next: Heartbeat, now: int)
    requires !done.needsRestart && next.needsRestart && done.agentId != next.agentId && ActiveOf(r.active, next.agentId) == 0
    requires forall s <- r.holders ::
        Obstructs(s, Scopes(next.restartModels)) ==> r.holders[s] == done.agentId || r.holders[s] == next.agentId
    ensures AfterHeartbeat(AfterHeartbeat(r, done, at).0, next, now).1.restartAllowed
  {
    var mid := AfterHeartbeat(r, done, at).0;
    assert forall s <- mid.holders :: s in r.holders && mid.holders[s] == r.holders[s] != done.agentId;
    GrantedExactly(mid, next, now);
  }

  // ----- Drains and scrapes -----

  /** The event forgets the worker, and its drain with it. */
  predicate Drops(s: System, e: Event, id: string) {
    e.Prune? && id in Offline(s.reg, e.now)
  }

  predicate KeptIn(s: System, staleAfter: int, evs: seq<Event>, id: string)
    decreases |evs|
  {
    evs != [] ==> !Drops(s, evs[0], id) && KeptIn(Next(s, staleAfter, evs[0]), staleAfter, evs[1..], id)
  }

  /** Drained by hand, a worker is admitted nothing, whatever it reports, until it is undrained or forgotten. */
  lemma {:induction false} DrainedUntilUndrained(s: System, staleAfter: int, evs: seq<Event>, id: string)
    requires id in s.reg.workers && id in s.reg.drains && s.reg.workers[id].draining
    requires KeptIn(s, staleAfter, evs, id) && forall e <- evs :: e != Undrain(id)
    ensures var t := Run(s, staleAfter, evs);
            && id in t.reg.workers && id in t.reg.drains && t.reg.workers[id].draining
            && forall now :: !Admits(t.reg, staleAfter, id, now)
    decreases |evs|
  {
    if evs != [] {
      assert evs[0] in evs;
      assert forall e <- evs[1..] :: e in evs;
      DrainedUntilUndrained(Next(s, staleAfter, evs[0]), staleAfter, evs[1..], id);
    }
  }

  lemma DrainDrains(r: Registry, id: string)
    requires id in r.workers
    ensures id in AfterDrain(r, id).drains && AfterDrain(r, id).workers[id] == r.workers[id].(draining := true)
  {
  }

  /** Undrained, a worker that waits for no restart is admitted requests again, as soon as it is fresh and not backed off. */
  lemma UndrainedAdmits(r: Registry, staleAfter: int, id: string, now: int)
    requires id in r.workers && !r.workers[id].needsRestart
    ensures Admits(AfterUndrain(r, id), staleAfter, id, now) <==>
            now - r.workers[id].lastHeartbeat < staleAfter && now >= r.workers[id].backoffUntil
    ensures forall hb: Heartbeat, at: int :: hb.agentId == id && !hb.needsRestart ==>
              !AfterHeartbeat(AfterUndrain(r, id), hb, at).0.workers[id].draining
  {
  }

  /** The failures since the last scrape that went well, newest last. */
  function Failures(evs: seq<Event>, id: string): seq<int> {
    if evs == [] then []
    else
      match evs[|evs| - 1]
      case Scrape(other, ok, now) =>
        if other != id then Failures(evs[..|evs| - 1], id) else if ok then [] else Failures(evs[..|evs| - 1], id) + [now]
      case _ => Failures(evs[..|evs| - 1], id)
  }

  predicate BacksOff(w: Worker, failures: seq<int>) {
    && w.scrapeFailures == |failures|
    && w.backoffUntil == if |failures| >= BACKOFF_THRESHOLD then failures[|failures| - 1] + BACKOFF else 0
  }

  lemma StepBacksOff(s: System, staleAfter: int, evs: seq<Event>, e: Event, id: string)
    requires id in s.reg.workers && BacksOff(s.reg.workers[id], Failures(evs, id)) && !Drops(s, e, id)
    ensures var t := Next(s, staleAfter, e);
            id in t.reg.workers && BacksOff(t.reg.workers[id], Failures(evs + [e], id))
  {
    assert (evs + [e])[..|evs|] == evs;
  }

  /**
   Over every run in which a worker is known, it is backed off exactly from its third failed
   scrape in a row on, for the backoff after the last one.
   */
  lemma {:induction false} BackedOffExactly(s: System, staleAfter: int, evs: seq<Event>, id: string)
    requires id in s.reg.workers && BacksOff(s.reg.workers[id], []) && KeptIn(s, staleAfter, evs, id)
    ensures var t := Run(s, staleAfter, evs);
            id in t.reg.workers && BacksOff(t.reg.workers[id], Failures(evs, id))
    decreases |evs|
  {
    if evs != [] {
      var front, e := evs[..|evs| - 1], evs[|evs| - 1];
      assert evs == front + [e];
      KeptSnoc(s, staleAfter, front, e, id);
      BackedOffExactly(s, staleAfter, front, id);
      RunSnoc(s, staleAfter, front, e);
      hide Run, KeptIn;
      StepBacksOff(Run(s, staleAfter, front), staleAfter, front, e, id);
    }
  }

  lemma {:induction false} KeptSnoc(s: System, staleAfter: int, evs: seq<Event>, e: Event, id: string)
    requires KeptIn(s, staleAfter, evs + [e], id)
    ensures KeptIn(s, staleAfter, evs, id) && !Drops(Run(s, staleAfter, evs), e, id)
    decreases |evs|
  {
    if evs == [] {
      assert evs + [e] == [e];
    } else {
      assert (evs + [e])[1..] == evs[1..] + [e];
      KeptSnoc(Next(s, staleAfter, evs[0]), staleAfter, evs[1..], e, id);
    }
  }

  // ----- Active counts -----

  function Running(outstanding: map<nat, string>, id: string): set<nat> {
    set t <- outstanding | outstanding[t] == id
  }

  ghost predicate AtMost(s: System) {
    forall id :: 0 <= ActiveOf(s.reg.active, id) <= |Running(s.outstanding, id)|
  }

  ghost predicate Exact(s: System) {
    forall id :: ActiveOf(s.reg.active, id) == |Running(s.outstanding, id)|
  }

  lemma RunningAdd(outstanding: map<nat, string>, token: nat, owner: string, id: string)
    requires token !in outstanding
    ensures |Running(outstanding[token := owner], id)| == |Running(outstanding, id)| + if owner == id then 1 else 0
  {
    var more := Running(outstanding[token := owner], id);
    assert more == if owner == id then Running(outstanding, id) + {token} else Running(outstanding, id);
  }

  lemma RunningRemove(outstanding: map<nat, string>, token: nat, id: string)
    requires token in outstanding
    ensures |Running(outstanding - {token}, id)| == |Running(outstanding, id)| - if outstanding[token] == id then 1 else 0
    ensures outstanding[token] == id ==> |Running(outstanding, id)| >= 1
  {
    var fewer := Running(outstanding - {token}, id);
    assert fewer == Running(outstanding, id) - {token};
    assert outstanding[token] == id ==> token in Running(outstanding, id);
  }

  lemma CountsMove(s: System, staleAfter: int, e: Event, id: string)
    requires !e.Prune?
    requires 0 <= ActiveOf(s.reg.active, id) <= |Running(s.outstanding, id)|
    ensures var t := Next(s, staleAfter, e);
            && 0 <= ActiveOf(t.reg.active, id) <= |Running(t.outstanding, id)|
            && (ActiveOf(s.reg.active, id) == |Running(s.outstanding, id)| ==>
                  ActiveOf(t.reg.active, id) == |Running(t.outstanding, id)|)
  {
    match e
    case Acquire(owner, _, token) =>
      if token !in s.outstanding {
        RunningAdd(s.outstanding, token, owner, id);
      }
    case Release(token) =>
      if token in s.outstanding {
        RunningRemove(s.outstanding, token, id);
      }
    case _ =>
  }

  /** The active count never exceeds the outstanding requests, pruning included. */
  lemma {:induction false} ActiveAtMostOutstanding(s: System, staleAfter: int, evs: seq<Event>)
    requires AtMost(s)
    ensures AtMost(Run(s, staleAfter, evs))
    decreases |evs|
  {
    if evs != [] {
      var t := Next(s, staleAfter, evs[0]);
      forall id ensures 0 <= ActiveOf(t.reg.active, id) <= |Running(t.outstanding, id)| {
        assert 0 <= ActiveOf(s.reg.active, id) <= |Running(s.outstanding, id)|;
        if !evs[0].Prune? {
          CountsMove(s, staleAfter, evs[0], id);
        }
      }
      ActiveAtMostOutstanding(t, staleAfter, evs[1..]);
    }
  }

  /** Dropping a worker that still has requests running. */
  predicate LosesCounts(s: System, e: Event) {
    e.Prune? && exists id <- Offline(s.reg, e.now) :: ActiveOf(s.reg.active, id) > 0
  }

  /** A step keeps the count exact unless it prunes a busy worker, and then it never does. */
  lemma CountStaysExactExactly(s: System, staleAfter: int, e: Event)
    requires Exact(s)
    ensures Exact(Next(s, staleAfter, e)) <==> !LosesCounts(s, e)
  {
    var t := Next(s, staleAfter, e);
    if LosesCounts(s, e) {
      var id :| id in Offline(s.reg, e.now) && ActiveOf(s.reg.active, id) > 0;
      assert ActiveOf(t.reg.active, id) == 0 && |Running(t.outstanding, id)| > 0;
    } else {
      forall id ensures ActiveOf(t.reg.active, id) == |Running(t.outstanding, id)| {
        assert ActiveOf(s.reg.active, id) == |Running(s.outstanding, id)|;
        if !e.Prune? {
          CountsMove(s, staleAfter, e, id);
        }
      }
    }
  }
}
