/**
 The gateway's FIFO concurrency limiter (`internal/gateway/limits.go`).

 `QueueLimiter` holds the state guarded by the mutex; a call to Acquire that has to wait
 leaves the mutex between joining the queue and being woken or cancelled, so the rest of it
 is `CancelWaiter`. The step system runs any number of requests through those atomic pieces
 in any order.
 */
module QueueLimiters {

  import opened Basics

  type Waiter = nat

  datatype QueueState = QueueState(active: int, waiters: seq<Waiter>)

  datatype Admission = Unlimited | Admitted | QueueFull | Queued

  datatype Stats = Stats(result: Admission, activeBefore: int, queuedBefore: int)

  function StateOf(states: map<string, QueueState>, key: string): QueueState {
    if key in states then states[key] else QueueState(0, [])
  }

  function Entered(states: map<string, QueueState>, key: string, maxActive: int, maxQueue: int, w: Waiter)
    : (map<string, QueueState>, Stats)
  {
    var st := StateOf(states, key);
    if maxActive <= 0 then (states, Stats(Unlimited, 0, 0))
    else if st.active < maxActive then
      (states[key := st.(active := st.active + 1)], Stats(Admitted, st.active, |st.waiters|))
    else if |st.waiters| >= maxQueue then (states[key := st], Stats(QueueFull, st.active, |st.waiters|))
    else (states[key := st.(waiters := st.waiters + [w])], Stats(Queued, st.active, |st.waiters|))
  }

  /** Stores a state, or drops it when nothing is active or queued. */
  function Keep(states: map<string, QueueState>, key: string, st: QueueState): map<string, QueueState> {
    if st.active == 0 && st.waiters == [] then states - {key} else states[key := st]
  }

  /** The state after a release, and the waiter its permit is handed to. */
  function Freed(states: map<string, QueueState>, key: string): (map<string, QueueState>, Option<Waiter>) {
    if key !in states then (states, None)
    else
      var st := states[key];
      if st.waiters != [] then (states[key := st.(waiters := st.waiters[1..])], Some(st.waiters[0]))
      else (Keep(states, key, st.(active := if st.active > 0 then st.active - 1 else st.active)), None)
  }

  function Without(ws: seq<Waiter>, i: nat): seq<Waiter>
    requires i < |ws|
  {
    ws[..i] + ws[i + 1..]
  }

  function IndexOf(ws: seq<Waiter>, w: Waiter): (i: int)
    ensures -1 <= i < |ws|
    ensures i >= 0 ==> ws[i] == w && w !in ws[..i]
    ensures i < 0 ==> w !in ws
  {
    if ws == [] then -1
    else if ws[0] == w then 0
    else
      var r := IndexOf(ws[1..], w);
      if r < 0 then -1 else r + 1
  }

  function Cancelled(states: map<string, QueueState>, key: string, w: Waiter): (map<string, QueueState>, bool) {
    if key !in states then (states, false)
    else
      var st := states[key];
      var i := IndexOf(st.waiters, w);
      if i < 0 then (states, false)
      else (Keep(states, key, st.(waiters := Without(st.waiters, i))), true)
  }

  class QueueLimiter {
    var states: map<string, QueueState>
    var ready: set<Waiter>  // waiters whose channel has been closed

    constructor ()
      ensures states == map[] && ready == {}
    {
      states, ready := map[], {};
    }

    /** Acquire up to the point where it returns or starts to wait. */
    method Enter(key: string, maxActive: int, maxQueue: int, w: Waiter) returns (stats: Stats)
      modifies this`states
      ensures (states, stats) == Entered(old(states), key, maxActive, maxQueue, w)
    {
      if maxActive <= 0 {
        return Stats(Unlimited, 0, 0);
      }
      if key !in states {
        states := states[key := QueueState(0, [])];
      }
      var st := states[key];
      if st.active < maxActive {
        states := states[key := QueueState(st.active + 1, st.waiters)];
        assert states == old(states)[key := StateOf(old(states), key).(active := st.active + 1)];
        return Stats(Admitted, st.active, |st.waiters|);
      }
      if |st.waiters| >= maxQueue {
        assert states == old(states)[key := StateOf(old(states), key)];
        return Stats(QueueFull, st.active, |st.waiters|);
      }
      states := states[key := QueueState(st.active, st.waiters + [w])];
      assert states == old(states)[key := StateOf(old(states), key).(waiters := st.waiters + [w])];
      return Stats(Queued, st.active, |st.waiters|);
    }

    method Release(key: string)
      modifies this
      ensures states == Freed(old(states), key).0
      ensures ready == old(ready) + match Freed(old(states), key).1 case None => {} case Some(w) => {w}
    {
      if key !in states {
        return;
      }
      var st := states[key];
      if |st.waiters| > 0 {
        var waiter := st.waiters[0];
        states := states[key := st.(waiters := st.waiters[1..])];
        ready := ready + {waiter};
        return;
      }
      if st.active > 0 {
        st := st.(active := st.active - 1);
        states := states[key := st];
      }
      if st.active == 0 && |st.waiters| == 0 {
        states := states - {key};
      }
      assert states == Freed(old(states), key).0;
    }

    method CancelWaiter(key: string, w: Waiter) returns (removed: bool)
      modifies this`states
      ensures (states, removed) == Cancelled(old(states), key, w)
    {
      if key !in states {
        return false;
      }
      var st := states[key];
      for i := 0 to |st.waiters|
        invariant states == old(states)
        invariant w !in st.waiters[..i]
      {
        if st.waiters[i] != w {
          continue;
        }
        assert IndexOf(st.waiters, w) == i;
        st := st.(waiters := st.waiters[..i] + st.waiters[i + 1..]);
        states := states[key := st];
        if st.active == 0 && |st.waiters| == 0 {
          states := states - {key};
        }
        assert states == Cancelled(old(states), key, w).0;
        return true;
      }
      assert st.waiters[..|st.waiters|] == st.waiters;
      return false;
    }

    method Active(key: string) returns (n: int)
      ensures n == StateOf(states, key).active
    {
      n := if key in states then states[key].active else 0;
    }
  }

  // ----- Requests running through the limiter -----

  /** HandedOff: the ready channel is closed but the request has not run since. */
  datatype Phase =
    | Waiting(key: string)
    | HandedOff(key: string)
    | Holding(key: string)
    | Finished

  datatype System = System(states: map<string, QueueState>, phases: map<Waiter, Phase>)

  /** Timeout is the context ending while the request waits, whichever side of a hand-off it falls. */
  datatype Event =
    | Enter(r: Waiter, key: string, maxActive: int, maxQueue: int)
    | Wake(r: Waiter)
    | Timeout(r: Waiter)
    | Release(r: Waiter)

  predicate Enabled(s: System, e: Event) {
    match e
    case Enter(r, _, _, _) => r !in s.phases
    case Wake(r) => r in s.phases && s.phases[r].HandedOff?
    case Timeout(r) => r in s.phases && (s.phases[r].HandedOff? || s.phases[r].Waiting?)
    case Release(r) => r in s.phases && s.phases[r].Holding?
  }

  function PhaseAfter(a: Admission, key: string): Phase {
    match a
    case Admitted => Holding(key)
    case Queued => Waiting(key)
    case Unlimited => Finished
    case QueueFull => Finished
  }

  function Next(s: System, e: Event): System {
    if !Enabled(s, e) then s
    else match e
      case Enter(r, key, maxActive, maxQueue) =>
        var (states, stats) := Entered(s.states, key, maxActive, maxQueue, r);
        System(states, s.phases[r := PhaseAfter(stats.result, key)])
      case Wake(r) => s.(phases := s.phases[r := Holding(s.phases[r].key)])
      case Timeout(r) =>
        var key := s.phases[r].key;
        var (states, removed) := Cancelled(s.states, key, r);
        if removed then System(states, s.phases[r := Finished])
        else if s.phases[r].HandedOff? then System(states, s.phases[r := Holding(key)])
        else s
      case Release(r) =>
        var key := s.phases[r].key;
        var (states, handed) := Freed(s.states, key);
        var phases := s.phases[r := Finished];
        System(states, if handed.Some? then phases[handed.value := HandedOff(key)] else phases)
  }

  function Run(s: System, evs: seq<Event>): System
    decreases |evs|
  {
    if evs == [] then s else Run(Next(s, evs[0]), evs[1..])
  }

  const IDLE := System(map[], map[])

  predicate Granted(p: Phase, key: string) {
    p == Holding(key) || p == HandedOff(key)
  }

  /** The requests that have been granted a permit under the key and not released it. */
  function Holders(phases: map<Waiter, Phase>, key: string): set<Waiter> {
    set r <- phases | Granted(phases[r], key)
  }

  ghost predicate Distinct(ws: seq<Waiter>) {
    forall i, j :: 0 <= i < j < |ws| ==> ws[i] != ws[j]
  }

  ghost predicate CountInv(s: System, key: string) {
    && StateOf(s.states, key).active == |Holders(s.phases, key)|
    && (key in s.states ==> StateOf(s.states, key).active >= 1)
  }

  ghost predicate WaitsFor(phases: map<Waiter, Phase>, r: Waiter, key: string) {
    r in phases && phases[r] == Waiting(key)
  }

  ghost predicate QueueInv(s: System, key: string) {
    var ws := StateOf(s.states, key).waiters;
    Distinct(ws) && forall r :: r in ws <==> WaitsFor(s.phases, r, key)
  }

  ghost predicate KeyInv(s: System, key: string) {
    CountInv(s, key) && QueueInv(s, key)
  }

  /** For every key, `active` counts the granted and unreleased permits. */
  ghost predicate Inv(s: System) {
    forall key :: KeyInv(s, key)
  }

  lemma HoldersPut(phases: map<Waiter, Phase>, r: Waiter, p: Phase, key: string)
    ensures Holders(phases[r := p], key) == if Granted(p, key) then Holders(phases, key) + {r} else Holders(phases, key) - {r}
    ensures |Holders(phases[r := p], key)| ==
            |Holders(phases, key)| + (if Granted(p, key) then 1 else 0) - (if r in Holders(phases, key) then 1 else 0)
  {
  }

  lemma WithoutMembers(ws: seq<Waiter>, i: nat)
    requires i < |ws| && Distinct(ws)
    ensures Distinct(Without(ws, i))
    ensures forall r :: r in Without(ws, i) <==> r in ws && r != ws[i]
  {
    var after := Without(ws, i);
    forall r ensures r in after <==> r in ws && r != ws[i] {
      if r in ws && r != ws[i] {
        var k :| 0 <= k < |ws| && ws[k] == r;
        assert after[if k < i then k else k - 1] == r;
      }
      if r in after {
        var k :| 0 <= k < |after| && after[k] == r;
        assert ws[if k < i then k else k + 1] == r;
      }
    }
  }

  lemma EnterCount(s: System, e: Event, key: string)
    requires e.Enter? && Enabled(s, e) && CountInv(s, key)
    ensures CountInv(Next(s, e), key)
  {
    var (_, stats) := Entered(s.states, e.key, e.maxActive, e.maxQueue, e.r);
    HoldersPut(s.phases, e.r, PhaseAfter(stats.result, e.key), key);
    assert e.r !in Holders(s.phases, key);
  }

  lemma EnterQueue(s: System, e: Event, key: string)
    requires e.Enter? && Enabled(s, e) && QueueInv(s, key)
    ensures QueueInv(Next(s, e), key)
  {
    assert e.r !in StateOf(s.states, key).waiters by {
      assert !WaitsFor(s.phases, e.r, key);
    }
  }

  lemma TimeoutCount(s: System, e: Event, key: string)
    requires e.Timeout? && Enabled(s, e) && CountInv(s, key) && QueueInv(s, s.phases[e.r].key)
    ensures CountInv(Next(s, e), key)
  {
    var own := s.phases[e.r].key;
    var st := StateOf(s.states, own);
    HoldersPut(s.phases, e.r, Finished, key);
    HoldersPut(s.phases, e.r, Holding(own), key);
    var i := IndexOf(st.waiters, e.r);
    assert i >= 0 <==> WaitsFor(s.phases, e.r, own);
    if i >= 0 {
      assert e.r !in Holders(s.phases, key);
    }
  }

  lemma TimeoutQueue(s: System, e: Event, key: string)
    requires e.Timeout? && Enabled(s, e) && QueueInv(s, key) && QueueInv(s, s.phases[e.r].key)
    ensures QueueInv(Next(s, e), key)
  {
    var own := s.phases[e.r].key;
    var st := StateOf(s.states, own);
    var i := IndexOf(st.waiters, e.r);
    assert i >= 0 <==> WaitsFor(s.phases, e.r, own);
    if i >= 0 {
      WithoutMembers(st.waiters, i);
    }
  }

  lemma TimeoutKeeps(s: System, e: Event, key: string)
    requires e.Timeout? && Enabled(s, e) && KeyInv(s, key) && KeyInv(s, s.phases[e.r].key)
    ensures KeyInv(Next(s, e), key)
  {
    hide Next;
    TimeoutCount(s, e, key);
    TimeoutQueue(s, e, key);
  }

  /** Releasing one of `active >= 1` permits: handed on, or one fewer. */
  lemma FreedStates(states: map<string, QueueState>, own: string, key: string)
    requires own in states && states[own].active >= 1
    ensures var (after, handed) := Freed(states, own);
            var st := states[own];
            && (handed == if st.waiters == [] then None else Some(st.waiters[0]))
            && (key != own ==> StateOf(after, key) == StateOf(states, key) && (key in after <==> key in states))
            && StateOf(after, own) == (if st.waiters == []
                then QueueState(st.active - 1, []) else QueueState(st.active, st.waiters[1..]))
            && (own in after ==> StateOf(after, own).active >= 1)
  {
  }

  lemma ReleaseHolders(s: System, e: Event, key: string)
    requires e.Release? && Enabled(s, e) && KeyInv(s, s.phases[e.r].key)
    ensures var own := s.phases[e.r].key;
            |Holders(Next(s, e).phases, key)| ==
            |Holders(s.phases, key)| - if key == own && StateOf(s.states, own).waiters == [] then 1 else 0
  {
    var own := s.phases[e.r].key;
    assert e.r in Holders(s.phases, own);
    HoldersPut(s.phases, e.r, Finished, key);
    var ws := StateOf(s.states, own).waiters;
    var phases := s.phases[e.r := Finished];
    if ws != [] {
      assert ws[0] in ws;
      assert WaitsFor(s.phases, ws[0], own);
      HoldersPut(phases, ws[0], HandedOff(own), key);
    }
  }

  lemma ReleaseCount(s: System, e: Event, key: string)
    requires e.Release? && Enabled(s, e) && CountInv(s, key) && KeyInv(s, s.phases[e.r].key)
    ensures CountInv(Next(s, e), key)
  {
    var own := s.phases[e.r].key;
    assert e.r in Holders(s.phases, own);
    ReleaseHolders(s, e, key);
    FreedStates(s.states, own, key);
  }

  lemma ReleaseQueue(s: System, e: Event, key: string)
    requires e.Release? && Enabled(s, e) && QueueInv(s, key) && KeyInv(s, s.phases[e.r].key)
    ensures QueueInv(Next(s, e), key)
  {
    var own := s.phases[e.r].key;
    assert e.r in Holders(s.phases, own);
    FreedStates(s.states, own, key);
    var ws := StateOf(s.states, own).waiters;
    var after := Next(s, e);
    if ws != [] {
      assert ws[0] in ws && ws == [ws[0]] + ws[1..];
      assert WaitsFor(s.phases, ws[0], own);
      assert forall r :: WaitsFor(after.phases, r, key) <==> WaitsFor(s.phases, r, key) && r != ws[0];
      assert forall r :: r in ws[1..] <==> r in ws && r != ws[0];
    } else {
      assert forall r :: WaitsFor(after.phases, r, key) <==> WaitsFor(s.phases, r, key);
    }
  }

  lemma NextKeepsKey(s: System, e: Event, key: string)
    requires Inv(s) && Enabled(s, e)
    ensures KeyInv(Next(s, e), key)
  {
    assert KeyInv(s, key);
    match e
    case Enter(_, _, _, _) =>
      EnterCount(s, e, key);
      EnterQueue(s, e, key);
    case Wake(r) =>
      HoldersPut(s.phases, r, Holding(s.phases[r].key), key);
    case Timeout(r) =>
      assert KeyInv(s, s.phases[r].key);
      TimeoutKeeps(s, e, key);
    case Release(r) =>
      assert KeyInv(s, s.phases[r].key);
      ReleaseCount(s, e, key);
      ReleaseQueue(s, e, key);
  }

  lemma NextKeeps(s: System, e: Event)
    requires Inv(s)
    ensures Inv(Next(s, e))
  {
    if Enabled(s, e) {
      forall key ensures KeyInv(Next(s, e), key) {
        NextKeepsKey(s, e, key);
      }
    }
  }

  /** With any limits, changing from call to call, and any races of cancellation with hand-off. */
  lemma {:induction false} ActiveCountsPermits(evs: seq<Event>, s: System)
    requires Inv(s)
    ensures Inv(Run(s, evs))
    decreases |evs|
  {
    if evs != [] {
      NextKeeps(s, evs[0]);
      ActiveCountsPermits(evs[1..], Next(s, evs[0]));
    }
  }

  /** A queue is never left without a holder whose release will serve it. */
  lemma NoStrandedWaiter(evs: seq<Event>, key: string)
    ensures var s := Run(IDLE, evs);
            && StateOf(s.states, key).active == |Holders(s.phases, key)|
            && (StateOf(s.states, key).waiters != [] ==> Holders(s.phases, key) != {})
  {
    assert Inv(IDLE) by {
      forall k ensures KeyInv(IDLE, k) {
        assert Holders(IDLE.phases, k) == {};
      }
    }
    ActiveCountsPermits(evs, IDLE);
    assert KeyInv(Run(IDLE, evs), key);
  }

  /** A cancellation that loses the race to a hand-off ends up holding the permit. */
  lemma CancelAfterHandOffHolds(s: System, r: Waiter)
    requires Inv(s) && r in s.phases && s.phases[r].HandedOff?
    ensures Next(s, Timeout(r)) == s.(phases := s.phases[r := Holding(s.phases[r].key)])
  {
    assert KeyInv(s, s.phases[r].key);
    assert !WaitsFor(s.phases, r, s.phases[r].key);
  }

  /** The requests that wait under the key. */
  function WaitingOn(phases: map<Waiter, Phase>, key: string): set<Waiter> {
    set r <- phases | phases[r] == Waiting(key)
  }

  lemma {:induction false} DistinctCount(ws: seq<Waiter>, all: set<Waiter>)
    requires Distinct(ws) && forall r :: r in ws <==> r in all
    ensures |ws| == |all|
    decreases |ws|
  {
    if ws != [] {
      var last := ws[|ws| - 1];
      assert forall r :: r in ws[..|ws| - 1] <==> r in all - {last} by {
        forall r | r in all - {last} ensures r in ws[..|ws| - 1] {
          var k :| 0 <= k < |ws| && ws[k] == r;
        }
      }
      DistinctCount(ws[..|ws| - 1], all - {last});
    } else {
      assert forall r :: r in all <==> r in ws;
      assert all == {};
    }
  }

  lemma Reachable(evs: seq<Event>, key: string)
    ensures KeyInv(Run(IDLE, evs), key)
  {
    NoStrandedWaiter(evs, key);
    forall k ensures KeyInv(IDLE, k) {
      assert Holders(IDLE.phases, k) == {};
    }
    ActiveCountsPermits(evs, IDLE);
  }

  /**
   In every reachable state a new request gets a permit exactly while fewer than the limit are
   out, waits exactly when the queue has room, and is refused only when neither is so. With no
   limit it is let through at once.
   */
  lemma EnterExactly(evs: seq<Event>, r: Waiter, key: string, maxActive: int, maxQueue: int)
    requires r !in Run(IDLE, evs).phases
    ensures var s := Run(IDLE, evs);
            var t := Next(s, Enter(r, key, maxActive, maxQueue));
            var out, waiting := |Holders(s.phases, key)|, |WaitingOn(s.phases, key)|;
            var result := Entered(s.states, key, maxActive, maxQueue, r).1.result;
            && (result == Unlimited <==> maxActive <= 0)
            && (result == QueueFull <==> maxActive > 0 && out >= maxActive && waiting >= maxQueue)
            && (t.phases[r] == Holding(key) <==> maxActive > 0 && out < maxActive)
            && (t.phases[r] == Waiting(key) <==> maxActive > 0 && out >= maxActive && waiting < maxQueue)
  {
    var s := Run(IDLE, evs);
    Reachable(evs, key);
    assert forall w :: w in WaitingOn(s.phases, key) <==> WaitsFor(s.phases, w, key);
    DistinctCount(StateOf(s.states, key).waiters, WaitingOn(s.phases, key));
    hide Run;
  }

  /** A released permit goes to one of those that wait, if there are any, and else is free again. */
  lemma ReleaseServes(evs: seq<Event>, r: Waiter, key: string)
    requires var s := Run(IDLE, evs); r in s.phases && s.phases[r] == Holding(key)
    ensures var s := Run(IDLE, evs);
            var t := Next(s, Release(r));
            if WaitingOn(s.phases, key) == {} then Holders(t.phases, key) == Holders(s.phases, key) - {r}
            else exists w <- WaitingOn(s.phases, key) ::
                   t.phases[w] == HandedOff(key) && Holders(t.phases, key) == Holders(s.phases, key) - {r} + {w}
  {
    var s := Run(IDLE, evs);
    Reachable(evs, key);
    hide Run;
    var ws := StateOf(s.states, key).waiters;
    assert r in Holders(s.phases, key) && key in s.states;
    assert forall w :: w in WaitingOn(s.phases, key) <==> WaitsFor(s.phases, w, key);
    if ws == [] {
      assert WaitingOn(s.phases, key) == {};
    } else {
      assert ws[0] in ws && WaitsFor(s.phases, ws[0], key);
    }
  }

  /** One that gives up leaves the queue, and the others keep their places. */
  lemma TimeoutLeaves(evs: seq<Event>, r: Waiter, key: string)
    requires var s := Run(IDLE, evs); r in s.phases && s.phases[r] == Waiting(key)
    ensures var s := Run(IDLE, evs);
            var t := Next(s, Timeout(r));
            && t.phases == s.phases[r := Finished]
            && (exists before, after ::
                  && StateOf(s.states, key).waiters == before + [r] + after
                  && StateOf(t.states, key).waiters == before + after && r !in before + after)
  {
    var s := Run(IDLE, evs);
    Reachable(evs, key);
    hide Run;
    var ws := StateOf(s.states, key).waiters;
    assert WaitsFor(s.phases, r, key);
    var i := IndexOf(ws, r);
    assert i >= 0;
    WithoutMembers(ws, i);
    assert ws == ws[..i] + [r] + ws[i + 1..];
    assert StateOf(Next(s, Timeout(r)).states, key).waiters == ws[..i] + ws[i + 1..];
  }

  // ----- Fixed limits -----

  /** One pair of limits per key, used by every call. */
  datatype Limits = Limits(maxActive: string -> int, maxQueue: string -> int)

  predicate Uses(e: Event, lim: Limits) {
    e.Enter? ==> e.maxActive == lim.maxActive(e.key) && e.maxQueue == lim.maxQueue(e.key)
  }

  ghost predicate Bounded(s: System, lim: Limits, key: string) {
    var st := StateOf(s.states, key);
    && (st.active > 0 ==> st.active <= lim.maxActive(key))
    && (st.waiters != [] ==> |st.waiters| <= lim.maxQueue(key) && st.active == lim.maxActive(key))
  }

  /** What arrived, what was granted, in order, and who gave up waiting. */
  datatype History = History(arrived: seq<Waiter>, granted: seq<Waiter>, gone: set<Waiter>)

  function Remaining(ws: seq<Waiter>, gone: set<Waiter>): seq<Waiter> {
    if ws == [] then [] else (if ws[0] in gone then [] else [ws[0]]) + Remaining(ws[1..], gone)
  }

  /** The history of one key. */
  function Record(h: History, s: System, e: Event, key: string): History {
    if !Enabled(s, e) then h
    else match e
      case Enter(r, k, maxActive, maxQueue) =>
        var (_, stats) := Entered(s.states, k, maxActive, maxQueue, r);
        if k != key then h
        else if stats.result == Admitted then h.(arrived := h.arrived + [r], granted := h.granted + [r])
        else if stats.result == Queued then h.(arrived := h.arrived + [r])
        else h
      case Wake(_) => h
      case Timeout(r) =>
        if s.phases[r].key == key && Cancelled(s.states, key, r).1 then h.(gone := h.gone + {r}) else h
      case Release(r) =>
        var handed := Freed(s.states, s.phases[r].key).1;
        if s.phases[r].key == key && handed.Some? then h.(granted := h.granted + [handed.value]) else h
  }

  ghost predicate InOrder(s: System, h: History, key: string) {
    && Remaining(h.arrived, h.gone) == h.granted + StateOf(s.states, key).waiters
    && (forall r <- h.arrived :: r in s.phases)
    && (forall r <- h.gone :: r in s.phases)
    && (forall r <- h.granted :: r in s.phases && s.phases[r] != Waiting(key))
  }

  lemma {:induction false} RemainingSnoc(ws: seq<Waiter>, r: Waiter, gone: set<Waiter>)
    ensures Remaining(ws + [r], gone) == Remaining(ws, gone) + if r in gone then [] else [r]
    decreases |ws|
  {
    if ws == [] {
      assert ws + [r] == [r] && Remaining([r][1..], gone) == [];
    } else {
      assert (ws + [r])[1..] == ws[1..] + [r];
      RemainingSnoc(ws[1..], r, gone);
    }
  }

  lemma {:induction false} RemainingTwice(ws: seq<Waiter>, gone: set<Waiter>, r: Waiter)
    ensures Remaining(ws, gone + {r}) == Remaining(Remaining(ws, gone), {r})
    decreases |ws|
  {
    if ws != [] {
      RemainingTwice(ws[1..], gone, r);
      var rest := Remaining(ws[1..], gone);
      if ws[0] !in gone {
        assert ([ws[0]] + rest)[1..] == rest;
      } else {
        assert Remaining(ws, gone) == rest;
      }
    }
  }

  lemma {:induction false} RemainingAbsent(ws: seq<Waiter>, r: Waiter)
    requires r !in ws
    ensures Remaining(ws, {r}) == ws
    decreases |ws|
  {
    if ws != [] {
      RemainingAbsent(ws[1..], r);
    }
  }

  lemma {:induction false} RemainingConcat(a: seq<Waiter>, b: seq<Waiter>, gone: set<Waiter>)
    ensures Remaining(a + b, gone) == Remaining(a, gone) + Remaining(b, gone)
    decreases |a|
  {
    if a == [] {
      assert a + b == b;
    } else {
      assert (a + b)[1..] == a[1..] + b;
      RemainingConcat(a[1..], b, gone);
    }
  }

  lemma RemoveFromQueue(granted: seq<Waiter>, ws: seq<Waiter>, i: nat)
    requires i < |ws| && Distinct(ws) && ws[i] !in granted
    ensures Remaining(granted + ws, {ws[i]}) == granted + Without(ws, i)
  {
    var r := ws[i];
    RemainingConcat(granted, ws, {r});
    RemainingAbsent(granted, r);
    var tail := ws[i + 1..];
    assert ws == ws[..i] + ([r] + tail);
    RemainingConcat(ws[..i], [r] + tail, {r});
    RemainingAbsent(ws[..i], r);
    assert ([r] + tail)[1..] == tail;
    assert r !in tail;
    RemainingAbsent(tail, r);
    assert Remaining([r] + tail, {r}) == tail;
  }

  lemma NextBounded(s: System, e: Event, lim: Limits, key: string)
    requires Inv(s) && Bounded(s, lim, key) && Uses(e, lim)
    ensures Bounded(Next(s, e), lim, key)
  {
    assert KeyInv(s, key);
  }

  lemma TimeoutInOrder(s: System, h: History, r: Waiter, key: string)
    requires Inv(s) && InOrder(s, h, key) && Enabled(s, Timeout(r))
    ensures InOrder(Next(s, Timeout(r)), Record(h, s, Timeout(r), key), key)
  {
    assert KeyInv(s, key) && KeyInv(s, s.phases[r].key);
    var st := StateOf(s.states, key);
    var i := IndexOf(st.waiters, r);
    if s.phases[r].key == key && i >= 0 {
      assert WaitsFor(s.phases, r, key);
      RemainingTwice(h.arrived, h.gone, r);
      RemoveFromQueue(h.granted, st.waiters, i);
    }
  }

  lemma EnterInOrder(s: System, h: History, e: Event, lim: Limits, key: string)
    requires KeyInv(s, key) && Bounded(s, lim, key) && Uses(e, lim) && InOrder(s, h, key) && e.Enter? && Enabled(s, e)
    ensures InOrder(Next(s, e), Record(h, s, e, key), key)
  {
    RemainingSnoc(h.arrived, e.r, h.gone);
    if e.key == key {
      var st := StateOf(s.states, key);
      assert h.granted + (st.waiters + [e.r]) == h.granted + st.waiters + [e.r];
    }
  }

  lemma ReleaseInOrder(s: System, h: History, e: Event, key: string)
    requires Inv(s) && InOrder(s, h, key) && e.Release? && Enabled(s, e)
    ensures InOrder(Next(s, e), Record(h, s, e, key), key)
  {
    var own := s.phases[e.r].key;
    assert KeyInv(s, own) && KeyInv(s, key);
    var st := StateOf(s.states, own);
    if st.waiters != [] {
      assert st.waiters[0] in st.waiters;
      assert h.granted + st.waiters == h.granted + [st.waiters[0]] + st.waiters[1..];
    }
  }

  lemma NextInOrder(s: System, h: History, e: Event, lim: Limits, key: string)
    requires Inv(s) && Bounded(s, lim, key) && Uses(e, lim) && InOrder(s, h, key)
    ensures InOrder(Next(s, e), Record(h, s, e, key), key)
  {
    if Enabled(s, e) {
      match e
      case Enter(_, _, _, _) =>
        assert KeyInv(s, key);
        EnterInOrder(s, h, e, lim, key);
      case Wake(_) =>
      case Timeout(r) => TimeoutInOrder(s, h, r, key);
      case Release(_) => ReleaseInOrder(s, h, e, key);
    }
  }

  function Recorded(h: History, s: System, evs: seq<Event>, key: string): History
    decreases |evs|
  {
    if evs == [] then h else Recorded(Record(h, s, evs[0], key), Next(s, evs[0]), evs[1..], key)
  }

  lemma {:induction false} FixedLimitsRun(evs: seq<Event>, s: System, h: History, lim: Limits, key: string)
    requires Inv(s) && Bounded(s, lim, key) && InOrder(s, h, key) && forall e <- evs :: Uses(e, lim)
    ensures Bounded(Run(s, evs), lim, key) && InOrder(Run(s, evs), Recorded(h, s, evs, key), key)
    decreases |evs|
  {
    if evs != [] {
      NextKeeps(s, evs[0]);
      NextBounded(s, evs[0], lim, key);
      NextInOrder(s, h, evs[0], lim, key);
      FixedLimitsRun(evs[1..], Next(s, evs[0]), Record(h, s, evs[0], key), lim, key);
    }
  }

  /**
   Under fixed limits: active stays within maxActive, the queue within maxQueue, a queue
   forms only when every permit is out, and the requests that did not give up are granted
   in the order they arrived, direct admissions included.
   */
  lemma FirstComeFirstServed(evs: seq<Event>, lim: Limits, key: string)
    requires forall e <- evs :: Uses(e, lim)
    ensures Bounded(Run(IDLE, evs), lim, key)
    ensures var h := Recorded(History([], [], {}), IDLE, evs, key);
            Remaining(h.arrived, h.gone) == h.granted + StateOf(Run(IDLE, evs).states, key).waiters
  {
    forall k ensures KeyInv(IDLE, k) {
      assert Holders(IDLE.phases, k) == {};
    }
    FixedLimitsRun(evs, IDLE, History([], [], {}), lim, key);
  }

  /** When a limit rises between calls, a newcomer is admitted ahead of a waiter. */
  lemma RaisedLimitOvertakes(key: string)
    ensures var evs := [Enter(1, key, 1, 1), Enter(2, key, 1, 1), Enter(3, key, 2, 1)];
            var h := Recorded(History([], [], {}), IDLE, evs, key);
            h.arrived == [1, 2, 3] && h.granted == [1, 3] && StateOf(Run(IDLE, evs).states, key).waiters == [2]
  {
    var e1, e2, e3 := Enter(1, key, 1, 1), Enter(2, key, 1, 1), Enter(3, key, 2, 1);
    var s1 := Next(IDLE, e1);
    var s2 := Next(s1, e2);
    var s3 := Next(s2, e3);
    var h1 := Record(History([], [], {}), IDLE, e1, key);
    var h2 := Record(h1, s1, e2, key);
    var h3 := Record(h2, s2, e3, key);
    assert [e1, e2, e3][1..] == [e2, e3] && [e2, e3][1..] == [e3] && [e3][1..] == [];
    assert Recorded(h2, s2, [e3], key) == Recorded(h3, s3, [], key) == h3;
    assert Recorded(h1, s1, [e2, e3], key) == h3;
    assert Run(s2, [e3]) == Run(s3, []) == s3;
    assert Run(s1, [e2, e3]) == s3;
  }

  /** Overtaking happens exactly when someone waits and the caller's limit exceeds `active`. */
  lemma OvertakesExactly(s: System, h: History, e: Event, key: string)
    requires Inv(s) && InOrder(s, h, key) && e.Enter? && Enabled(s, e) && e.key == key
    ensures InOrder(Next(s, e), Record(h, s, e, key), key) <==>
            !(StateOf(s.states, key).waiters != [] && StateOf(s.states, key).active < e.maxActive)
  {
    assert KeyInv(s, key);
    RemainingSnoc(h.arrived, e.r, h.gone);
    var st := StateOf(s.states, key);
    if st.waiters != [] && st.active < e.maxActive {
      var kept := Remaining(h.arrived + [e.r], h.gone);
      assert kept == h.granted + st.waiters + [e.r];
      var claimed := h.granted + [e.r] + st.waiters;
      assert kept[|h.granted|] == st.waiters[0] && st.waiters[0] in st.waiters;
      assert claimed[|h.granted|] == e.r;
      assert kept != claimed;
    }
  }
}
