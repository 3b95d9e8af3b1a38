/**
 The gateway's FRP transport leases (`internal/gateway/transport_lease.go` and
 `transport_lease_store.go`).

 `LeaseManager` is the class with its loops. Each method is proved against a function on
 the lease list; the state machine over those functions carries the results: what every
 reachable lease set satisfies, what `Acquire` may return, and that renewing in time keeps
 a lease. Times are integer ticks; a clock reading is never the zero time.
 */
module TransportLeases {

  import opened Basics

  type Instant = t: int | t > 0 witness 1

  const ID_ATTEMPTS := 8

  datatype Policy = Policy(portStart: int, portEnd: int, ttl: int)

  datatype Request = Request(agentId: string, generation: nat, currentLeaseId: string, excludedSlots: seq<int>)

  datatype Lease = Lease(
    agentId: string, leaseId: string, slot: int, remotePort: int,
    generation: nat, current: bool, renewedAt: int, expiresAt: int)

  datatype Error =
    | InvalidPolicy | InvalidRequest | Conflict | Capacity
    | IdFailure | IdCollision | NotFound | SaveFailed

  datatype Outcome = Granted(lease: Lease) | Failed(error: Error)

  datatype Released = Released(found: bool) | NotReleased

  // ----- Searching the list -----

  function FirstIndex(leases: seq<Lease>, p: Lease -> bool): (i: int)
    ensures -1 <= i < |leases|
    ensures i >= 0 ==> p(leases[i]) && forall k :: 0 <= k < i ==> !p(leases[k])
    ensures i < 0 ==> forall l <- leases :: !p(l)
  {
    if leases == [] then -1
    else if p(leases[0]) then 0
    else
      var rest := FirstIndex(leases[1..], p);
      if rest < 0 then -1 else rest + 1
  }

  lemma FirstIndexIs(leases: seq<Lease>, p: Lease -> bool, i: int)
    requires 0 <= i < |leases| && p(leases[i]) && forall k :: 0 <= k < i ==> !p(leases[k])
    ensures FirstIndex(leases, p) == i
  {
    var j := FirstIndex(leases, p);
    assert leases[i] in leases;
  }

  lemma FirstIndexAbsent(leases: seq<Lease>, p: Lease -> bool)
    requires forall k :: 0 <= k < |leases| ==> !p(leases[k])
    ensures FirstIndex(leases, p) == -1
  {
  }

  // ----- Pruning and validating -----

  function Prune(leases: seq<Lease>, now: int): seq<Lease> {
    if leases == [] then []
    else (if leases[0].expiresAt > now then [leases[0]] else []) + Prune(leases[1..], now)
  }

  lemma {:induction false} PruneSnoc(leases: seq<Lease>, l: Lease, now: int)
    ensures Prune(leases + [l], now) == Prune(leases, now) + if l.expiresAt > now then [l] else []
    decreases |leases|
  {
    if leases == [] {
      assert leases + [l] == [l];
      assert Prune([l][1..], now) == [];
    } else {
      assert (leases + [l])[1..] == leases[1..] + [l];
      PruneSnoc(leases[1..], l, now);
    }
  }

  lemma {:induction false} PruneMembers(leases: seq<Lease>, now: int)
    ensures forall l :: l in Prune(leases, now) <==> l in leases && l.expiresAt > now
    ensures |Prune(leases, now)| <= |leases|
    ensures |Prune(leases, now)| == |leases| ==> Prune(leases, now) == leases
    decreases |leases|
  {
    if leases != [] {
      PruneMembers(leases[1..], now);
      assert leases == [leases[0]] + leases[1..];
    }
  }

  predicate ValidPolicy(policy: Policy) {
    1 <= policy.portStart <= policy.portEnd <= 65535 && policy.ttl > 0
  }

  predicate ValidLease(l: Lease) {
    && !Blank(l.agentId) && !Blank(l.leaseId)
    && l.generation != 0 && l.slot >= 0 && 1 <= l.remotePort <= 65535
    && l.renewedAt != 0 && l.expiresAt > l.renewedAt
  }

  predicate Clash(a: Lease, b: Lease) {
    a.remotePort == b.remotePort || a.leaseId == b.leaseId || (a.current && b.current && a.agentId == b.agentId)
  }

  /** What a lease set must satisfy to be accepted when it is loaded. */
  predicate Loadable(leases: seq<Lease>) {
    && (forall l <- leases :: ValidLease(l))
    && (forall i, j :: 0 <= i < j < |leases| ==> !Clash(leases[i], leases[j]))
  }

  method ValidateLoaded(leases: seq<Lease>) returns (ok: bool)
    ensures ok == Loadable(leases)
  {
    var ports: map<int, string>, ids: set<string>, currentAgents: map<string, string> := map[], {}, map[];
    for i := 0 to |leases|
      invariant forall k :: 0 <= k < i ==> ValidLease(leases[k])
      invariant forall j, k :: 0 <= j < k < i ==> !Clash(leases[j], leases[k])
      invariant ports.Keys == set k | 0 <= k < i :: leases[k].remotePort
      invariant ids == set k | 0 <= k < i :: leases[k].leaseId
      invariant currentAgents.Keys == set k | 0 <= k < i && leases[k].current :: leases[k].agentId
    {
      var l := leases[i];
      var valid := CheckLease(l);
      if !valid {
        assert l in leases;
        return false;
      }
      if l.remotePort in ports {
        ghost var k :| 0 <= k < i && leases[k].remotePort == l.remotePort;
        assert Clash(leases[k], leases[i]);
        return false;
      }
      ports := ports[l.remotePort := l.leaseId];
      if l.leaseId in ids {
        ghost var k :| 0 <= k < i && leases[k].leaseId == l.leaseId;
        assert Clash(leases[k], leases[i]);
        return false;
      }
      ids := ids + {l.leaseId};
      if l.current {
        if l.agentId in currentAgents {
          ghost var k :| 0 <= k < i && leases[k].current && leases[k].agentId == l.agentId;
          assert Clash(leases[k], leases[i]);
          return false;
        }
        currentAgents := currentAgents[l.agentId := l.leaseId];
      }
    }
    return true;
  }

  method CheckLease(l: Lease) returns (ok: bool)
    ensures ok == ValidLease(l)
  {
    if Blank(l.agentId) || Blank(l.leaseId) {
      return false;
    }
    if l.generation == 0 || l.slot < 0 || l.remotePort < 1 || l.remotePort > 65535 {
      return false;
    }
    return l.renewedAt != 0 && l.expiresAt > l.renewedAt;
  }

  predicate MatchesPolicy(l: Lease, policy: Policy) {
    && policy.portStart <= l.remotePort <= policy.portEnd
    && l.slot == l.remotePort - policy.portStart
    && l.expiresAt - l.renewedAt == policy.ttl
  }

  predicate IsCurrent(l: Lease, agentId: string, leaseId: string, generation: nat) {
    l.current && l.agentId == agentId && l.leaseId == leaseId && l.generation == generation
  }

  // ----- Renew -----

  predicate Renewable(l: Lease, policy: Policy, agentId: string, leaseId: string, generation: nat, now: int) {
    IsCurrent(l, agentId, leaseId, generation) && l.expiresAt > now && MatchesPolicy(l, policy)
  }

  function Extended(l: Lease, policy: Policy, now: int): Lease {
    l.(renewedAt := now, expiresAt := now + policy.ttl)
  }

  function RenewableBy(policy: Policy, agentId: string, leaseId: string, generation: nat, now: int): Lease -> bool {
    l => Renewable(l, policy, agentId, leaseId, generation, now)
  }

  /** The lease list after a renewal, what it returned, and whether it asked for a save. */
  function Renewed(leases: seq<Lease>, policy: Policy, agentId: string, leaseId: string, generation: nat,
                   now: Instant, saveOk: bool): (r: (seq<Lease>, Outcome, bool))
  {
    if !ValidPolicy(policy) then (leases, Failed(InvalidPolicy), false)
    else
      var i := FirstIndex(leases, RenewableBy(policy, agentId, leaseId, generation, now));
      if i < 0 then (leases, Failed(NotFound), false)
      else if leases[i].expiresAt - now > policy.ttl / 2 then (leases, Granted(leases[i]), false)
      else if !saveOk then (leases, Failed(SaveFailed), true)
      else
        var l := Extended(leases[i], policy, now);
        (leases[i := l], Granted(l), true)
  }

  // ----- Release -----

  function Without(leases: seq<Lease>, i: nat): seq<Lease>
    requires i < |leases|
  {
    leases[..i] + leases[i + 1..]
  }

  function CurrentFor(agentId: string, leaseId: string, generation: nat): Lease -> bool {
    l => IsCurrent(l, agentId, leaseId, generation)
  }

  function ReleasedList(leases: seq<Lease>, agentId: string, leaseId: string, generation: nat,
                        now: Instant, saveOk: bool): (seq<Lease>, Released)
  {
    var live := Prune(leases, now);
    var i := FirstIndex(live, CurrentFor(agentId, leaseId, generation));
    var candidate := if i >= 0 then Without(live, i) else live;
    if i < 0 && |candidate| == |leases| then (leases, Released(false))
    else if !saveOk then (leases, NotReleased)
    else (candidate, Released(i >= 0))
  }

  // ----- Acquire -----

  predicate ValidRequest(policy: Policy, request: Request) {
    && !Blank(request.agentId) && request.generation != 0
    && forall slot <- request.excludedSlots :: 0 <= slot <= policy.portEnd - policy.portStart
  }

  predicate Sticky(l: Lease, policy: Policy, request: Request) {
    && l.current && l.agentId == request.agentId && l.generation == request.generation
    && MatchesPolicy(l, policy) && l.slot !in request.excludedSlots
  }

  function StickyFor(policy: Policy, request: Request): Lease -> bool {
    l => Sticky(l, policy, request)
  }

  function CurrentOf(agentId: string): Lease -> bool {
    (l: Lease) => l.current && l.agentId == agentId
  }

  predicate OwnsExpired(leases: seq<Lease>, request: Request, now: int) {
    request.currentLeaseId != "" &&
    exists l <- leases :: l.agentId == request.agentId && l.leaseId == request.currentLeaseId && l.expiresAt <= now
  }

  /** Whether the lease id the agent presents contradicts the agent's current lease. */
  predicate RequestConflicts(leases: seq<Lease>, policy: Policy, request: Request, now: int) {
    var live := Prune(leases, now);
    var i := FirstIndex(live, CurrentOf(request.agentId));
    if i < 0 then request.currentLeaseId != "" && !OwnsExpired(leases, request, now)
    else
      || (request.currentLeaseId != "" && request.currentLeaseId != live[i].leaseId)
      || (!Sticky(live[i], policy, request) && request.currentLeaseId != live[i].leaseId)
  }

  predicate PortFree(policy: Policy, request: Request, live: seq<Lease>, port: int) {
    && policy.portStart <= port <= policy.portEnd
    && port - policy.portStart !in request.excludedSlots
    && forall l <- live :: l.remotePort != port
  }

  /** The lowest free port from `port` up, or 0. */
  function LowestFree(policy: Policy, request: Request, live: seq<Lease>, port: int): (p: int)
    requires ValidPolicy(policy) && policy.portStart <= port <= policy.portEnd + 1
    ensures p != 0 ==> PortFree(policy, request, live, p) && forall q :: port <= q < p ==> !PortFree(policy, request, live, q)
    ensures p == 0 ==> forall q :: port <= q ==> !PortFree(policy, request, live, q)
    decreases policy.portEnd - port
  {
    if port > policy.portEnd then 0
    else if PortFree(policy, request, live, port) then port
    else LowestFree(policy, request, live, port + 1)
  }

  datatype NewId = FreshId(id: string) | NoId(error: Error)

  /** The first usable id the generator yields; None is a generator failure. */
  function PickId(used: set<string>, ids: seq<Option<string>>): NewId {
    if ids == [] then NoId(IdCollision)
    else if ids[0].None? then NoId(IdFailure)
    else if !Blank(ids[0].value) && ids[0].value !in used then FreshId(ids[0].value)
    else PickId(used, ids[1..])
  }

  function LeaseIds(leases: seq<Lease>): set<string> {
    set l <- leases :: l.leaseId
  }

  function Demote(leases: seq<Lease>, agentId: string): seq<Lease> {
    seq(|leases|, i requires 0 <= i < |leases| =>
      if leases[i].current && leases[i].agentId == agentId then leases[i].(current := false) else leases[i])
  }

  function NewLease(policy: Policy, request: Request, id: string, port: int, now: int): Lease {
    Lease(request.agentId, id, port - policy.portStart, port, request.generation, true, now, now + policy.ttl)
  }

  function Acquired(leases: seq<Lease>, policy: Policy, request: Request, now: Instant,
                    ids: seq<Option<string>>, saveOk: bool): (seq<Lease>, Outcome)
  {
    if !ValidPolicy(policy) then (leases, Failed(InvalidPolicy))
    else if !ValidRequest(policy, request) then (leases, Failed(InvalidRequest))
    else if RequestConflicts(leases, policy, request, now) then (leases, Failed(Conflict))
    else
      var live := Prune(leases, now);
      if FirstIndex(live, StickyFor(policy, request)) >= 0
      then AcquiredSticky(leases, live, policy, request, now, saveOk)
      else AcquiredFresh(leases, live, policy, request, now, ids, saveOk)
  }

  function AcquiredSticky(leases: seq<Lease>, live: seq<Lease>, policy: Policy, request: Request, now: Instant,
                          saveOk: bool): (seq<Lease>, Outcome)
    requires FirstIndex(live, StickyFor(policy, request)) >= 0
  {
    var i := FirstIndex(live, StickyFor(policy, request));
    var l := Extended(live[i], policy, now);
    if saveOk then (live[i := l], Granted(l)) else (leases, Failed(SaveFailed))
  }

  function AcquiredFresh(leases: seq<Lease>, live: seq<Lease>, policy: Policy, request: Request, now: Instant,
                         ids: seq<Option<string>>, saveOk: bool): (seq<Lease>, Outcome)
    requires ValidPolicy(policy)
  {
    var port := LowestFree(policy, request, live, policy.portStart);
    if port == 0 then (leases, Failed(Capacity))
    else
      var id := PickId(LeaseIds(live), ids);
      if id.NoId? then (leases, Failed(id.error))
      else
        var l := NewLease(policy, request, id.id, port, now);
        if saveOk then (Demote(live, request.agentId) + [l], Granted(l)) else (leases, Failed(SaveFailed))
  }

  // ----- The store and the manager -----

  /** Replaces its snapshot only when a save succeeds. */
  class LeaseStore {
    var saved: seq<Lease>

    constructor (initial: seq<Lease>)
      ensures saved == initial
    {
      saved := initial;
    }

    method Save(leases: seq<Lease>, saveOk: bool) returns (ok: bool)
      modifies this
      ensures ok == saveOk
      ensures saved == if saveOk then leases else old(saved)
    {
      ok := saveOk;
      if ok {
        saved := leases;
      }
    }
  }

  class LeaseManager {
    const store: LeaseStore
    var leases: seq<Lease>

    /** Memory and the persisted snapshot agree. */
    ghost predicate Valid()
      reads this, store
    {
      store.saved == leases
    }

    constructor (store: LeaseStore, leases: seq<Lease>)
      ensures this.store == store && this.leases == leases
    {
      this.store := store;
      this.leases := leases;
    }

    /** Loads, prunes, validates, and saves what pruning changed; None when any step fails. */
    static method Open(store: LeaseStore, now: Instant, saveOk: bool) returns (manager: LeaseManager?)
      modifies store
      ensures manager != null <==>
              Loadable(Prune(old(store.saved), now)) && (saveOk || Prune(old(store.saved), now) == old(store.saved))
      ensures manager != null ==> fresh(manager) && manager.store == store && manager.Valid()
      ensures store.saved == if manager != null then Prune(old(store.saved), now) else old(store.saved)
    {
      var loaded := store.saved;
      var pruned := PruneExpired(loaded, now);
      PruneMembers(loaded, now);
      var ok := ValidateLoaded(pruned);
      if !ok {
        return null;
      }
      if |pruned| != |loaded| {
        ok := store.Save(pruned, saveOk);
        if !ok {
          return null;
        }
      }
      manager := new LeaseManager(store, pruned);
    }

    static method PruneExpired(leases: seq<Lease>, now: int) returns (result: seq<Lease>)
      ensures result == Prune(leases, now)
    {
      result := [];
      for i := 0 to |leases|
        invariant result == Prune(leases[..i], now)
      {
        PruneSnoc(leases[..i], leases[i], now);
        assert leases[..i + 1] == leases[..i] + [leases[i]];
        if leases[i].expiresAt > now {
          result := result + [leases[i]];
        }
      }
      assert leases[..|leases|] == leases;
    }

    method LookupCurrent(agentId: string, leaseId: string, generation: nat, now: Instant) returns (r: Outcome)
      ensures r.Granted? ==> r.lease in leases && IsCurrent(r.lease, agentId, leaseId, generation) && r.lease.expiresAt > now
      ensures r.Failed? ==>
                && r.error == NotFound
                && forall l <- leases :: !(IsCurrent(l, agentId, leaseId, generation) && l.expiresAt > now)
    {
      for i := 0 to |leases|
        invariant forall k :: 0 <= k < i ==> !(IsCurrent(leases[k], agentId, leaseId, generation) && leases[k].expiresAt > now)
      {
        if IsCurrent(leases[i], agentId, leaseId, generation) && leases[i].expiresAt > now {
          return Granted(leases[i]);
        }
      }
      return Failed(NotFound);
    }

    method Renew(policy: Policy, agentId: string, leaseId: string, generation: nat, now: Instant, saveOk: bool)
      returns (r: Outcome)
      requires Valid()
      modifies this, store
      ensures Valid()
      ensures var (after, outcome, _) := Renewed(old(leases), policy, agentId, leaseId, generation, now, saveOk);
              leases == after && r == outcome
    {
      if !ValidPolicy(policy) {
        return Failed(InvalidPolicy);
      }
      ghost var p := RenewableBy(policy, agentId, leaseId, generation, now);
      var match_ := -1;
      for i := 0 to |leases|
        invariant match_ == -1 && leases == old(leases) && Valid()
        invariant forall k :: 0 <= k < i ==> !p(leases[k])
      {
        var lease := leases[i];
        if IsCurrent(lease, agentId, leaseId, generation) && lease.expiresAt > now && MatchesPolicy(lease, policy) {
          FirstIndexIs(leases, p, i);
          match_ := i;
          if lease.expiresAt - now > policy.ttl / 2 {
            return Granted(lease);
          }
          break;
        }
      }
      if match_ < 0 {
        FirstIndexAbsent(leases, p);
        return Failed(NotFound);
      }
      var candidate := leases;
      candidate := candidate[match_ := candidate[match_].(renewedAt := now, expiresAt := now + policy.ttl)];
      var saved := store.Save(candidate, saveOk);
      if !saved {
        return Failed(SaveFailed);
      }
      leases := candidate;
      return Granted(candidate[match_]);
    }

    static method IndexOfCurrent(live: seq<Lease>, agentId: string, leaseId: string,
                                 generation: nat) returns (index: int)
      ensures index == FirstIndex(live, CurrentFor(agentId, leaseId, generation))
    {
      ghost var p := CurrentFor(agentId, leaseId, generation);
      for i := 0 to |live|
        invariant forall k :: 0 <= k < i ==> !p(live[k])
      {
        if IsCurrent(live[i], agentId, leaseId, generation) {
          FirstIndexIs(live, p, i);
          return i;
        }
      }
      FirstIndexAbsent(live, p);
      return -1;
    }

    method Release(agentId: string, leaseId: string, generation: nat, now: Instant, saveOk: bool) returns (r: Released)
      requires Valid()
      modifies this, store
      ensures Valid()
      ensures (leases, r) == ReleasedList(old(leases), agentId, leaseId, generation, now, saveOk)
    {
      var candidate := PruneExpired(leases, now);
      PruneMembers(leases, now);
      var match_ := IndexOfCurrent(candidate, agentId, leaseId, generation);
      if match_ >= 0 {
        candidate := candidate[..match_] + candidate[match_ + 1..];
      }
      if match_ >= 0 || |candidate| != |leases| {
        var saved := store.Save(candidate, saveOk);
        if !saved {
          return NotReleased;
        }
        leases := candidate;
      }
      return Released(match_ >= 0);
    }

    static method GenerateUniqueId(live: seq<Lease>, ids: seq<Option<string>>) returns (r: NewId)
      requires |ids| == ID_ATTEMPTS
      ensures r == PickId(LeaseIds(live), ids)
    {
      var used: set<string> := {};
      for i := 0 to |live|
        invariant used == LeaseIds(live[..i])
      {
        used := used + {live[i].leaseId};
        assert live[..i + 1] == live[..i] + [live[i]];
      }
      assert live[..|live|] == live;
      for attempt := 0 to ID_ATTEMPTS
        invariant PickId(used, ids) == PickId(used, ids[attempt..])
      {
        if ids[attempt].None? {
          return NoId(IdFailure);
        }
        var id := ids[attempt].value;
        if Blank(id) {
          continue;
        }
        if id !in used {
          return FreshId(id);
        }
      }
      return NoId(IdCollision);
    }

    static method FindPort(policy: Policy, request: Request, live: seq<Lease>) returns (port: int)
      requires ValidPolicy(policy)
      ensures port == LowestFree(policy, request, live, policy.portStart)
    {
      var usedPorts: set<int> := {};
      for i := 0 to |live|
        invariant forall p :: p in usedPorts <==> exists k :: 0 <= k < i && live[k].remotePort == p
      {
        usedPorts := usedPorts + {live[i].remotePort};
      }
      for candidate := policy.portStart to policy.portEnd + 1
        invariant LowestFree(policy, request, live, policy.portStart) == LowestFree(policy, request, live, candidate)
      {
        var slot := candidate - policy.portStart;
        if slot in request.excludedSlots {
          continue;
        }
        if candidate !in usedPorts {
          return candidate;
        }
      }
      return 0;
    }

    static method Conflicts(leases: seq<Lease>, live: seq<Lease>, policy: Policy, request: Request, now: Instant)
      returns (conflict: bool)
      requires live == Prune(leases, now)
      ensures conflict == RequestConflicts(leases, policy, request, now)
    {
      var expiredOwned := false;
      if request.currentLeaseId != "" {
        for i := 0 to |leases|
          invariant !expiredOwned
          invariant forall k ::
              0 <= k < i ==>
                || leases[k].agentId != request.agentId || leases[k].leaseId != request.currentLeaseId
                || leases[k].expiresAt > now
        {
          if leases[i].agentId == request.agentId && leases[i].leaseId == request.currentLeaseId && leases[i].expiresAt <= now {
            expiredOwned := true;
            break;
          }
        }
      }
      assert expiredOwned == OwnsExpired(leases, request, now);
      ghost var p := CurrentOf(request.agentId);
      var index := -1;
      for i := 0 to |live|
        invariant index == -1
        invariant forall k :: 0 <= k < i ==> !p(live[k])
      {
        if live[i].current && live[i].agentId == request.agentId {
          FirstIndexIs(live, p, i);
          index := i;
          break;
        }
      }
      if index < 0 {
        FirstIndexAbsent(live, p);
        return request.currentLeaseId != "" && !expiredOwned;
      }
      var current := live[index];
      if request.currentLeaseId != "" && request.currentLeaseId != current.leaseId {
        return true;
      }
      var sticky := current.generation == request.generation && MatchesPolicy(current, policy) &&
                    current.slot !in request.excludedSlots;
      return !sticky && request.currentLeaseId != current.leaseId;
    }

    method Acquire(policy: Policy, request: Request, now: Instant, ids: seq<Option<string>>, saveOk: bool)
      returns (r: Outcome)
      requires Valid() && |ids| == ID_ATTEMPTS
      modifies this, store
      ensures Valid()
      ensures (leases, r) == Acquired(old(leases), policy, request, now, ids, saveOk)
    {
      if !ValidPolicy(policy) {
        return Failed(InvalidPolicy);
      }
      if Blank(request.agentId) || request.generation == 0 {
        return Failed(InvalidRequest);
      }
      var slotsOk := SlotsInRange(policy, request);
      if !slotsOk {
        return Failed(InvalidRequest);
      }
      var candidate := PruneExpired(leases, now);
      var conflict := Conflicts(leases, candidate, policy, request, now);
      if conflict {
        return Failed(Conflict);
      }
      ghost var p := StickyFor(policy, request);
      for i := 0 to |candidate|
        invariant forall k :: 0 <= k < i ==> !p(candidate[k])
      {
        if Sticky(candidate[i], policy, request) {
          FirstIndexIs(candidate, p, i);
          r := RenewInPlace(policy, request, now, saveOk, candidate, i);
          return;
        }
      }
      FirstIndexAbsent(candidate, p);
      r := AllocateFresh(policy, request, now, ids, saveOk, candidate);
    }

    method RenewInPlace(policy: Policy, request: Request, now: Instant, saveOk: bool, live: seq<Lease>, i: nat)
      returns (r: Outcome)
      requires Valid() && i < |live| && i == FirstIndex(live, StickyFor(policy, request))
      modifies this, store
      ensures Valid()
      ensures (leases, r) == AcquiredSticky(old(leases), live, policy, request, now, saveOk)
    {
      var candidate := live[i := live[i].(renewedAt := now, expiresAt := now + policy.ttl)];
      var saved := store.Save(candidate, saveOk);
      if !saved {
        return Failed(SaveFailed);
      }
      leases := candidate;
      return Granted(candidate[i]);
    }

    method AllocateFresh(policy: Policy, request: Request, now: Instant, ids: seq<Option<string>>, saveOk: bool,
                         live: seq<Lease>)
      returns (r: Outcome)
      requires Valid() && ValidPolicy(policy) && |ids| == ID_ATTEMPTS
      modifies this, store
      ensures Valid()
      ensures (leases, r) == AcquiredFresh(old(leases), live, policy, request, now, ids, saveOk)
    {
      var remotePort := FindPort(policy, request, live);
      if remotePort == 0 {
        return Failed(Capacity);
      }
      var newId := GenerateUniqueId(live, ids);
      if newId.NoId? {
        return Failed(newId.error);
      }
      var candidate := live;
      for i := 0 to |candidate|
        invariant |candidate| == |live|
        invariant forall k :: 0 <= k < |live| ==> candidate[k] == if k < i then Demote(live, request.agentId)[k] else live[k]
      {
        if candidate[i].current && candidate[i].agentId == request.agentId {
          candidate := candidate[i := candidate[i].(current := false)];
        }
      }
      assert candidate == Demote(live, request.agentId);
      var lease := Lease(request.agentId, newId.id, remotePort - policy.portStart, remotePort,
                         request.generation, true, now, now + policy.ttl);
      candidate := candidate + [lease];
      var saved := store.Save(candidate, saveOk);
      if !saved {
        return Failed(SaveFailed);
      }
      leases := candidate;
      return Granted(lease);
    }

    static method SlotsInRange(policy: Policy, request: Request) returns (ok: bool)
      ensures ok == forall slot <- request.excludedSlots :: 0 <= slot <= policy.portEnd - policy.portStart
    {
      for i := 0 to |request.excludedSlots|
        invariant forall k :: 0 <= k < i ==> 0 <= request.excludedSlots[k] <= policy.portEnd - policy.portStart
      {
        var slot := request.excludedSlots[i];
        if slot < 0 || slot > policy.portEnd - policy.portStart {
          assert slot in request.excludedSlots;
          return false;
        }
      }
      return true;
    }
  }
}
