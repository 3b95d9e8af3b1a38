/**
 What holds of the lease set over every run of acquire, renew, release and restart, with
 saves that may fail (`internal/gateway/transport_lease.go`).
 */
module TransportLeaseRuns {

  import opened Basics
  import opened TransportLeases

  datatype Event =
    | AcquireEv(policy: Policy, request: Request, now: Instant, ids: seq<Option<string>>, saveOk: bool)
    | RenewEv(policy: Policy, agentId: string, leaseId: string, generation: nat, now: Instant, saveOk: bool)
    | ReleaseEv(agentId: string, leaseId: string, generation: nat, now: Instant, saveOk: bool)
    | RestartEv(now: Instant, saveOk: bool)

  /** The lease set after one call; a failed call or a failed start leaves it alone. */
  function Step(leases: seq<Lease>, ev: Event): seq<Lease> {
    match ev
    case AcquireEv(policy, request, now, ids, saveOk) => Acquired(leases, policy, request, now, ids, saveOk).0
    case RenewEv(policy, agentId, leaseId, generation, now, saveOk) =>
      Renewed(leases, policy, agentId, leaseId, generation, now, saveOk).0
    case ReleaseEv(agentId, leaseId, generation, now, saveOk) =>
      ReleasedList(leases, agentId, leaseId, generation, now, saveOk).0
    case RestartEv(now, saveOk) =>
      var live := Prune(leases, now);
      if Loadable(live) && (saveOk || live == leases) then live else leases
  }

  function Run(leases: seq<Lease>, evs: seq<Event>): seq<Lease>
    decreases |evs|
  {
    if evs == [] then leases else Run(Step(leases, evs[0]), evs[1..])
  }

  // ----- Every reachable lease set can be loaded -----

  lemma ConsLoadable(head: Lease, rest: seq<Lease>)
    ensures Loadable([head] + rest) <==> ValidLease(head) && Loadable(rest) && forall l <- rest :: !Clash(head, l)
  {
    hide ValidLease, Clash;
    var all := [head] + rest;
    assert all[0] == head && forall k :: 0 <= k < |rest| ==> all[k + 1] == rest[k];
    forall k | 0 <= k < |rest| ensures all[k + 1] in all && rest[k] in rest {
    }
    if Loadable(all) {
      forall j, k | 0 <= j < k < |rest| ensures !Clash(rest[j], rest[k]) {
        assert !Clash(all[j + 1], all[k + 1]);
      }
    }
  }

  lemma {:induction false} PruneLoadable(leases: seq<Lease>, now: int)
    requires Loadable(leases)
    ensures Loadable(Prune(leases, now))
    decreases |leases|
  {
    hide Loadable, ValidLease, Clash;
    if leases == [] {
      assert Prune(leases, now) == leases;
    } else {
      var rest := Prune(leases[1..], now);
      assert leases == [leases[0]] + leases[1..];
      ConsLoadable(leases[0], leases[1..]);
      PruneLoadable(leases[1..], now);
      PruneMembers(leases[1..], now);
      ConsLoadable(leases[0], rest);
      assert [] + rest == rest;
    }
  }

  lemma ExtendedLoadable(leases: seq<Lease>, i: nat, policy: Policy, now: Instant)
    requires Loadable(leases) && i < |leases| && policy.ttl > 0
    ensures Loadable(leases[i := Extended(leases[i], policy, now)])
  {
    var after := leases[i := Extended(leases[i], policy, now)];
    assert ValidLease(leases[i]);
    forall l <- after ensures ValidLease(l) {
      assert l == Extended(leases[i], policy, now) || l in leases;
    }
    forall j, k | 0 <= j < k < |after| ensures !Clash(after[j], after[k]) {
      assert !Clash(leases[j], leases[k]);
    }
  }

  lemma WithoutLoadable(leases: seq<Lease>, i: nat)
    requires Loadable(leases) && i < |leases|
    ensures Loadable(Without(leases, i))
  {
    var after := Without(leases, i);
    forall l <- after ensures ValidLease(l) {
      assert l in leases;
    }
    forall j, k | 0 <= j < k < |after| ensures !Clash(after[j], after[k]) {
      assert after[j] == leases[if j < i then j else j + 1] && after[k] == leases[if k < i then k else k + 1];
    }
  }

  lemma FreshLoadable(live: seq<Lease>, agentId: string, l: Lease)
    requires Loadable(live) && ValidLease(l) && l.agentId == agentId
    requires l.leaseId !in LeaseIds(live) && forall x <- live :: x.remotePort != l.remotePort
    ensures Loadable(Demote(live, agentId) + [l])
  {
    var kept := Demote(live, agentId);
    forall x <- kept ensures ValidLease(x) {
      var k :| 0 <= k < |kept| && kept[k] == x;
      assert ValidLease(live[k]);
    }
    forall j, k | 0 <= j < k < |kept| + 1 ensures !Clash((kept + [l])[j], (kept + [l])[k]) {
      assert live[j] in live && live[j].leaseId in LeaseIds(live);
      if k < |kept| {
        assert !Clash(live[j], live[k]);
      }
    }
  }

  lemma {:induction false} PickIdFresh(used: set<string>, ids: seq<Option<string>>)
    ensures var r := PickId(used, ids);
            && (r.FreshId? ==> r.id !in used && !Blank(r.id) && Some(r.id) in ids)
            && (r.NoId? && r.error == IdCollision ==> forall x <- ids :: x.Some? && (Blank(x.value) || x.value in used))
    decreases |ids|
  {
    if ids != [] {
      PickIdFresh(used, ids[1..]);
    }
  }

  lemma FreshOutcome(leases: seq<Lease>, policy: Policy, request: Request, now: Instant, ids: seq<Option<string>>,
                     saveOk: bool)
    requires Loadable(leases) && ValidPolicy(policy) && ValidRequest(policy, request)
    ensures var live := Prune(leases, now);
            var (after, r) := AcquiredFresh(leases, live, policy, request, now, ids, saveOk);
            && Loadable(after)
            && (r.Granted? ==> ValidLease(r.lease) && r.lease.leaseId !in LeaseIds(live))
  {
    var live := Prune(leases, now);
    PruneLoadable(leases, now);
    var port := LowestFree(policy, request, live, policy.portStart);
    var id := PickId(LeaseIds(live), ids);
    PickIdFresh(LeaseIds(live), ids);
    if port != 0 && id.FreshId? {
      FreshLoadable(live, request.agentId, NewLease(policy, request, id.id, port, now));
    }
  }

  lemma StepKeepsLoadable(leases: seq<Lease>, ev: Event)
    requires Loadable(leases)
    ensures Loadable(Step(leases, ev))
  {
    PruneLoadable(leases, ev.now);
    match ev
    case AcquireEv(policy, request, now, ids, saveOk) =>
      if ValidPolicy(policy) && ValidRequest(policy, request) {
        FreshOutcome(leases, policy, request, now, ids, saveOk);
        var live := Prune(leases, now);
        var i := FirstIndex(live, StickyFor(policy, request));
        if i >= 0 {
          ExtendedLoadable(live, i, policy, now);
        }
      }
    case RenewEv(policy, agentId, leaseId, generation, now, saveOk) =>
      var i := FirstIndex(leases, RenewableBy(policy, agentId, leaseId, generation, now));
      if ValidPolicy(policy) && i >= 0 {
        ExtendedLoadable(leases, i, policy, now);
      }
    case ReleaseEv(agentId, leaseId, generation, now, saveOk) =>
      var live := Prune(leases, now);
      var i := FirstIndex(live, CurrentFor(agentId, leaseId, generation));
      if i >= 0 {
        WithoutLoadable(live, i);
      }
    case RestartEv(now, saveOk) =>
  }

  /**
   From an empty store, after any run: ports and ids are distinct, an agent has one current
   lease, and opening the store at any later time accepts what is there.
   */
  lemma {:induction false} ReachableReloads(leases: seq<Lease>, evs: seq<Event>, later: Instant)
    requires Loadable(leases)
    ensures Loadable(Run(leases, evs)) && Loadable(Prune(Run(leases, evs), later))
    decreases |evs|
  {
    if evs == [] {
      PruneLoadable(leases, later);
    } else {
      StepKeepsLoadable(leases, evs[0]);
      ReachableReloads(Step(leases, evs[0]), evs[1..], later);
    }
  }

  lemma ReachableFromEmpty(evs: seq<Event>, later: Instant)
    ensures var leases := Run([], evs);
            && Loadable(Prune(leases, later))
            && (forall a <- leases, b <- leases | a != b :: a.remotePort != b.remotePort && a.leaseId != b.leaseId)
            && (forall a <- leases, b <- leases | a.current && b.current && a.agentId == b.agentId :: a == b)
  {
    ReachableReloads([], evs, later);
    NoClashMembers(Run([], evs));
  }

  lemma NoClashMembers(leases: seq<Lease>)
    requires Loadable(leases)
    ensures forall a <- leases, b <- leases | a != b :: !Clash(a, b)
  {
    forall a <- leases, b <- leases | a != b ensures !Clash(a, b) {
      var i :| 0 <= i < |leases| && leases[i] == a;
      var j :| 0 <= j < |leases| && leases[j] == b;
      assert if i < j then !Clash(leases[i], leases[j]) else !Clash(leases[j], leases[i]);
    }
  }

  // ----- Acquire -----

  predicate Unexpired(leases: seq<Lease>, l: Lease, now: int) {
    l in leases && l.expiresAt > now
  }

  /** In the range, not excluded, and not reserved by any unexpired lease, current or not. */
  predicate Available(leases: seq<Lease>, policy: Policy, request: Request, now: int, port: int) {
    && policy.portStart <= port <= policy.portEnd
    && port - policy.portStart !in request.excludedSlots
    && forall l <- leases :: l.expiresAt > now ==> l.remotePort != port
  }

  lemma AvailableIsFree(leases: seq<Lease>, policy: Policy, request: Request, now: int)
    ensures forall p :: Available(leases, policy, request, now, p) <==> PortFree(policy, request, Prune(leases, now), p)
  {
    PruneMembers(leases, now);
  }

  /** The conflict rule said without the search: which lease ids an agent may present. */
  lemma ConflictExactly(leases: seq<Lease>, policy: Policy, request: Request, now: int)
    requires Loadable(leases)
    ensures (exists l <- leases :: l.current && l.agentId == request.agentId && l.expiresAt > now) ==>
            (RequestConflicts(leases, policy, request, now) <==>
             exists l <- leases :: l.current && l.agentId == request.agentId && l.expiresAt > now
                                   && request.currentLeaseId != l.leaseId
                                   && (request.currentLeaseId != "" || !Sticky(l, policy, request)))
    ensures !(exists l <- leases :: l.current && l.agentId == request.agentId && l.expiresAt > now) ==>
            (RequestConflicts(leases, policy, request, now) <==>
             request.currentLeaseId != "" &&
             !(exists l <- leases :: l.agentId == request.agentId && l.leaseId == request.currentLeaseId && l.expiresAt <= now))
  {
    var live := Prune(leases, now);
    PruneMembers(leases, now);
    NoClashMembers(leases);
    var p := CurrentOf(request.agentId);
    var i := FirstIndex(live, p);
    if i >= 0 {
      assert live[i] in live;
      forall l <- leases | l.current && l.agentId == request.agentId && l.expiresAt > now ensures l == live[i] {
        assert l != live[i] ==> !Clash(l, live[i]);
      }
    } else {
      forall l <- leases ensures !(l.current && l.agentId == request.agentId && l.expiresAt > now) {
        assert l in live ==> !p(l);
      }
    }
  }

  lemma UpdateMembers(live: seq<Lease>, i: nat, l: Lease)
    requires i < |live| && forall j, k :: 0 <= j < k < |live| ==> live[j] != live[k]
    ensures forall x :: x in live[i := l] <==> x == l || (x in live && x != live[i])
  {
    var after := live[i := l];
    assert after[i] == l;
    forall x | x in live && x != live[i] ensures x in after {
      var k :| 0 <= k < |live| && live[k] == x;
      assert after[k] == x;
    }
  }

  /** A sticky lease is returned again with a fresh expiry, and nothing else in the set changes. */
  lemma AcquireSticky(leases: seq<Lease>, policy: Policy, request: Request, now: Instant, ids: seq<Option<string>>,
                      saveOk: bool, l: Lease)
    requires Loadable(leases) && ValidPolicy(policy) && ValidRequest(policy, request)
    requires !RequestConflicts(leases, policy, request, now)
    requires Unexpired(leases, l, now) && Sticky(l, policy, request)
    ensures var (after, r) := Acquired(leases, policy, request, now, ids, saveOk);
            var fresh_ := l.(renewedAt := now, expiresAt := now + policy.ttl);
            if saveOk then
              && r == Granted(fresh_)
              && (forall x :: x in after <==> x == fresh_ || (Unexpired(leases, x, now) && x != l))
            else r == Failed(SaveFailed) && after == leases
  {
    hide ValidLease, MatchesPolicy, AcquiredFresh, RequestConflicts, ValidRequest, ValidPolicy;
    var live := Prune(leases, now);
    PruneMembers(leases, now);
    PruneLoadable(leases, now);
    NoClashMembers(live);
    var p := StickyFor(policy, request);
    var i := FirstIndex(live, p);
    assert l in live && p(l);
    assert live[i] in live;
    assert live[i] != l ==> !Clash(live[i], l);
    assert live[i] == l;
    assert forall j, k :: 0 <= j < k < |live| ==> live[j] != live[k] by {
      assert forall j, k :: 0 <= j < k < |live| ==> !Clash(live[j], live[k]);
    }
    UpdateMembers(live, i, Extended(l, policy, now));
  }

  lemma DemotedAreThere(leases: seq<Lease>, live: seq<Lease>, agentId: string, now: Instant, l: Lease)
    requires forall x :: x in live <==> Unexpired(leases, x, now)
    ensures var after := Demote(live, agentId) + [l];
            l in after && forall x | Unexpired(leases, x, now) :: (if x.agentId == agentId then x.(current := false) else x) in after
  {
    var after := Demote(live, agentId) + [l];
    assert after[|live|] == l;
    forall x | Unexpired(leases, x, now) ensures (if x.agentId == agentId then x.(current := false) else x) in after {
      var k :| 0 <= k < |live| && live[k] == x;
      assert after[k] == Demote(live, agentId)[k];
    }
  }

  /**
   Without a sticky lease: capacity is reported exactly when no port is available, a granted
   port is the lowest available one, and the only other change is that the agent's earlier
   leases stop being current; they keep their ports and expiry.
   */
  lemma AcquireFresh(leases: seq<Lease>, policy: Policy, request: Request, now: Instant, ids: seq<Option<string>>,
                     saveOk: bool)
    requires Loadable(leases) && ValidPolicy(policy) && ValidRequest(policy, request)
    requires !RequestConflicts(leases, policy, request, now)
    requires forall l <- leases :: l.expiresAt > now ==> !Sticky(l, policy, request)
    ensures var (after, r) := Acquired(leases, policy, request, now, ids, saveOk);
            && (r == Failed(Capacity) <==> forall p :: !Available(leases, policy, request, now, p))
            && (r.Failed? ==> after == leases)
            && (r.Granted? ==>
                  && Available(leases, policy, request, now, r.lease.remotePort)
                  && (forall p :: p < r.lease.remotePort ==> !Available(leases, policy, request, now, p))
                  && r.lease.current && r.lease.agentId == request.agentId && r.lease.generation == request.generation
                  && MatchesPolicy(r.lease, policy) && r.lease.renewedAt == now
                  && (forall l <- leases :: l.leaseId == r.lease.leaseId ==> l.expiresAt <= now)
                  && r.lease in after && |after| == |Prune(leases, now)| + 1
                  && (forall l :: Unexpired(leases, l, now) ==>
                        (if l.agentId == request.agentId then l.(current := false) else l) in after))
  {
    var live := Prune(leases, now);
    PruneMembers(leases, now);
    AvailableIsFree(leases, policy, request, now);
    var p := StickyFor(policy, request);
    assert forall x <- live :: !p(x);
    var port := LowestFree(policy, request, live, policy.portStart);
    var id := PickId(LeaseIds(live), ids);
    FreshOutcome(leases, policy, request, now, ids, saveOk);
    hide Loadable, ValidLease, RequestConflicts, ValidRequest, PickId, Prune;
    if port != 0 && id.FreshId? && saveOk {
      DemotedAreThere(leases, live, request.agentId, now, NewLease(policy, request, id.id, port, now));
      assert forall x <- live :: x.leaseId in LeaseIds(live);
    }
    if port == 0 {
      assert forall q :: PortFree(policy, request, live, q) ==> q >= policy.portStart;
    } else {
      assert Available(leases, policy, request, now, port);
      PickErrors(LeaseIds(live), ids);
    }
  }

  /** The generator yields an id that no unexpired lease has, and did not fail before that. */
  predicate YieldsId(leases: seq<Lease>, now: int, ids: seq<Option<string>>) {
    exists k :: 0 <= k < |ids| && (forall j :: 0 <= j <= k ==> ids[j].Some?) && NewIdFor(leases, now, ids[k].value)
  }

  predicate NewIdFor(leases: seq<Lease>, now: int, id: string) {
    !Blank(id) && forall l <- leases :: l.expiresAt > now ==> l.leaseId != id
  }

  lemma {:induction false} PickIdExactly(leases: seq<Lease>, now: int, used: set<string>, ids: seq<Option<string>>)
    requires used == LeaseIds(Prune(leases, now))
    ensures PickId(used, ids).FreshId? <==> YieldsId(leases, now, ids)
    decreases |ids|
  {
    PruneMembers(leases, now);
    if ids != [] && ids[0].Some? {
      assert NewIdFor(leases, now, ids[0].value) <==> !Blank(ids[0].value) && ids[0].value !in used;
      PickIdExactly(leases, now, used, ids[1..]);
      hide NewIdFor;
      if YieldsId(leases, now, ids[1..]) {
        var k :| 0 <= k < |ids[1..]| && (forall j :: 0 <= j <= k ==> ids[1..][j].Some?) && NewIdFor(leases, now, ids[1..][k].value);
        assert NewIdFor(leases, now, ids[k + 1].value);
        assert forall j :: 0 <= j <= k + 1 ==> ids[j].Some? by {
          assert forall j :: 1 <= j <= k + 1 ==> ids[j] == ids[1..][j - 1];
        }
      }
      if YieldsId(leases, now, ids) && !NewIdFor(leases, now, ids[0].value) {
        var k :| 0 <= k < |ids| && (forall j :: 0 <= j <= k ==> ids[j].Some?) && NewIdFor(leases, now, ids[k].value);
        assert ids[1..][k - 1] == ids[k] && forall j :: 0 <= j <= k - 1 ==> ids[1..][j] == ids[j + 1];
      }
    }
  }

  /** An agent that asks again for what it holds keeps its port, whether or not it names its lease. */
  lemma AskingAgainKeepsLease(leases: seq<Lease>, policy: Policy, request: Request, now: Instant, ids: seq<Option<string>>,
                              l: Lease)
    requires Loadable(leases) && l in leases && l.current && l.expiresAt > now
    requires 1 <= policy.portStart <= l.remotePort <= policy.portEnd <= 65535
    requires l.slot == l.remotePort - policy.portStart && l.expiresAt - l.renewedAt == policy.ttl
    requires request.agentId == l.agentId && request.generation == l.generation && request.currentLeaseId in {"", l.leaseId}
    requires l.slot !in request.excludedSlots && forall slot <- request.excludedSlots :: 0 <= slot <= policy.portEnd - policy.portStart
    ensures Acquired(leases, policy, request, now, ids, true).1 == Granted(l.(renewedAt := now, expiresAt := now + policy.ttl))
  {
    assert ValidLease(l);
    assert !RequestConflicts(leases, policy, request, now) by {
      NoClashMembers(leases);
      ConflictExactly(leases, policy, request, now);
      forall x <- leases | x.current && x.agentId == request.agentId && x.expiresAt > now ensures x == l {
        assert x != l ==> !Clash(x, l);
      }
    }
    assert Sticky(l, policy, request);
    hide RequestConflicts, Acquired;
    AcquireSticky(leases, policy, request, now, ids, true, l);
  }

  /** The first agent of all gets the first port. */
  lemma FirstRequestGetsFirstPort(policy: Policy, agentId: string, generation: nat, now: Instant, id: string)
    requires 1 <= policy.portStart <= policy.portEnd <= 65535 && policy.ttl > 0
    requires !Blank(agentId) && !Blank(id) && generation != 0
    ensures Acquired([], policy, Request(agentId, generation, "", []), now, [Some(id)], true).1 ==
            Granted(Lease(agentId, id, 0, policy.portStart, generation, true, now, now + policy.ttl))
  {
    assert PortFree(policy, Request(agentId, generation, "", []), [], policy.portStart);
  }

  /** Without a sticky lease one is granted exactly when a port is available, an id is found and the save works. */
  lemma FreshGrantedExactly(leases: seq<Lease>, policy: Policy, request: Request, now: Instant, ids: seq<Option<string>>,
                            saveOk: bool)
    requires ValidPolicy(policy) && ValidRequest(policy, request) && !RequestConflicts(leases, policy, request, now)
    requires forall l <- leases :: l.expiresAt > now ==> !Sticky(l, policy, request)
    ensures var r := Acquired(leases, policy, request, now, ids, saveOk).1;
            var can := (exists p :: Available(leases, policy, request, now, p)) && YieldsId(leases, now, ids);
            (r.Granted? <==> can && saveOk) && (r == Failed(SaveFailed) <==> can && !saveOk)
  {
    var live := Prune(leases, now);
    PruneMembers(leases, now);
    AvailableIsFree(leases, policy, request, now);
    var p := StickyFor(policy, request);
    assert forall x <- live :: !p(x);
    PickIdExactly(leases, now, LeaseIds(live), ids);
    PickErrors(LeaseIds(live), ids);
    var port := LowestFree(policy, request, live, policy.portStart);
    hide Prune, RequestConflicts, YieldsId, PickId, Available;
    if port == 0 {
      assert forall q :: PortFree(policy, request, live, q) ==> q >= policy.portStart;
    } else {
      assert Available(leases, policy, request, now, port);
    }
  }

  /** A release finds exactly an unexpired current lease; then that lease is gone, no other is, and its port is free. */
  lemma ReleaseExactly(leases: seq<Lease>, agentId: string, leaseId: string, generation: nat, now: Instant, saveOk: bool)
    requires Loadable(leases)
    ensures var (after, r) := ReleasedList(leases, agentId, leaseId, generation, now, saveOk);
            var held := exists l :: Unexpired(leases, l, now) && IsCurrent(l, agentId, leaseId, generation);
            && (r == Released(true) <==> held && saveOk)
            && (r.NotReleased? ==> !saveOk && after == leases)
            && (r.Released? ==> forall l :: l in after <==> Unexpired(leases, l, now) && !IsCurrent(l, agentId, leaseId, generation))
            && (r.Released? ==> forall l, x :: Unexpired(leases, l, now) && IsCurrent(l, agentId, leaseId, generation) && x in after ==>
                  x.remotePort != l.remotePort)
  {
    var live := Prune(leases, now);
    PruneMembers(leases, now);
    PruneLoadable(leases, now);
    var i := FirstIndex(live, CurrentFor(agentId, leaseId, generation));
    assert forall l <- live :: CurrentFor(agentId, leaseId, generation)(l) == IsCurrent(l, agentId, leaseId, generation);
    if i >= 0 {
      TakenOut(live, i, agentId, leaseId, generation);
      assert Unexpired(leases, live[i], now);
    }
    hide Prune, FirstIndex, Loadable, Without, IsCurrent;
  }

  lemma TakenOut(live: seq<Lease>, i: nat, agentId: string, leaseId: string, generation: nat)
    requires Loadable(live) && i < |live| && IsCurrent(live[i], agentId, leaseId, generation)
    ensures forall l :: l in Without(live, i) <==> l in live && !IsCurrent(l, agentId, leaseId, generation)
    ensures forall l, x :: l in live && IsCurrent(l, agentId, leaseId, generation) && x in Without(live, i) ==> x.remotePort != l.remotePort
  {
    forall l | l in live && IsCurrent(l, agentId, leaseId, generation) ensures l == live[i] {
      var k :| 0 <= k < |live| && live[k] == l;
      assert k != i ==> Clash(live[if k < i then k else i], live[if k < i then i else k]);
    }
    WithoutOneLease(live, i);
    forall x | x in Without(live, i) ensures x.remotePort != live[i].remotePort {
      var k :| 0 <= k < |live| && k != i && live[k] == x;
      assert !Clash(live[if k < i then k else i], live[if k < i then i else k]);
    }
    hide Without, Loadable, Clash;
  }

  lemma WithoutOneLease(live: seq<Lease>, i: nat)
    requires Loadable(live) && i < |live|
    ensures forall l :: l in Without(live, i) <==> l in live && l != live[i]
    ensures forall l :: l in Without(live, i) <==> exists k :: 0 <= k < |live| && k != i && live[k] == l
  {
    var after := Without(live, i);
    forall l | l in after ensures exists k :: 0 <= k < |live| && k != i && live[k] == l {
      var k :| 0 <= k < |after| && after[k] == l;
      assert live[if k < i then k else k + 1] == l;
    }
    forall k | 0 <= k < |live| && k != i ensures live[k] in after && live[k] != live[i] {
      assert after[if k < i then k else k - 1] == live[k];
      assert !Clash(live[if k < i then k else i], live[if k < i then i else k]);
    }
  }

  lemma {:induction false} PickErrors(used: set<string>, ids: seq<Option<string>>)
    ensures var r := PickId(used, ids); r.NoId? ==> r.error == IdFailure || r.error == IdCollision
    decreases |ids|
  {
    if ids != [] {
      PickErrors(used, ids[1..]);
    }
  }

  // ----- Superseded leases -----

  lemma {:induction false} WithoutOther(leases: seq<Lease>, i: nat, l: Lease)
    requires i < |leases| && l in leases && leases[i] != l
    ensures l in Without(leases, i)
  {
    var k :| 0 <= k < |leases| && leases[k] == l;
    assert Without(leases, i)[if k < i then k else k - 1] == l;
  }

  /** The one lease an event may rewrite or remove before it expires. */
  predicate Touches(ev: Event, l: Lease) {
    match ev
    case AcquireEv(_, request, _, _, _) => l.current && l.agentId == request.agentId
    case RenewEv(_, agentId, leaseId, generation, _, _) => IsCurrent(l, agentId, leaseId, generation)
    case ReleaseEv(agentId, leaseId, generation, _, _) => IsCurrent(l, agentId, leaseId, generation)
    case RestartEv(_, _) => false
  }

  lemma FreshKeeps(leases: seq<Lease>, live: seq<Lease>, ev: Event, l: Lease)
    requires ev.AcquireEv? && ValidPolicy(ev.policy) && l in leases && l in live && !Touches(ev, l)
    ensures l in AcquiredFresh(leases, live, ev.policy, ev.request, ev.now, ev.ids, ev.saveOk).0
  {
    var m :| 0 <= m < |live| && live[m] == l;
    assert Demote(live, ev.request.agentId)[m] == l;
  }

  lemma StickyKeeps(leases: seq<Lease>, live: seq<Lease>, ev: Event, l: Lease)
    requires ev.AcquireEv? && l in leases && l in live && !Touches(ev, l)
    requires FirstIndex(live, StickyFor(ev.policy, ev.request)) >= 0
    ensures l in AcquiredSticky(leases, live, ev.policy, ev.request, ev.now, ev.saveOk).0
  {
    var i := FirstIndex(live, StickyFor(ev.policy, ev.request));
    var m :| 0 <= m < |live| && live[m] == l;
    assert live[i := Extended(live[i], ev.policy, ev.now)][m] == l;
  }

  lemma RenewKeeps(leases: seq<Lease>, ev: Event, l: Lease)
    requires ev.RenewEv? && l in leases && !Touches(ev, l)
    ensures l in Step(leases, ev)
  {
    var i := FirstIndex(leases, RenewableBy(ev.policy, ev.agentId, ev.leaseId, ev.generation, ev.now));
    var k :| 0 <= k < |leases| && leases[k] == l;
    if i >= 0 {
      assert leases[i := Extended(leases[i], ev.policy, ev.now)][k] == l;
    }
  }

  lemma ReleaseKeeps(leases: seq<Lease>, ev: Event, l: Lease)
    requires ev.ReleaseEv? && l in leases && !Touches(ev, l) && ev.now < l.expiresAt
    ensures l in Step(leases, ev)
  {
    var live := Prune(leases, ev.now);
    PruneMembers(leases, ev.now);
    var i := FirstIndex(live, CurrentFor(ev.agentId, ev.leaseId, ev.generation));
    if i >= 0 {
      WithoutOther(live, i, l);
    }
  }

  lemma StepKeeps(leases: seq<Lease>, ev: Event, l: Lease)
    requires l in leases && !Touches(ev, l) && ev.now < l.expiresAt
    ensures l in Step(leases, ev)
  {
    hide *;
    match ev
    case AcquireEv(_, _, _, _, _) => AcquireKeeps(leases, ev, l);
    case RenewEv(_, _, _, _, _, _) => RenewKeeps(leases, ev, l);
    case ReleaseEv(_, _, _, _, _) => ReleaseKeeps(leases, ev, l);
    case RestartEv(_, _) => RestartKeeps(leases, ev, l);
  }

  lemma AcquireKeeps(leases: seq<Lease>, ev: Event, l: Lease)
    requires ev.AcquireEv? && l in leases && !Touches(ev, l) && ev.now < l.expiresAt
    ensures l in Step(leases, ev)
  {
    hide RequestConflicts, ValidRequest, AcquiredFresh, AcquiredSticky, Touches;
    var live := Prune(leases, ev.now);
    PruneMembers(leases, ev.now);
    if FirstIndex(live, StickyFor(ev.policy, ev.request)) >= 0 {
      StickyKeeps(leases, live, ev, l);
    } else if ValidPolicy(ev.policy) {
      FreshKeeps(leases, live, ev, l);
    }
  }

  lemma RestartKeeps(leases: seq<Lease>, ev: Event, l: Lease)
    requires ev.RestartEv? && l in leases && ev.now < l.expiresAt
    ensures l in Step(leases, ev)
  {
    hide Loadable;
    PruneMembers(leases, ev.now);
  }

  /** A superseded lease stays in the set, unchanged, over every run before its expiry. */
  lemma {:induction false} SupersededStays(leases: seq<Lease>, evs: seq<Event>, l: Lease)
    requires l in leases && !l.current && forall ev <- evs :: ev.now < l.expiresAt
    ensures l in Run(leases, evs)
    decreases |evs|
  {
    if evs != [] {
      StepKeeps(leases, evs[0], l);
      SupersededStays(Step(leases, evs[0]), evs[1..], l);
    }
  }

  /** So until it expires nobody else, its own agent included, is granted its port. */
  lemma SupersededKeepsPort(leases: seq<Lease>, evs: seq<Event>, l: Lease, last: Event)
    requires Loadable(leases) && l in leases && !l.current
    requires forall ev <- evs :: ev.now < l.expiresAt
    requires last.AcquireEv? && last.now < l.expiresAt
    ensures var (after, r) := Acquired(Run(leases, evs), last.policy, last.request, last.now, last.ids, last.saveOk);
            r.Granted? ==> r.lease.remotePort != l.remotePort && l in after
  {
    ReachableReloads(leases, evs, 1);
    SupersededStays(leases, evs, l);
    var s := Run(leases, evs);
    StepKeeps(s, last, l);
    StepKeepsLoadable(s, last);
    var (after, r) := Acquired(s, last.policy, last.request, last.now, last.ids, last.saveOk);
    if r.Granted? {
      GrantedIsCurrent(s, last.policy, last.request, last.now, last.ids, last.saveOk);
      NoClashMembers(after);
      assert !Clash(r.lease, l);
    }
  }

  lemma GrantedIsCurrent(leases: seq<Lease>, policy: Policy, request: Request, now: Instant, ids: seq<Option<string>>,
                         saveOk: bool)
    ensures var (after, r) := Acquired(leases, policy, request, now, ids, saveOk);
            r.Granted? ==> r.lease in after && r.lease.current
  {
    var live := Prune(leases, now);
    var i := FirstIndex(live, StickyFor(policy, request));
    if i >= 0 {
      var l := Extended(live[i], policy, now);
      assert live[i := l][i] == l;
    } else if ValidPolicy(policy) {
      var (after, r) := AcquiredFresh(leases, live, policy, request, now, ids, saveOk);
      if r.Granted? {
        assert after[|live|] == r.lease;
      }
    }
  }

  // ----- Keeping a lease alive -----

  datatype Identity = Identity(agentId: string, leaseId: string, generation: nat)

  predicate Holds(leases: seq<Lease>, who: Identity, policy: Policy, expiresAt: int) {
    exists l <- leases :: IsCurrent(l, who.agentId, who.leaseId, who.generation) && MatchesPolicy(l, policy) && l.expiresAt == expiresAt
  }

  predicate RenewsIt(ev: Event, who: Identity) {
    ev.RenewEv? && ev.agentId == who.agentId && ev.leaseId == who.leaseId && ev.generation == who.generation
  }

  /** Calls made for other agents, restarts, and renewals under the one policy. */
  predicate Friendly(ev: Event, who: Identity, policy: Policy) {
    match ev
    case AcquireEv(_, request, _, _, _) => request.agentId != who.agentId
    case ReleaseEv(agentId, _, _, _, _) => agentId != who.agentId
    case RenewEv(p, agentId, _, _, _, _) => agentId != who.agentId || (RenewsIt(ev, who) && p == policy)
    case RestartEv(_, _) => true
  }

  lemma HoldsUnique(leases: seq<Lease>, who: Identity, policy: Policy, expiresAt: int) returns (k: nat)
    requires Loadable(leases) && Holds(leases, who, policy, expiresAt)
    ensures k < |leases| && IsCurrent(leases[k], who.agentId, who.leaseId, who.generation)
    ensures MatchesPolicy(leases[k], policy) && leases[k].expiresAt == expiresAt
    ensures forall l <- leases :: l.current && l.agentId == who.agentId ==> l == leases[k]
    ensures forall j :: 0 <= j < |leases| && leases[j].current && leases[j].agentId == who.agentId ==> j == k
  {
    NoClashMembers(leases);
    k :| 0 <= k < |leases| && IsCurrent(leases[k], who.agentId, who.leaseId, who.generation)
        && MatchesPolicy(leases[k], policy) && leases[k].expiresAt == expiresAt;
    forall l <- leases | l.current && l.agentId == who.agentId ensures l == leases[k] {
      assert l != leases[k] ==> !Clash(l, leases[k]);
    }
    forall j | 0 <= j < |leases| && leases[j].current && leases[j].agentId == who.agentId ensures j == k {
      assert j < k ==> !Clash(leases[j], leases[k]);
      assert k < j ==> !Clash(leases[k], leases[j]);
    }
  }

  /** A renewal of a held, unexpired lease: it succeeds, and after it more than half the TTL is left. */
  lemma RenewHeld(leases: seq<Lease>, who: Identity, policy: Policy, expiresAt: int, now: Instant, saveOk: bool)
    requires Loadable(leases) && ValidPolicy(policy) && Holds(leases, who, policy, expiresAt) && expiresAt > now
    ensures var (after, r, wantsSave) := Renewed(leases, policy, who.agentId, who.leaseId, who.generation, now, saveOk);
            && (wantsSave <==> expiresAt - now <= policy.ttl / 2)
            && (r.Granted? <==> !wantsSave || saveOk)
            && (r.Granted? ==> r.lease.expiresAt - now > policy.ttl / 2 && Holds(after, who, policy, r.lease.expiresAt))
            && (r.Granted? && wantsSave ==> r.lease.expiresAt == now + policy.ttl)
            && (!wantsSave || !saveOk ==> after == leases)
            && (!wantsSave ==> r == Granted(r.lease) && r.lease.expiresAt == expiresAt)
  {
    var k := HoldsUnique(leases, who, policy, expiresAt);
    var p := RenewableBy(policy, who.agentId, who.leaseId, who.generation, now);
    FirstIndexIs(leases, p, k);
    var l := Extended(leases[k], policy, now);
    assert leases[k := l][k] == l;
  }

  lemma OtherStepHolds(leases: seq<Lease>, ev: Event, who: Identity, policy: Policy, expiresAt: int)
    requires Loadable(leases) && Holds(leases, who, policy, expiresAt) && ev.now < expiresAt
    requires Friendly(ev, who, policy) && !RenewsIt(ev, who)
    ensures Holds(Step(leases, ev), who, policy, expiresAt)
  {
    var k := HoldsUnique(leases, who, policy, expiresAt);
    StepKeeps(leases, ev, leases[k]);
  }

  /** The time of the latest successful renewal, `last` if there is none. */
  function LastRenewal(evs: seq<Event>, who: Identity, last: int): int
    decreases |evs|
  {
    if evs == [] then last
    else LastRenewal(evs[1..], who, if RenewsIt(evs[0], who) && evs[0].saveOk then evs[0].now else last)
  }

  /**
   No event comes more than half the TTL after the latest successful renewal. Failed saves
   do not count as renewals; the clock may stand still but not run backwards past one.
   */
  predicate Paced(evs: seq<Event>, who: Identity, policy: Policy, last: int)
    decreases |evs|
  {
    if evs == [] then true
    else
      && Friendly(evs[0], who, policy)
      && last <= evs[0].now <= last + policy.ttl / 2
      && Paced(evs[1..], who, policy, if RenewsIt(evs[0], who) && evs[0].saveOk then evs[0].now else last)
  }

  /** What one event of a paced run does to the held lease. */
  lemma PacedStep(leases: seq<Lease>, ev: Event, who: Identity, policy: Policy, expiresAt: int,
                  last: int) returns (e: int)
    requires Loadable(leases) && ValidPolicy(policy) && Holds(leases, who, policy, expiresAt)
    requires expiresAt > last + policy.ttl / 2 && Paced([ev], who, policy, last)
    ensures Loadable(Step(leases, ev)) && Holds(Step(leases, ev), who, policy, e)
    ensures e > LastRenewal([ev], who, last) + policy.ttl / 2
    ensures e == if Saves(ev, who, policy, expiresAt) then ev.now + policy.ttl else expiresAt
  {
    StepKeepsLoadable(leases, ev);
    assert [ev][1..] == [];
    e := expiresAt;
    if RenewsIt(ev, who) {
      RenewHeld(leases, who, policy, expiresAt, ev.now, ev.saveOk);
      var (_, r, wantsSave) := Renewed(leases, policy, who.agentId, who.leaseId, who.generation, ev.now, ev.saveOk);
      if r.Granted? {
        e := r.lease.expiresAt;
      }
    } else {
      OtherStepHolds(leases, ev, who, policy, expiresAt);
    }
  }

  /**
   Keep-alive: over a paced run of any length the lease is never lost. It is still current
   and under the policy, and has more than half a TTL from the latest successful renewal.
   */
  lemma {:induction false} KeepAlive(leases: seq<Lease>, evs: seq<Event>, who: Identity, policy: Policy, expiresAt: int,
                                     last: int)
    returns (e: int)
    requires Loadable(leases) && ValidPolicy(policy) && Holds(leases, who, policy, expiresAt)
    requires expiresAt > last + policy.ttl / 2 && Paced(evs, who, policy, last)
    ensures Holds(Run(leases, evs), who, policy, e) && e > LastRenewal(evs, who, last) + policy.ttl / 2
    decreases |evs|
  {
    e := expiresAt;
    if evs != [] {
      var ev := evs[0];
      var last' := if RenewsIt(ev, who) && ev.saveOk then ev.now else last;
      assert [ev][1..] == [];
      e := PacedStep(leases, ev, who, policy, expiresAt, last);
      e := KeepAlive(Step(leases, ev), evs[1..], who, policy, e, last');
    }
  }

  /** And a renewal that comes in time after such a run fails only if its own save fails. */
  lemma RenewalAlwaysFindsIt(leases: seq<Lease>, evs: seq<Event>, who: Identity, policy: Policy, expiresAt: int,
                             last: int,
                             now: Instant, saveOk: bool)
    requires Loadable(leases) && ValidPolicy(policy) && Holds(leases, who, policy, expiresAt)
    requires expiresAt > last + policy.ttl / 2 && Paced(evs, who, policy, last)
    requires now <= LastRenewal(evs, who, last) + policy.ttl / 2
    ensures var (_, r, wantsSave) := Renewed(Run(leases, evs), policy, who.agentId, who.leaseId, who.generation, now, saveOk);
            && (r.Failed? <==> wantsSave && !saveOk)
            && (r.Granted? ==> r.lease.expiresAt - now > policy.ttl / 2)
  {
    var e := KeepAlive(leases, evs, who, policy, expiresAt, last);
    ReachableReloads(leases, evs, 1);
    RenewHeld(Run(leases, evs), who, policy, e, now, saveOk);
  }

  predicate Saves(ev: Event, who: Identity, policy: Policy, expiresAt: int) {
    RenewsIt(ev, who) && ev.saveOk && expiresAt - ev.now <= policy.ttl / 2
  }

  /** The times at which renewals of the lease are saved, given its expiry at the start. */
  function SaveTimes(evs: seq<Event>, who: Identity, policy: Policy, expiresAt: int): seq<int>
    decreases |evs|
  {
    if evs == [] then []
    else if Saves(evs[0], who, policy, expiresAt) then
      [evs[0].now] + SaveTimes(evs[1..], who, policy, evs[0].now + policy.ttl)
    else SaveTimes(evs[1..], who, policy, expiresAt)
  }

  /** `SaveTimes` follows the real expiry of the held lease. */
  lemma {:induction false} SaveTimesTrack(leases: seq<Lease>, evs: seq<Event>, who: Identity, policy: Policy,
                                          expiresAt: int, last: int)
    requires Loadable(leases) && ValidPolicy(policy) && Holds(leases, who, policy, expiresAt)
    requires expiresAt > last + policy.ttl / 2 && Paced(evs, who, policy, last)
    ensures var times := SaveTimes(evs, who, policy, expiresAt);
            Holds(Run(leases, evs), who, policy, if times == [] then expiresAt else times[|times| - 1] + policy.ttl)
    decreases |evs|
  {
    hide Loadable, Holds, Step;
    if evs != [] {
      var ev := evs[0];
      var last' := if RenewsIt(ev, who) && ev.saveOk then ev.now else last;
      var e := PacedStep(leases, ev, who, policy, expiresAt, last);
      assert [ev][1..] == [];
      SaveTimesTrack(Step(leases, ev), evs[1..], who, policy, e, last');
    }
  }

  /** Saved renewals are at least half a TTL apart, however often the agent renews. */
  lemma {:induction false} SavesApart(evs: seq<Event>, who: Identity, policy: Policy, expiresAt: int, saved: int)
    requires policy.ttl > 0 && expiresAt == saved + policy.ttl
    ensures var times := SaveTimes(evs, who, policy, expiresAt);
            && (times != [] ==> 2 * (times[0] - saved) >= policy.ttl)
            && forall i :: 0 <= i < |times| - 1 ==> 2 * (times[i + 1] - times[i]) >= policy.ttl
    decreases |evs|
  {
    if evs != [] {
      if Saves(evs[0], who, policy, expiresAt) {
        SavesApart(evs[1..], who, policy, evs[0].now + policy.ttl, evs[0].now);
      } else {
        SavesApart(evs[1..], who, policy, expiresAt, saved);
      }
    }
  }
}
