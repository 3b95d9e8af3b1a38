/**
 The agent's transport loop (`internal/agent/transport_manager.go`).

 `log` lists what the manager did to the outside: lease requests, clients started and
 stopped, releases, published snapshots. `Safe` says independently of the loop which
 actions may follow which; the loop is proved to keep it for any answers of the gateway, the
 clients and the clock, and to do in each round what the round's `Answers` call for. When the
 context ends is left open, and a run is cut after `steps` rounds.
 */
module TransportLoop {

  import opened Basics

  datatype Lease = Lease(id: string, slot: int, port: int, generation: nat, expiresAt: int)

  datatype Key = Key(id: string, generation: nat)

  function KeyOf(l: Lease): Key {
    Key(l.id, l.generation)
  }

  /** `settings` stands for the server address, its port and the tokens. */
  datatype Desired = Desired(managed: bool, generation: nat, portStart: int, portEnd: int, settings: string)

  datatype Snapshot = Cleared | Legacy | NotReady | Ready(lease: Lease)

  /** A client is known by where in the log it was started. */
  datatype Client = Client(id: nat, desired: Desired, lease: Lease)

  datatype Replacement = Replacement(key: Key, slot: int)

  datatype Action =
    | Top(active: Option<Client>, replacement: Option<Replacement>, legacy: bool)
    | Publish(snapshot: Snapshot)
    | Request(presented: Option<Key>, excluded: Option<int>, wanted: Desired)
    | Granted(presented: Option<Key>, lease: Lease, now: int)
    | Refused(lease: Lease, now: int)
    | Started(client: Client)
    | Stopping(id: nat)
    | Converged(id: nat)
    | Unconverged(id: nat)
    | Release(key: Key)

  // ----- What a log says -----

  function Last(log: seq<Action>): Action
    requires log != []
  {
    log[|log| - 1]
  }

  function Front(log: seq<Action>): seq<Action>
    requires log != []
  {
    log[..|log| - 1]
  }

  function Shown(log: seq<Action>): Snapshot {
    if log == [] then Cleared else if Last(log).Publish? then Last(log).snapshot else Shown(Front(log))
  }

  /** Clients whose workers are not known to have returned, with their leases. */
  function Alive(log: seq<Action>): map<nat, Lease> {
    if log == [] then map[]
    else
      match Last(log)
      case Started(c) => Alive(Front(log))[c.id := c.lease]
      case Converged(id) => Alive(Front(log)) - {id}
      case _ => Alive(Front(log))
  }

  predicate Stuck(log: seq<Action>) {
    log != [] && (Last(log).Unconverged? || Stuck(Front(log)))
  }

  /** Leases obtained that were neither given back nor presented for a newer one, with their slots. */
  function Open(log: seq<Action>): map<Key, int> {
    if log == [] then map[]
    else
      match Last(log)
      case Granted(presented, lease, _) => AfterGrant(Open(Front(log)), presented, lease)
      case Release(key) => Open(Front(log)) - {key}
      case _ => Open(Front(log))
  }

  function AfterGrant(held: map<Key, int>, presented: Option<Key>, lease: Lease): map<Key, int> {
    (if presented.Some? then held - {presented.value} else held)[KeyOf(lease) := lease.slot]
  }

  /** A lease to take: of the wanted generation and range, with the port of its slot, and with time left. */
  predicate Acceptable(wanted: Desired, lease: Lease, now: int) {
    && lease.generation == wanted.generation && lease.id == TrimSpace(lease.id) != ""
    && 0 <= lease.slot && lease.port == wanted.portStart + lease.slot <= wanted.portEnd
    && 0 != lease.expiresAt > now
  }

  /** Whether an action may come after a log. */
  predicate Allowed(log: seq<Action>, a: Action) {
    match a
    case Top(active, replacement, legacy) =>
      && (active.None? || replacement.None?) && (legacy ==> active.None? && replacement.None?)
      && (if active.Some? then Alive(log) == map[active.value.id := active.value.lease] && Shown(log) == Ready(active.value.lease)
          else Alive(log) == map[] && !Shown(log).Ready?)
    case Publish(snapshot) => snapshot.Ready? ==> log != [] && Last(log).Started? && Last(log).client.lease == snapshot.lease
    case Request(presented, excluded, wanted) =>
      && !Stuck(log) && Alive(log) == map[] && wanted.managed
      && (if presented.None? then excluded.None? && Open(log) == map[]
          else excluded.Some? && Open(log) == map[presented.value := excluded.value] && presented.value.generation == wanted.generation)
    case Granted(presented, lease, now) =>
      log != [] && Last(log).Request? && Last(log).presented == presented && Acceptable(Last(log).wanted, lease, now)
    case Refused(lease, now) => log != [] && Last(log).Request? && !Acceptable(Last(log).wanted, lease, now)
    case Started(c) => c.id == |log| && !Stuck(log) && Alive(log) == map[] && log != []
        && Last(log).Granted? && Last(log).lease == c.lease
    case Stopping(id) => id in Alive(log) && !Shown(log).Ready?
    case Converged(id) => id in Alive(log) && !Shown(log).Ready?
    case Unconverged(id) => id in Alive(log) && !Shown(log).Ready?
    case Release(key) => key in Open(log) && forall id <- Alive(log) :: KeyOf(Alive(log)[id]) != key
  }

  predicate Safe(log: seq<Action>) {
    log != [] ==> Safe(Front(log)) && Allowed(Front(log), Last(log))
  }

  lemma SafeSnoc(log: seq<Action>, a: Action)
    requires Safe(log) && Allowed(log, a)
    ensures Safe(log + [a])
    ensures Shown(log + [a]) == if a.Publish? then a.snapshot else Shown(log)
    ensures Stuck(log + [a]) == (a.Unconverged? || Stuck(log))
    ensures !a.Started? && !a.Converged? ==> Alive(log + [a]) == Alive(log)
    ensures a.Started? ==> Alive(log + [a]) == Alive(log)[a.client.id := a.client.lease]
    ensures a.Converged? ==> Alive(log + [a]) == Alive(log) - {a.id}
    ensures !a.Granted? && !a.Release? ==> Open(log + [a]) == Open(log)
    ensures a.Release? ==> Open(log + [a]) == Open(log) - {a.key}
    ensures a.Granted? ==> Open(log + [a]) == AfterGrant(Open(log), a.presented, a.lease)
  {
    assert Front(log + [a]) == log;
  }

  datatype StartResult = BootstrapUnavailable | RegistrationFailed | StartedReady | Shutdown

  /** The configuration could not be learnt, or is exactly the client's. */
  predicate Wanted(client: Client, desired: Option<Desired>) {
    desired.None? || (desired.value.managed && client.desired == desired.value)
  }

  datatype Flow = Again | Return

  /** How a client that is being started answers. */
  datatype StartAnswers = StartAnswers(
    created: bool, sawContext: bool, sawRunDone: bool, readyOk: bool, stoppedBeforeReady: bool, runDoneAfter: bool)

  /** What can wake a round with a client, and which of it is looked at first. */
  datatype WakeAnswers = WakeAnswers(
    sawContext: bool, runDone: bool, invalidated: bool, invalidations: set<Key>, pollOk: bool)

  /** All that is answered in one round. */
  datatype Answers = Answers(
    desired: Option<Desired>, waitOk: bool, prepared: bool, lease: Option<Lease>, now: int, start: StartAnswers,
    stopOk: bool, wake: WakeAnswers)

  /** What comes of starting a client while the context lasts. */
  function StartOf(a: StartAnswers): StartResult {
    if !a.created || a.sawRunDone then BootstrapUnavailable
    else if !a.readyOk then (if a.stoppedBeforeReady then BootstrapUnavailable else RegistrationFailed)
    else if a.runDoneAfter then RegistrationFailed else StartedReady
  }

  /** What a round with a client wakes up to while the context lasts. */
  function WakeOf(a: Answers, client: Client): Wake {
    if a.wake.runDone then RunEnded
    else if a.wake.invalidated then Invalidated(KeyOf(client.lease) in a.wake.invalidations)
    else if a.wake.pollOk then Polled(a.desired)
    else PollFailed
  }

  /** The request, its answer and the start of a client on a lease that fits stand at `k` of the log. */
  predicate Requested(log: seq<Action>, k: nat, wanted: Desired, a: Answers) {
    && k < |log| && log[k].Request? && log[k].wanted == wanted
    && (a.lease.Some? ==>
          && k + 1 < |log|
          && log[k + 1] == (if Acceptable(wanted, a.lease.value, a.now) then Granted(log[k].presented, a.lease.value, a.now)
                            else Refused(a.lease.value, a.now))
          && (Acceptable(wanted, a.lease.value, a.now) && a.start.created ==>
                k + 2 < |log| && log[k + 2] == Started(Client(k + 2, wanted, a.lease.value))))
  }

  /** A request that got no answer, or one to refuse. */
  lemma RequestLogged(before: seq<Action>, log: seq<Action>, wanted: Desired, a: Answers)
    requires |before| < |log| && log[|before|].Request? && log[|before|].wanted == wanted
    requires a.lease.Some? ==>
        !Acceptable(wanted, a.lease.value, a.now) && |log| == |before| + 2 && log[|before| + 1] == Refused(a.lease.value, a.now)
    ensures Requested(log, |before|, wanted, a)
  {
  }

  /** A request whose answer was taken, and a client started if it could be. */
  lemma GrantLogged(before: seq<Action>, granted: seq<Action>, log: seq<Action>, wanted: Desired, a: Answers)
    requires |granted| == |before| + 2 && granted <= log
    requires granted[|before|].Request? && granted[|before|].wanted == wanted
    requires a.lease.Some? && Acceptable(wanted, a.lease.value, a.now)
    requires granted[|before| + 1] == Granted(granted[|before|].presented, a.lease.value, a.now)
    requires a.start.created ==> |log| > |granted| && log[|granted|] == Started(Client(|granted|, wanted, a.lease.value))
    ensures Requested(log, |before|, wanted, a)
  {
    hide Acceptable;
  }

  lemma RequestedStays(log: seq<Action>, more: seq<Action>, k: nat, wanted: Desired, a: Answers)
    requires Requested(log, k, wanted, a) && log <= more
    ensures Requested(more, k, wanted, a)
  {
  }

  /** What the gateway is known to want in a round without a client. */
  function Learnt(a: Answers, legacy: bool): Option<Desired> {
    if legacy && !(a.waitOk && a.desired.Some? && a.desired.value.managed) then None else a.desired
  }

  /** The client has to go: it has ended, its lease is invalid, or something else is wanted for certain. */
  predicate MustStop(a: Answers, client: Client) {
    match WakeOf(a, client)
    case RunEnded => true
    case Invalidated(found) => found
    case Polled(desired) => !Wanted(client, desired)
    case _ => false
  }

  /**
   A round from `from` up to `to`: without a client, and with a managed transport wanted and
   prepared, a lease is asked for; a client is stopped exactly when it has to be.
   */
  ghost predicate RoundOk(log: seq<Action>, from: nat, to: nat, a: Answers)
    requires from < to <= |log|
  {
    && log[from].Top?
    && (log[from].active.None? && Learnt(a, log[from].legacy).Some? && Learnt(a, log[from].legacy).value.managed && a.prepared ==>
          exists k :: from < k < to && Requested(log[..to], k, Learnt(a, log[from].legacy).value, a))
    && (log[from].active.Some? && !a.wake.sawContext ==>
          (MustStop(a, log[from].active.value) <==> StopsIn(log, from, to, log[from].active.value.id)))
  }

  ghost predicate StopsIn(log: seq<Action>, from: nat, to: nat, id: nat)
    requires to <= |log|
  {
    exists k :: from < k < to && log[k] == Stopping(id)
  }

  /** What a round with a client woke up to. */
  datatype Wake = ContextEnded | RunEnded | Invalidated(found: bool) | Polled(desired: Option<Desired>) | PollFailed

  class TransportManager {
    var log: seq<Action>
    var ctxDone: bool
    var invalidations: set<Key>
    const retryMin: int
    const retryMax: int

    constructor (retryMin: int, retryMax: int)
      ensures log == [] && !ctxDone
    {
      log, ctxDone, invalidations := [], false, {};
      this.retryMin, this.retryMax := retryMin, retryMax;
    }

    /** Between rounds, with no client or with one that is shown as ready. */
    ghost predicate Steady(active: Option<Client>, replacement: Option<Replacement>)
      reads this
    {
      && Safe(log) && !Stuck(log)
      && (active.Some? ==>
            && replacement.None? && Alive(log) == map[active.value.id := active.value.lease] && Shown(log) == Ready(active.value.lease)
            && Open(log) == map[KeyOf(active.value.lease) := active.value.lease.slot])
      && (active.None? ==> Alive(log) == map[] && !Shown(log).Ready?
                           && Open(log) == if replacement.Some? then map[replacement.value.key := replacement.value.slot] else map[])
    }

    /** How the loop may end: shut down with nothing held, or parked behind a client that did not stop. */
    ghost predicate Ended()
      reads this
    {
      Safe(log) && (Stuck(log) || (Alive(log) == map[] && (ctxDone ==> Open(log) == map[])))
    }

    method Do(a: Action)
      requires Safe(log) && Allowed(log, a)
      modifies this`log
      ensures log == old(log) + [a] && Safe(log)
      ensures Shown(log) == if a.Publish? then a.snapshot else old(Shown(log))
      ensures Stuck(log) == (a.Unconverged? || old(Stuck(log)))
      ensures !a.Started? && !a.Converged? ==> Alive(log) == old(Alive(log))
      ensures a.Started? ==> Alive(log) == old(Alive(log))[a.client.id := a.client.lease]
      ensures a.Converged? ==> Alive(log) == old(Alive(log)) - {a.id}
      ensures !a.Granted? && !a.Release? ==> Open(log) == old(Open(log))
      ensures a.Release? ==> Open(log) == old(Open(log)) - {a.key}
      ensures a.Granted? ==> Open(log) == AfterGrant(old(Open(log)), a.presented, a.lease)
    {
      SafeSnoc(log, a);
      log := log + [a];
    }

    /** The context may end at any time, and never comes back. */
    method Tick()
      modifies this`ctxDone
      ensures old(ctxDone) ==> ctxDone
    {
      var done: bool := *;
      ctxDone := ctxDone || done;
    }

    method PublishNotReady()
      requires Safe(log)
      modifies this`log
      ensures log == old(log) + [Publish(NotReady)]
      ensures Safe(log) && Shown(log) == NotReady && Stuck(log) == old(Stuck(log)) && Alive(log) == old(Alive(log))
      ensures Open(log) == old(Open(log))
    {
      Do(Publish(NotReady));
    }

    method PublishLegacy()
      requires Safe(log)
      modifies this`log
      ensures log == old(log) + [Publish(Legacy)]
      ensures Safe(log) && Shown(log) == Legacy && Stuck(log) == old(Stuck(log)) && Alive(log) == old(Alive(log))
      ensures Open(log) == old(Open(log))
    {
      Do(Publish(Legacy));
    }

    /** True when both workers have returned, even if closing timed out. */
    method StopClient(client: Option<Client>, workersDone: bool) returns (converged: bool)
      requires Safe(log) && !Stuck(log)
      requires if client.Some? then Alive(log) == map[client.value.id := client.value.lease] else Alive(log) == map[]
      modifies this`log, this`ctxDone
      ensures converged == (client.None? || workersDone)
      ensures log == old(log) + StopLog(client, workersDone)
      ensures Safe(log) && Shown(log) == Cleared && Open(log) == old(Open(log)) && (old(ctxDone) ==> ctxDone)
      ensures Stuck(log) == !converged && (converged ==> Alive(log) == map[])
    {
      Do(Publish(Cleared));
      if client.None? {
        return true;
      }
      Do(Stopping(client.value.id));
      Tick();
      if workersDone {
        Do(Converged(client.value.id));
      } else {
        Do(Unconverged(client.value.id));
      }
      return workersDone;
    }

    method ReleaseKey(key: Key)
      requires Safe(log) && Alive(log) == map[] && key in Open(log)
      modifies this`log, this`ctxDone
      ensures log == old(log) + [Release(key)]
      ensures Safe(log) && Shown(log) == old(Shown(log)) && Stuck(log) == old(Stuck(log)) && Alive(log) == map[]
      ensures (old(ctxDone) ==> ctxDone)
      ensures Open(log) == old(Open(log)) - {key}
    {
      Do(Release(key));
      Tick();
    }

    method ReleaseReplacement(replacement: Option<Replacement>)
      requires Safe(log) && Alive(log) == map[] && (replacement.Some? ==> replacement.value.key in Open(log))
      modifies this`log, this`ctxDone
      ensures log == old(log) + if replacement.Some? then [Release(replacement.value.key)] else []
      ensures Safe(log) && Shown(log) == old(Shown(log)) && Stuck(log) == old(Stuck(log)) && Alive(log) == map[]
      ensures (old(ctxDone) ==> ctxDone)
      ensures Open(log) == if replacement.Some? then old(Open(log)) - {replacement.value.key} else old(Open(log))
    {
      if replacement.Some? {
        ReleaseKey(replacement.value.key);
      }
    }

    /** Goes on after the delay, or gives the replaced lease back when the context has ended. */
    method WaitRetryWithReplacement(replacement: Option<Replacement>, waitOk: bool)
      requires Steady(None, replacement)
      modifies this`log, this`ctxDone
      ensures old(ctxDone) ==> ctxDone
      ensures waitOk ==> Steady(None, replacement) && log == old(log)
      ensures !waitOk ==> Ended() && (log == old(log) || (replacement.Some? && log == old(log) + [Release(replacement.value.key)]))
    {
      Tick();
      if !waitOk && ctxDone {
        ReleaseReplacement(replacement);
      }
    }

    method Start(desired: Desired, lease: Lease, a: StartAnswers) returns (started: Option<Client>, result: StartResult)
      requires Safe(log) && !Stuck(log) && Alive(log) == map[] && log != [] && Last(log).Granted?
      requires Last(log).lease == lease && !Shown(log).Ready?
      modifies this`log, this`ctxDone
      ensures Safe(log) && !Stuck(log) && Open(log) == old(Open(log)) && (old(ctxDone) ==> ctxDone)
      ensures started == if a.created then Some(Client(|old(log)|, desired, lease)) else None
      ensures result == if a.created && a.sawContext && ctxDone then Shutdown else StartOf(a)
      ensures log == old(log) + (if a.created then [Started(Client(|old(log)|, desired, lease))] else [])
                     + if result == StartedReady then [Publish(Ready(lease))] else []
      ensures Alive(log) == if a.created then map[|old(log)| := lease] else map[]
      ensures if result == StartedReady then Shown(log) == Ready(lease) else !Shown(log).Ready?
    {
      if !a.created {
        return None, BootstrapUnavailable;
      }
      var client := Client(|log|, desired, lease);
      Do(Started(client));
      Tick();
      if a.sawContext && ctxDone {
        return Some(client), Shutdown;
      }
      if a.sawRunDone {
        return Some(client), BootstrapUnavailable;
      }
      if !a.readyOk {
        return Some(client), if a.stoppedBeforeReady then BootstrapUnavailable else RegistrationFailed;
      }
      if a.runDoneAfter {
        return Some(client), RegistrationFailed;
      }
      Do(Publish(Ready(lease)));
      return Some(client), StartedReady;
    }

    /** Stops the active client and gives its lease back. */
    method StopAndRelease(active: Client, workersDone: bool) returns (converged: bool)
      requires Steady(Some(active), None)
      modifies this`log, this`ctxDone
      ensures converged == workersDone
      ensures log == old(log) + StopLog(Some(active), workersDone) + if converged then [Release(KeyOf(active.lease))] else []
      ensures Safe(log) && Shown(log) == Cleared && Stuck(log) == !converged && (old(ctxDone) ==> ctxDone)
      ensures converged ==> Alive(log) == map[] && Open(log) == map[]
    {
      converged := StopClient(Some(active), workersDone);
      if converged {
        ReleaseKey(KeyOf(active.lease));
      }
    }

    function NextRetry(current: int): int {
      var maximum := if retryMax <= 0 then 30000 else retryMax;
      if current >= maximum || current * 2 > maximum then maximum else current * 2
    }

    function FirstRetry(): int {
      if retryMin > 0 then retryMin else 1000
    }

    /** A round with a lease in hand: the client is started, and the outcome decides what is kept. */
    method RunLease(desired: Desired, lease: Lease, replaced: Option<Replacement>, delay: int, a: Answers)
      returns (flow: Flow, active: Option<Client>, replacement: Option<Replacement>, retryDelay: int, result: StartResult)
      requires Safe(log) && !Stuck(log) && Alive(log) == map[] && !Shown(log).Ready?
      requires Open(log) == map[KeyOf(lease) := lease.slot]
      requires log != [] && Last(log).Granted? && Last(log).lease == lease
      modifies this`log, this`ctxDone
      ensures old(ctxDone) ==> ctxDone
      ensures flow == Again ==> Steady(active, replacement)
      ensures flow == Return ==> Ended()
      ensures result == StartOf(a.start) || (result == Shutdown && a.start.sawContext && ctxDone)
      ensures flow == Again <==> result == StartedReady || (result != Shutdown && (!a.start.created || a.stopOk) && a.waitOk)
      ensures old(log) <= log
      ensures a.start.created ==> |log| > |old(log)| && log[|old(log)|] == Started(Client(|old(log)|, desired, lease))
      ensures flow == Again ==>
                match result
                case StartedReady => active == Some(Client(|old(log)|, desired, lease)) && retryDelay == FirstRetry()
                case BootstrapUnavailable => active.None? && replacement.None? && retryDelay == NextRetry(delay)
                case RegistrationFailed => active.None?
                    && replacement == Some(Replacement(KeyOf(lease), lease.slot)) && retryDelay == NextRetry(delay)
                case Shutdown => false
    {
      hide Safe, Stuck, Shown, Alive, Open, StopLog;
      active, replacement, retryDelay := None, replaced, delay;
      var started: Option<Client>;
      started, result := Start(desired, lease, a.start);
      var converged: bool;
      match result {
      case StartedReady =>
        active, replacement, retryDelay := started, None, FirstRetry();
      case Shutdown =>
        converged := StopClient(started, a.stopOk);
        if converged {
          ReleaseKey(KeyOf(lease));
        }
        return Return, None, None, delay, result;
      case BootstrapUnavailable =>
        converged := StopClient(started, a.stopOk);
        if !converged {
          return Return, None, None, delay, result;
        }
        PublishNotReady();
        ReleaseKey(KeyOf(lease));
        replacement := None;
        Tick();
        if !a.waitOk {
          return Return, None, None, delay, result;
        }
        retryDelay := NextRetry(delay);
      case RegistrationFailed =>
        converged := StopClient(started, a.stopOk);
        if !converged {
          return Return, None, None, delay, result;
        }
        PublishNotReady();
        replacement := Some(Replacement(KeyOf(lease), lease.slot));
        WaitRetryWithReplacement(replacement, a.waitOk);
        if !a.waitOk {
          return Return, None, None, delay, result;
        }
        retryDelay := NextRetry(delay);
      }
      flow := Again;
    }

    /** A round without a client: learn what is wanted, prepare, get a lease, start. */
    method Acquire(pending: Option<Desired>, replaced: Option<Replacement>, delay: int, a: Answers)
      returns (flow: Flow, active: Option<Client>, replacement: Option<Replacement>, legacy: bool, retryDelay: int)
      requires Steady(None, replaced)
      modifies this`log, this`ctxDone
      ensures old(ctxDone) ==> ctxDone
      ensures flow == Again ==> Steady(active, replacement) && (legacy ==> active.None? && replacement.None?)
      ensures flow == Return ==> Ended()
      ensures old(log) <= log
      ensures var desired := if pending.Some? then pending else a.desired;
              if desired.None? || (desired.value.managed && !a.prepared) then
                && (flow == Again <==> a.waitOk)
                && (flow == Again ==> active.None? && replacement == replaced && !legacy && retryDelay == NextRetry(delay))
              else if !desired.value.managed then flow == Again && legacy
              else Asks(old(log), log, desired.value, a) || (flow == Return && ctxDone)
    {
      hide Safe, Stuck, Shown, Alive, Open, Requested, Asks, Acceptable;
      active, replacement, legacy, retryDelay := None, replaced, false, delay;
      var desired := pending;
      if desired.None? {
        Tick();
        desired := a.desired;
      }
      if desired.None? {
        WaitRetryWithReplacement(replacement, a.waitOk);
        flow, retryDelay := if a.waitOk then Again else Return, NextRetry(delay);
        return;
      }
      if !desired.value.managed {
        ReleaseReplacement(replacement);
        replacement := None;
        PublishLegacy();
        legacy, flow := true, Again;
        return;
      }
      PublishNotReady();
      Tick();
      if !a.prepared {
        WaitRetryWithReplacement(replacement, a.waitOk);
        flow, retryDelay := if a.waitOk then Again else Return, NextRetry(delay);
        return;
      }
      replacement := KeepFitting(replacement, desired.value.generation);
      if replacement != replaced && ctxDone {
        flow := Return;
        return;
      }
      ghost var at := |log|;
      flow, active, replacement, retryDelay := RequestLease(desired.value, replacement, delay, a);
      AsksAt(old(log), log, at, desired.value, a);
    }

    /** A replacement of another generation is given back. */
    method KeepFitting(replaced: Option<Replacement>, generation: nat) returns (replacement: Option<Replacement>)
      requires Steady(None, replaced)
      modifies this`log, this`ctxDone
      ensures old(ctxDone) ==> ctxDone
      ensures Steady(None, replacement) && old(log) <= log
      ensures replacement == if replaced.Some? && replaced.value.key.generation != generation then None else replaced
    {
      replacement := replaced;
      if replacement.Some? && replacement.value.key.generation != generation {
        ReleaseReplacement(replacement);
        replacement := None;
      }
    }

    /** Asks for a lease, presenting the one it replaces, and starts a client on what it gets. */
    method RequestLease(desired: Desired, replaced: Option<Replacement>, delay: int, a: Answers)
      returns (flow: Flow, active: Option<Client>, replacement: Option<Replacement>, retryDelay: int)
      requires Steady(None, replaced) && desired.managed
      requires replaced.Some? ==> replaced.value.key.generation == desired.generation
      modifies this`log, this`ctxDone
      ensures old(ctxDone) ==> ctxDone
      ensures flow == Again ==> Steady(active, replacement)
      ensures flow == Return ==> Ended()
      ensures old(log) <= log && Requested(log, |old(log)|, desired, a)
      ensures a.lease.None? || !Acceptable(desired, a.lease.value, a.now) ==>
                && (flow == Again <==> a.waitOk)
                && (flow == Again ==> active.None? && replacement == replaced && retryDelay == NextRetry(delay))
      ensures a.lease.Some? && Acceptable(desired, a.lease.value, a.now) && StartOf(a.start) == StartedReady && !a.start.sawContext ==>
                && flow == Again && active == Some(Client(|old(log)| + 2, desired, a.lease.value))
                && replacement.None? && retryDelay == FirstRetry()
    {
      hide Safe, Stuck, Shown, Alive, Open, Requested, StartOf, Acceptable;
      ghost var before := log;
      active, replacement, retryDelay := None, replaced, delay;
      var taken := AskForLease(desired, replacement, a);
      ghost var asked := log;
      if !taken {
        RequestLogged(before, asked, desired, a);
        WaitRetryWithReplacement(replacement, a.waitOk);
        RequestedStays(asked, log, |before|, desired, a);
        flow, retryDelay := if a.waitOk then Again else Return, NextRetry(delay);
        return;
      }
      var result: StartResult;
      flow, active, replacement, retryDelay, result := RunLease(desired, a.lease.value, replacement, delay, a);
      GrantLogged(before, asked, log, desired, a);
    }

    /** The request, and whether its answer is a lease to take. */
    method AskForLease(desired: Desired, replacement: Option<Replacement>, a: Answers) returns (taken: bool)
      requires Steady(None, replacement) && desired.managed
      requires replacement.Some? ==> replacement.value.key.generation == desired.generation
      modifies this`log, this`ctxDone
      ensures old(ctxDone) ==> ctxDone
      ensures taken <==> a.lease.Some? && Acceptable(desired, a.lease.value, a.now)
      ensures var presented := if replacement.Some? then Some(replacement.value.key) else None;
              var excluded := if replacement.Some? then Some(replacement.value.slot) else None;
              log == old(log) + [Request(presented, excluded, desired)]
                     + if a.lease.None? then [] else if taken then [Granted(presented, a.lease.value, a.now)]
                       else [Refused(a.lease.value, a.now)]
      ensures if !taken then Steady(None, replacement)
              else
                && Safe(log) && !Stuck(log) && Alive(log) == map[] && !Shown(log).Ready?
                && Open(log) == map[KeyOf(a.lease.value) := a.lease.value.slot]
    {
      hide Safe, Stuck, Shown, Alive, Open;
      var presented := if replacement.Some? then Some(replacement.value.key) else None;
      Do(Request(presented, if replacement.Some? then Some(replacement.value.slot) else None, desired));
      Tick();
      if a.lease.None? {
        return false;
      }
      taken := ValidateLease(desired, a.lease.value, a.now);
      if taken {
        Do(Granted(presented, a.lease.value, a.now));
      } else {
        Do(Refused(a.lease.value, a.now));
      }
    }

    method ValidateLease(desired: Desired, lease: Lease, now: int) returns (ok: bool)
      ensures ok == Acceptable(desired, lease, now)
    {
      if lease.generation != desired.generation || Blank(lease.id) || TrimSpace(lease.id) != lease.id {
        BlankIsTrimmedEmpty(lease.id);
        return false;
      }
      BlankIsTrimmedEmpty(lease.id);
      if lease.slot < 0 || lease.slot > desired.portEnd - desired.portStart {
        return false;
      }
      if lease.port < desired.portStart || lease.port > desired.portEnd {
        return false;
      }
      if lease.expiresAt == 0 || lease.expiresAt <= now {
        return false;
      }
      return lease.port == desired.portStart + lease.slot;
    }

    /** A round with a client: wait for whatever comes first and act on it. */
    method Attend(client: Client, delay: int, a: Answers)
      returns (flow: Flow, active: Option<Client>, replacement: Option<Replacement>, legacy: bool, retryDelay: int, wake: Wake)
      requires Steady(Some(client), None)
      modifies this`log, this`ctxDone, this`invalidations
      ensures old(ctxDone) ==> ctxDone
      ensures flow == Again ==> Steady(active, replacement) && (legacy ==> active.None? && replacement.None?)
      ensures flow == Return ==> Ended()
      ensures wake == WakeOf(a, client) || (wake == ContextEnded && a.wake.sawContext && ctxDone)
      ensures old(ctxDone) && a.wake.sawContext ==> wake == ContextEnded
      ensures old(log) <= log
      ensures wake != ContextEnded && !(wake == PollFailed && ctxDone) ==>
                (MustStop(a, client) <==> Stopped(old(log), log, client.id))
      ensures wake == PollFailed && ctxDone ==> flow == Return
      ensures flow == Return ==> ctxDone || (MustStop(a, client) && (!a.stopOk || (wake == RunEnded && !a.waitOk))) || wake == ContextEnded
      ensures flow == Again ==>
                match wake
                case ContextEnded => false
                case RunEnded => active.None? && replacement == Some(Replacement(KeyOf(client.lease), client.lease.slot))
                    && retryDelay == NextRetry(delay)
                case Invalidated(found) => active == (if found then None else Some(client))
                    && replacement.None? && retryDelay == if found then FirstRetry() else delay
                case Polled(desired) => Wanted(client, desired) == active.Some?
                    && (active.Some? ==> active.value == client) && replacement.None?
                                        && legacy == (desired.Some? && !desired.value.managed)
                case PollFailed => active == Some(client) && retryDelay == delay
    {
      assert !Stopped(log, log, client.id);
      hide Safe, Stuck, Shown, Alive, Open, StopLog, Stopped;
      active, replacement, legacy, retryDelay, flow := Some(client), None, false, delay, Again;
      Tick();
      if a.wake.sawContext && ctxDone {
        wake := ContextEnded;
        var converged := StopAndRelease(client, a.stopOk);
        flow := Return;
      } else if a.wake.runDone {
        wake := RunEnded;
        flow, replacement := AfterRunEnded(client, a);
        active, retryDelay := None, NextRetry(delay);
      } else if a.wake.invalidated {
        invalidations := a.wake.invalidations;
        var found := TakeInvalidationFor(KeyOf(client.lease));
        wake := Invalidated(found);
        if !found {
          return;
        }
        flow := Drop(client, a);
        active, retryDelay := None, FirstRetry();
      } else if a.wake.pollOk {
        Tick();
        wake := Polled(a.desired);
        flow, active, legacy, retryDelay := Poll(client, a.desired, delay, a.stopOk);
      } else {
        wake := PollFailed;
        if ctxDone {
          var converged := StopAndRelease(client, a.stopOk);
          flow := Return;
        }
      }
    }

    /** A client that has ended is stopped, and its lease kept to be presented for the next. */
    method AfterRunEnded(client: Client, a: Answers) returns (flow: Flow, replacement: Option<Replacement>)
      requires Steady(Some(client), None)
      modifies this`log, this`ctxDone
      ensures old(ctxDone) ==> ctxDone
      ensures flow == Again <==> a.stopOk && a.waitOk
      ensures flow == Again ==> Steady(None, replacement) && replacement == Some(Replacement(KeyOf(client.lease), client.lease.slot))
      ensures flow == Return ==> Ended()
      ensures old(log) <= log && Stopped(old(log), log, client.id)
    {
      StopLogStops(log, client, a.stopOk);
      hide Safe, Stuck, Shown, Alive, Open, StopLog, Stopped;
      var converged := StopClient(Some(client), a.stopOk);
      replacement := Some(Replacement(KeyOf(client.lease), client.lease.slot));
      if !converged {
        return Return, replacement;
      }
      PublishNotReady();
      WaitRetryWithReplacement(replacement, a.waitOk);
      flow := if a.waitOk then Again else Return;
    }

    /** A client whose lease is invalid is stopped, and the lease given back. */
    method Drop(client: Client, a: Answers) returns (flow: Flow)
      requires Steady(Some(client), None)
      modifies this`log, this`ctxDone
      ensures old(ctxDone) ==> ctxDone
      ensures flow == Again <==> a.stopOk
      ensures flow == Again ==> Steady(None, None)
      ensures flow == Return ==> Ended()
      ensures old(log) <= log && Stopped(old(log), log, client.id)
    {
      StopLogStops(log, client, a.stopOk);
      hide Safe, Stuck, Shown, Alive, Open, StopLog, Stopped;
      var converged := StopAndRelease(client, a.stopOk);
      if !converged {
        return Return;
      }
      PublishNotReady();
      return Again;
    }

    /** After the poll interval the client is kept unless something else is wanted for certain. */
    method Poll(client: Client, desired: Option<Desired>, delay: int, workersDone: bool)
      returns (flow: Flow, active: Option<Client>, legacy: bool, retryDelay: int)
      requires Steady(Some(client), None)
      modifies this`log, this`ctxDone
      ensures old(ctxDone) ==> ctxDone
      ensures flow == Again ==> Steady(active, None) && (legacy ==> active.None?)
      ensures flow == Return ==> Ended()
      ensures flow == Again <==> Wanted(client, desired) || workersDone
      ensures Wanted(client, desired) ==> active == Some(client) && !legacy && retryDelay == delay && log == old(log)
      ensures !Wanted(client, desired) ==> old(log) <= log && Stopped(old(log), log, client.id)
      ensures !Wanted(client, desired) && flow == Again
          ==> active.None? && legacy == !desired.value.managed && retryDelay == FirstRetry()
    {
      flow, active, legacy, retryDelay := Again, Some(client), false, delay;
      if desired.None? {
        return;
      }
      ghost var before := log;
      var converged: bool;
      if !desired.value.managed {
        converged := StopAndRelease(client, workersDone);
        StopLogStops(before, client, workersDone);
        if !converged {
          flow := Return;
          return;
        }
        active, retryDelay := None, FirstRetry();
        PublishLegacy();
        legacy := true;
        return;
      }
      if client.desired == desired.value {
        return;
      }
      converged := StopAndRelease(client, workersDone);
      StopLogStops(before, client, workersDone);
      if !converged {
        flow := Return;
        return;
      }
      active, retryDelay := None, FirstRetry();
      PublishNotReady();
    }

    /** An invalidation counts only for the lease it names; the others are stale by now. */
    method TakeInvalidationFor(key: Key) returns (found: bool)
      modifies this`invalidations
      ensures found == (key in old(invalidations)) && invalidations == {}
    {
      found := key in invalidations;
      invalidations := {};
    }

    /** While the gateway wants no managed transport nothing is held. */
    method LegacyRound(a: Answers) returns (flow: Flow, pending: Option<Desired>)
      requires Steady(None, None)
      modifies this`log, this`ctxDone
      ensures old(ctxDone) ==> ctxDone
      ensures flow == Again ==> Steady(None, None)
      ensures flow == Return ==> Ended()
      ensures old(log) <= log && (flow == Again <==> a.waitOk) && pending == Learnt(a, true)
    {
      flow, pending := Again, None;
      Tick();
      if !a.waitOk {
        Do(Publish(Cleared));
        flow := Return;
        return;
      }
      Tick();
      if a.desired.None? || !a.desired.value.managed {
        return;
      }
      PublishNotReady();
      pending := a.desired;
    }

    /**
     Each round is one of `tops`, and does what its answers call for; only the last may be cut
     short by the end of the context.
     */
    method Run(answers: nat -> Answers, steps: nat) returns (finished: bool, ghost tops: seq<nat>)
      requires log == []
      modifies this
      ensures Safe(log) && (finished ==> Ended())
      ensures |tops| <= steps && (finished || |tops| == steps)
      ensures RoundsOk(log, tops, |tops| - 1, answers)
      ensures tops != [] && !(finished && ctxDone) ==> LastRoundOk(log, tops, answers)
    {
      Do(Publish(Cleared));
      tops := [];
      var retryDelay := FirstRetry();
      var active: Option<Client>, replacement: Option<Replacement>, pending: Option<Desired> := None, None, None;
      var legacy := false;
      var flow: Flow;
      for round := 0 to steps
        invariant Steady(active, replacement) && (legacy ==> active.None? && replacement.None?) && pending.None?
        invariant |tops| == round && RoundsOk(log, tops, |tops| - 1, answers)
        invariant tops != [] ==> LastRoundOk(log, tops, answers)
      {
        ghost var was, before := tops, log;
        flow, active, replacement, legacy, retryDelay := Round(active, replacement, legacy, retryDelay, answers(round));
        tops := tops + [|before|];
        RoundsStay(before, log, was, answers);
        if flow == Return {
          return true, tops;
        }
      }
      return false, tops;
    }

    /** One round. */
    method Round(wasActive: Option<Client>, wasReplacement: Option<Replacement>, wasLegacy: bool, delay: int, a: Answers)
      returns (flow: Flow, active: Option<Client>, replacement: Option<Replacement>, legacy: bool, retryDelay: int)
      requires Steady(wasActive, wasReplacement) && (wasLegacy ==> wasActive.None? && wasReplacement.None?)
      modifies this
      ensures flow == Again ==> Steady(active, replacement) && (legacy ==> active.None? && replacement.None?)
      ensures flow == Return ==> Ended()
      ensures |old(log)| < |log| && old(log) <= log
      ensures RoundOk(log, |old(log)|, |log|, a) || (flow == Return && ctxDone)
    {
      active, replacement, legacy, retryDelay, flow := wasActive, wasReplacement, wasLegacy, delay, Again;
      Do(Top(active, replacement, legacy));
      ghost var top := log;
      var pending: Option<Desired> := None;
      if legacy {
        flow, pending := LegacyRound(a);
        if flow == Return || pending.None? {
          return;
        }
        legacy := false;
      }
      if active.None? {
        ghost var before := log;
        flow, active, replacement, legacy, retryDelay := Acquire(pending, replacement, retryDelay, a);
        if flow == Again || !ctxDone {
          AsksInRound(top, before, log, a);
        }
      } else {
        var wake: Wake;
        flow, active, replacement, legacy, retryDelay, wake := Attend(active.value, retryDelay, a);
        if flow == Again || !ctxDone {
          StopsInRound(top, log, a);
        }
      }
    }
  }

  function StopLog(client: Option<Client>, workersDone: bool): seq<Action> {
    [Publish(Cleared)]
    + if client.None? then []
      else [Stopping(client.value.id), if workersDone then Converged(client.value.id) else Unconverged(client.value.id)]
  }

  /** The log has grown by what includes the stop of a client. */
  ghost predicate Stopped(before: seq<Action>, after: seq<Action>, id: nat) {
    exists k :: |before| <= k < |after| && after[k] == Stopping(id)
  }

  lemma StopLogStops(before: seq<Action>, client: Client, workersDone: bool)
    ensures forall after :: before + StopLog(Some(client), workersDone) <= after ==> Stopped(before, after, client.id)
  {
    forall after | before + StopLog(Some(client), workersDone) <= after ensures Stopped(before, after, client.id) {
      var more := before + StopLog(Some(client), workersDone);
      assert more[|before| + 1] == Stopping(client.id) && after[|before| + 1] == more[|before| + 1];
    }
  }

  /** The log has grown by what includes a request with its answer. */
  ghost predicate Asks(before: seq<Action>, after: seq<Action>, wanted: Desired, a: Answers) {
    exists k :: |before| <= k < |after| && Requested(after, k, wanted, a)
  }

  lemma AsksAt(before: seq<Action>, log: seq<Action>, k: nat, wanted: Desired, a: Answers)
    requires |before| <= k && Requested(log, k, wanted, a)
    ensures Asks(before, log, wanted, a)
  {
  }

  lemma AsksInRound(top: seq<Action>, before: seq<Action>, log: seq<Action>, a: Answers)
    requires top != [] && Last(top).Top? && Last(top).active.None? && top <= before <= log
    requires var learnt := Learnt(a, Last(top).legacy);
             learnt.Some? && learnt.value.managed && a.prepared ==> Asks(before, log, learnt.value, a)
    ensures RoundOk(log, |top| - 1, |log|, a)
  {
    assert log[..|log|] == log && log[|top| - 1] == Last(top);
    hide Requested;
    var learnt := Learnt(a, Last(top).legacy);
    if learnt.Some? && learnt.value.managed && a.prepared {
      var k :| |before| <= k < |log| && Requested(log, k, learnt.value, a);
    }
  }

  lemma StopsInRound(top: seq<Action>, log: seq<Action>, a: Answers)
    requires top != [] && Last(top).Top? && Last(top).active.Some? && top <= log
    requires !a.wake.sawContext ==> (MustStop(a, Last(top).active.value) <==> Stopped(top, log, Last(top).active.value.id))
    ensures RoundOk(log, |top| - 1, |log|, a)
  {
    assert log[|top| - 1] == Last(top);
    hide MustStop;
  }

  ghost predicate RoundAt(log: seq<Action>, tops: seq<nat>, r: nat, answers: nat -> Answers)
    requires r + 1 < |tops|
  {
    tops[r] < tops[r + 1] <= |log| && RoundOk(log, tops[r], tops[r + 1], answers(r))
  }

  /** The first rounds, each up to where the next one begins. */
  ghost predicate RoundsOk(log: seq<Action>, tops: seq<nat>, n: int, answers: nat -> Answers) {
    n < |tops| && forall r :: 0 <= r < n ==> RoundAt(log, tops, r, answers)
  }

  ghost predicate LastRoundOk(log: seq<Action>, tops: seq<nat>, answers: nat -> Answers)
    requires tops != []
  {
    tops[|tops| - 1] < |log| && RoundOk(log, tops[|tops| - 1], |log|, answers(|tops| - 1))
  }

  lemma RoundStays(before: seq<Action>, log: seq<Action>, from: nat, to: nat, a: Answers)
    requires from < to <= |before| && before <= log && RoundOk(before, from, to, a)
    ensures RoundOk(log, from, to, a)
  {
    assert log[..to] == before[..to];
    hide Requested;
  }

  lemma RoundsStay(before: seq<Action>, log: seq<Action>, tops: seq<nat>, answers: nat -> Answers)
    requires RoundsOk(before, tops, |tops| - 1, answers) && before <= log
    requires tops != [] ==> LastRoundOk(before, tops, answers)
    ensures RoundsOk(log, tops + [|before|], |tops|, answers)
  {
    hide RoundOk;
    var more := tops + [|before|];
    forall r | 0 <= r < |tops| ensures RoundAt(log, more, r, answers) {
      assert r < |tops| - 1 ==> RoundAt(before, tops, r, answers);
      RoundStays(before, log, more[r], more[r + 1], answers(r));
    }
  }

  // ----- What a safe log rules out -----

  lemma {:induction false} SafePrefix(log: seq<Action>, k: nat)
    requires Safe(log) && k <= |log|
    ensures Safe(log[..k])
    decreases |log|
  {
    if k < |log| {
      SafePrefix(Front(log), k);
      assert Front(log)[..k] == log[..k];
    } else {
      assert log[..k] == log;
    }
  }

  /** So every action was allowed when it was taken. */
  lemma AllowedWhenTaken(log: seq<Action>, k: nat)
    requires Safe(log) && k < |log|
    ensures Safe(log[..k]) && Allowed(log[..k], log[k])
  {
    SafePrefix(log, k);
    SafePrefix(log, k + 1);
    assert Front(log[..k + 1]) == log[..k];
  }

  /** Never more than one client alive, and what is shown as ready is that client's lease. */
  lemma {:induction false} OneClient(log: seq<Action>)
    requires Safe(log)
    ensures forall a <- Alive(log), b <- Alive(log) :: a == b
    ensures Shown(log).Ready? ==> Shown(log).lease in Alive(log).Values
    decreases |log|
  {
    if log != [] {
      OneClient(Front(log));
      if Last(log).Publish? && Last(log).snapshot.Ready? {
        var c := Last(Front(log)).client;
        assert c.id in Alive(Front(log)) && Alive(Front(log))[c.id] == c.lease;
      }
    }
  }

  predicate ConvergedBy(log: seq<Action>, id: nat) {
    log != [] && (Last(log) == Converged(id) || ConvergedBy(Front(log), id))
  }

  /** A started client is alive until it has converged. */
  lemma {:induction false} AliveUntilConverged(log: seq<Action>, i: nat)
    requires Safe(log) && i < |log| && log[i].Started?
    ensures var c := log[i].client; c.id == i && (ConvergedBy(log, i) || (i in Alive(log) && Alive(log)[i] == c.lease))
    decreases |log|
  {
    if i < |log| - 1 {
      AliveUntilConverged(Front(log), i);
    }
  }

  /** A lease is given back only after every client that ran on it has stopped. */
  lemma ReleasedAfterStop(log: seq<Action>, i: nat, k: nat)
    requires Safe(log) && i < k < |log| && log[i].Started? && log[k].Release?
    requires KeyOf(log[i].client.lease) == log[k].key
    ensures ConvergedBy(log[..k], log[i].client.id)
  {
    AllowedWhenTaken(log, k);
    AliveUntilConverged(log[..k], i);
  }

  lemma {:induction false} StaysStuck(log: seq<Action>, j: nat)
    requires j <= |log| && Stuck(log[..j])
    ensures Stuck(log)
    decreases |log|
  {
    if j < |log| {
      assert Front(log)[..j] == log[..j];
      StaysStuck(Front(log), j);
    } else {
      assert log[..j] == log;
    }
  }

  /** After a client that did not stop in time no lease is asked for and no client started. */
  lemma NothingAfterUnconverged(log: seq<Action>, j: nat, k: nat)
    requires Safe(log) && j < k < |log| && log[j].Unconverged?
    ensures !log[k].Request? && !log[k].Started?
  {
    AllowedWhenTaken(log, k);
    assert Last(log[..j + 1]) == log[j];
    assert log[..k][..j + 1] == log[..j + 1];
    StaysStuck(log[..k], j + 1);
  }

  predicate TakenBy(log: seq<Action>, key: Key) {
    exists j :: 0 <= j < |log| && log[j].Granted? && KeyOf(log[j].lease) == key
  }

  /** Whatever is held was granted, and taken. */
  lemma {:induction false} OpenWasTaken(log: seq<Action>, key: Key)
    requires key in Open(log)
    ensures TakenBy(log, key)
    decreases |log|
  {
    if Last(log).Granted? && KeyOf(Last(log).lease) == key {
      assert log[|log| - 1].Granted?;
    } else {
      OpenWasTaken(Front(log), key);
      var j :| 0 <= j < |Front(log)| && Front(log)[j].Granted? && KeyOf(Front(log)[j].lease) == key;
      assert log[j] == Front(log)[j];
    }
  }

  /** Only a lease that was taken is given back: one that was granted but refused is left to expire. */
  lemma OnlyTakenIsReleased(log: seq<Action>, k: nat)
    requires Safe(log) && k < |log| && log[k].Release?
    ensures TakenBy(log[..k], log[k].key)
  {
    AllowedWhenTaken(log, k);
    OpenWasTaken(log[..k], log[k].key);
  }

  // ----- Delays -----

  /** The delay after `n` failures in a row. */
  function DelayAfter(m: TransportManager, n: nat): int {
    if n == 0 then m.FirstRetry() else m.NextRetry(DelayAfter(m, n - 1))
  }

  function Doubled(first: int, n: nat): int {
    if n == 0 then first else 2 * Doubled(first, n - 1)
  }

  lemma DoubledIsPositive(first: int, n: nat)
    requires first > 0
    ensures Doubled(first, n) >= first
  {
  }

  /** Delays double up to the longest one and stay there; a second and half a minute stand for what is not set. */
  lemma {:induction false} DelaysDouble(m: TransportManager, n: nat)
    requires n > 0
    ensures var first, longest := if m.retryMin > 0 then m.retryMin else 1000, if m.retryMax > 0 then m.retryMax else 30000;
            DelayAfter(m, n) == if Doubled(first, n) <= longest then Doubled(first, n) else longest
    decreases n
  {
    DoubledIsPositive(m.FirstRetry(), n - 1);
    if n > 1 {
      DelaysDouble(m, n - 1);
    } else {
      assert DelayAfter(m, 0) == Doubled(m.FirstRetry(), 0);
    }
  }
}
