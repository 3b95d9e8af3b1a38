/**
 The retry loop of the model proxy (`internal/gateway/proxy.go`).

 `log` lists what one request asks the scheduler for, takes, waits for in vain, gives back and
 dispatches. `World` says what the scheduler, the queues, the registry and the workers answer,
 turn by turn; when the client goes is left open.
 */
module ProxyDispatch {

  import opened Basics

  /** What a request holds while it is in flight. */
  datatype Permit =
    | ModelLimit | TagLimit(tag: string) | WorkerModelLimit(worker: string)
    | RegistryCount(worker: string) | AccountingEntry(worker: string) | MetricsCount(worker: string)

  datatype Wait = Admitted | QueueFull | WaitFailed

  /** What came of one attempt: forwarded, or failed before anything was sent to the client. */
  datatype Attempt = Attempt(retry: bool, failure: bool, error: bool)

  /** The scheduler's choice and all that comes of it. */
  datatype Turn = Turn(
    pick: Option<string>, tag: string, tagWait: Wait, workerWait: Wait, admitted: bool, attempt: Attempt)

  datatype World = World(fleet: set<string>, modelWait: Wait, turns: nat -> Turn)

  /** `exclude` are the workers the scheduler was told to leave out. */
  datatype Step =
    | Take(permit: Permit) | Missed(permit: Permit, wait: Wait) | Give(permit: Permit)
    | Pick(exclude: set<string>, choice: Option<string>) | Denied(worker: string)
    | Dispatch(worker: string, tag: string)

  /** How the request ended; `retries` counts the attempts before the one that was forwarded. */
  datatype End =
    | ClientGone | QueueError | Forwarded(worker: string, retries: nat)
    | DispatchFailed | NoHealthyWorker

  // ----- What a log says -----

  function Held(log: seq<Step>): multiset<Permit> {
    if log == [] then multiset{}
    else
      match log[|log| - 1]
      case Take(p) => Held(log[..|log| - 1]) + multiset{p}
      case Give(p) => Held(log[..|log| - 1]) - multiset{p}
      case _ => Held(log[..|log| - 1])
  }

  function Dispatched(log: seq<Step>): seq<string> {
    if log == [] then []
    else Dispatched(log[..|log| - 1]) + if log[|log| - 1].Dispatch? then [log[|log| - 1].worker] else []
  }

  /**
   How far the request has come: the worst wait, how often the scheduler was asked, whom it
   picked, who of them is not settled yet, and whether it had nobody left.
   */
  datatype Course = Course(queue: Wait, picks: nat, picked: set<string>, open: Option<string>, exhausted: bool)

  const START := Course(Admitted, 0, {}, None, false)

  function Worse(a: Wait, b: Wait): Wait {
    if a == WaitFailed || b == Admitted then a else b
  }

  function After(c: Course, s: Step): Course {
    match s
    case Missed(_, wait) => c.(queue := Worse(c.queue, wait), open := None)
    case Pick(_, choice) =>
      c.(picks := c.picks + 1, picked := if choice.Some? then c.picked + {choice.value} else c.picked, open := choice,
         exhausted := choice.None?)
    case Denied(_) => c.(open := None)
    case Dispatch(_, _) => c.(open := None)
    case _ => c
  }

  function CourseOf(log: seq<Step>): Course {
    if log == [] then START else After(CourseOf(log[..|log| - 1]), log[|log| - 1])
  }

  /** The turn of the last pick. */
  function TurnOf(c: Course, world: World): Turn {
    world.turns(if c.picks == 0 then 0 else c.picks - 1)
  }

  /** The answers of the workers that were dispatched to. */
  function Answers(log: seq<Step>, world: World): seq<Attempt> {
    if log == [] then []
    else
      var front := log[..|log| - 1];
      Answers(front, world) + if log[|log| - 1].Dispatch? then [TurnOf(CourseOf(front), world).attempt] else []
  }

  /** A scheduler picks somebody of the fleet who is not left out, or nobody. */
  function Choice(pick: Option<string>, left: set<string>): Option<string> {
    if pick.Some? && pick.value in left then pick else None
  }

  /** What a permit's queue, or the registry, answers in a turn. */
  function WaitFor(p: Permit, t: Turn, world: World): Wait {
    match p
    case ModelLimit => world.modelWait
    case TagLimit(_) => t.tagWait
    case WorkerModelLimit(_) => t.workerWait
    case RegistryCount(_) => if t.admitted then Admitted else WaitFailed
    case _ => Admitted
  }

  /**
   Permits are had exactly when the world grants them, and given back only while held. The
   scheduler is asked when the last worker is settled: dispatched to, denied by the registry or
   out of permits. A dispatch holds all six permits, for the worker that was picked.
   */
  predicate Allowed(log: seq<Step>, s: Step, world: World) {
    var c := CourseOf(log);
    var t := TurnOf(c, world);
    match s
    case Take(p) => Held(log)[p] == 0 && WaitFor(p, t, world) == Admitted
    case Missed(p, wait) => Held(log)[p] == 0 && wait != Admitted && wait == WaitFor(p, t, world)
    case Give(p) => Held(log)[p] == 1
    case Pick(exclude, choice) =>
      && c.open.None? && !c.exhausted && exclude == c.picked
      && choice == Choice(world.turns(c.picks).pick, world.fleet - exclude)
    case Denied(w) => c.open == Some(w) && !t.admitted && t.tagWait == t.workerWait == Admitted
    case Dispatch(w, tag) =>
      && c.open == Some(w) && tag == t.tag && w !in Dispatched(log) && Held(log) == Inside(w, tag)
  }

  predicate Safe(log: seq<Step>, world: World) {
    log != [] ==> Safe(log[..|log| - 1], world) && Allowed(log[..|log| - 1], log[|log| - 1], world)
  }

  /** Safe, with exactly these permits held and these workers tried, so far along the course. */
  ghost predicate At(log: seq<Step>, world: World, held: multiset<Permit>, dispatched: seq<string>, course: Course) {
    Safe(log, world) && Held(log) == held && Dispatched(log) == dispatched && CourseOf(log) == course
  }

  lemma AtNext(log: seq<Step>, world: World, s: Step, held: multiset<Permit>, dispatched: seq<string>, course: Course)
    requires At(log, world, held, dispatched, course) && Allowed(log, s, world)
    ensures At(log + [s], world,
               match s case Take(p) => held + multiset{p} case Give(p) => held - multiset{p} case _ => held,
               match s case Dispatch(w, _) => dispatched + [w] case _ => dispatched,
               After(course, s))
    ensures Answers(log + [s], world) == Answers(log, world) + if s.Dispatch? then [TurnOf(course, world).attempt] else []
  {
    assert (log + [s])[..|log|] == log;
  }

  predicate Distinct(s: seq<string>) {
    forall i, j :: 0 <= i < j < |s| ==> s[i] != s[j]
  }

  /** A safe log dispatches to no worker twice. */
  lemma {:induction false} NeverTwice(log: seq<Step>, world: World)
    requires Safe(log, world)
    ensures Distinct(Dispatched(log))
    decreases |log|
  {
    if log != [] {
      NeverTwice(log[..|log| - 1], world);
    }
  }

  /** One step further: who is picked, and who is settled. */
  lemma StepFurther(log: seq<Step>, world: World)
    requires log != [] && Safe(log, world)
    ensures var c, s := CourseOf(log[..|log| - 1]), log[|log| - 1];
            && Safe(log[..|log| - 1], world) && CourseOf(log) == After(c, s)
            && (s.Pick? ==> c.open.None? && (s.choice.Some? ==> s.choice.value in world.fleet))
            && (s.Dispatch? ==> c.open == Some(s.worker))
  {
  }

  /** And to nobody the scheduler did not pick from the fleet. */
  lemma {:induction false} OnlyPicked(log: seq<Step>, world: World)
    requires Safe(log, world)
    ensures CourseOf(log).picked <= world.fleet && (forall w <- Dispatched(log) :: w in CourseOf(log).picked)
    ensures CourseOf(log).open.Some? ==> CourseOf(log).open.value in CourseOf(log).picked
    decreases |log|
  {
    if log != [] {
      StepFurther(log, world);
      hide Safe, Allowed;
      OnlyPicked(log[..|log| - 1], world);
    }
  }

  /** At some point the worker that was picked was dispatched to, denied, or kept out by a queue. */
  predicate Settled(log: seq<Step>, w: string) {
    log != [] && (Settles(CourseOf(log[..|log| - 1]), log[|log| - 1], w) || Settled(log[..|log| - 1], w))
  }

  predicate Settles(c: Course, s: Step, w: string) {
    c.open == Some(w) && (s.Dispatch? || s.Denied? || s.Missed?)
  }

  lemma SettlesNow(c: Course, s: Step, w: string)
    requires s.Pick? ==> c.open.None?
    ensures c.open == Some(w) && After(c, s).open != Some(w) ==> Settles(c, s, w)
    ensures w in After(c, s).picked && w !in c.picked ==> After(c, s).open == Some(w)
  {
  }

  /** Everybody who was picked is settled, but for the one who was picked last and is about to be. */
  lemma {:induction false} PickedAreSettled(log: seq<Step>, world: World, w: string)
    requires Safe(log, world) && w in CourseOf(log).picked
    ensures CourseOf(log).open == Some(w) || Settled(log, w)
    decreases |log|
  {
    if log != [] {
      var front, s := log[..|log| - 1], log[|log| - 1];
      StepFurther(log, world);
      SettlesNow(CourseOf(front), s, w);
      hide Safe, Allowed, CourseOf, After, Settles;
      if w in CourseOf(front).picked {
        PickedAreSettled(front, world, w);
      }
    }
  }

  class Request {
    var log: seq<Step>
    var ctxDone: bool
    const world: World
    const proxyAttempts: int

    constructor (world: World, proxyAttempts: int)
      ensures log == [] && !ctxDone && this.world == world && this.proxyAttempts == proxyAttempts
    {
      log, ctxDone := [], false;
      this.world, this.proxyAttempts := world, proxyAttempts;
    }

    /** The client may go at any time, and does not come back. */
    method Tick()
      modifies this`ctxDone
      ensures old(ctxDone) ==> ctxDone
    {
      var done: bool := *;
      ctxDone := ctxDone || done;
    }

    method Do(s: Step, ghost held: multiset<Permit>, ghost tried: seq<string>, ghost course: Course)
      requires At(log, world, held, tried, course) && Allowed(log, s, world)
      modifies this`log
      ensures At(log, world,
                 match s case Take(p) => held + multiset{p} case Give(p) => held - multiset{p} case _ => held,
                 match s case Dispatch(w, _) => tried + [w] case _ => tried,
                 After(course, s))
      ensures Answers(log, world) == old(Answers(log, world)) + if s.Dispatch? then [TurnOf(course, world).attempt] else []
    {
      AtNext(log, world, s, held, tried, course);
      log := log + [s];
    }

    method TakePermit(p: Permit, ghost held: multiset<Permit>, ghost tried: seq<string>, ghost course: Course)
      requires At(log, world, held, tried, course) && held[p] == 0 && WaitFor(p, TurnOf(course, world), world) == Admitted
      modifies this`log
      ensures At(log, world, held + multiset{p}, tried, course) && Answers(log, world) == old(Answers(log, world))
    {
      Do(Take(p), held, tried, course);
    }

    method GivePermit(p: Permit, ghost held: multiset<Permit>, ghost tried: seq<string>, ghost course: Course)
      requires At(log, world, held, tried, course) && held[p] == 1
      modifies this`log
      ensures At(log, world, held - multiset{p}, tried, course) && Answers(log, world) == old(Answers(log, world))
    {
      Do(Give(p), held, tried, course);
    }

    /** Waits in the limiter's queue for the permit; `answer` is what comes of it. */
    method AcquireLimit(p: Permit, answer: Wait, ghost held: multiset<Permit>, ghost tried: seq<string>, ghost course: Course)
      requires At(log, world, held, tried, course) && held[p] == 0 && answer == WaitFor(p, TurnOf(course, world), world)
      modifies this`log, this`ctxDone
      ensures if answer == Admitted then At(log, world, held + multiset{p}, tried, course)
              else At(log, world, held, tried, After(course, Missed(p, answer)))
      ensures old(ctxDone) ==> ctxDone
      ensures Answers(log, world) == old(Answers(log, world))
    {
      Tick();
      if answer == Admitted {
        TakePermit(p, held, tried, course);
      } else {
        Do(Missed(p, answer), held, tried, course);
      }
    }

    /** Releases what an attempt took: the last listed first. */
    method ReleaseAttempt(w: string, tag: string, ghost tried: seq<string>, ghost course: Course)
      requires At(log, world, Inside(w, tag), tried, course)
      modifies this`log
      ensures At(log, world, multiset{ModelLimit}, tried, course) && Answers(log, world) == old(Answers(log, world))
    {
      hide At, Answers;
      GivePermit(TagLimit(tag), Inside(w, tag), tried, course);
      GivePermit(WorkerModelLimit(w),
          multiset{ModelLimit, WorkerModelLimit(w), RegistryCount(w), AccountingEntry(w), MetricsCount(w)}, tried, course);
      GivePermit(MetricsCount(w), multiset{ModelLimit, RegistryCount(w), AccountingEntry(w), MetricsCount(w)}, tried, course);
      GivePermit(AccountingEntry(w), multiset{ModelLimit, RegistryCount(w), AccountingEntry(w)}, tried, course);
      GivePermit(RegistryCount(w), multiset{ModelLimit, RegistryCount(w)}, tried, course);
      assert multiset{ModelLimit, RegistryCount(w)} - multiset{RegistryCount(w)} == multiset{ModelLimit};
    }

    /** The nested permits of the worker that was picked, then the attempt; whatever fails, nothing of them is kept. */
    method TryWorker(w: string, t: Turn, ghost tried: seq<string>, ghost course: Course) returns (outcome: Outcome)
      requires At(log, world, multiset{ModelLimit}, tried, course) && w !in tried
      requires course.open == Some(w) && t == TurnOf(course, world)
      modifies this`log, this`ctxDone
      ensures outcome == OutcomeOf(t)
      ensures At(log, world, multiset{ModelLimit}, if outcome.Attempted? then tried + [w] else tried,
                course.(open := None, queue := Worse(course.queue, WaitOf(outcome))))
      ensures Answers(log, world) == old(Answers(log, world)) + if outcome.Attempted? then [t.attempt] else []
      ensures old(ctxDone) ==> ctxDone
    {
      hide At, Answers;
      ghost var none := multiset{ModelLimit};
      ghost var one := none + multiset{TagLimit(t.tag)};
      ghost var two := one + multiset{WorkerModelLimit(w)};
      Layers(w, t.tag);
      AcquireLimit(TagLimit(t.tag), t.tagWait, none, tried, course);
      if t.tagWait != Admitted {
        return if t.tagWait == QueueFull then Full else Broken;
      }
      AcquireLimit(WorkerModelLimit(w), t.workerWait, one, tried, course);
      if t.workerWait != Admitted {
        GivePermit(TagLimit(t.tag), one, tried, After(course, Missed(WorkerModelLimit(w), t.workerWait)));
        return if t.workerWait == QueueFull then Full else Broken;
      }
      if !t.admitted {
        Deny(w, two, tried, course);
        GivePermit(WorkerModelLimit(w), two, tried, After(course, Denied(w)));
        GivePermit(TagLimit(t.tag), one, tried, After(course, Denied(w)));
        return Refused;
      }
      ghost var three := two + multiset{RegistryCount(w)};
      TakePermit(RegistryCount(w), two, tried, course);
      TakePermit(AccountingEntry(w), three, tried, course);
      TakePermit(MetricsCount(w), three + multiset{AccountingEntry(w)}, tried, course);
      Send(w, t.tag, tried, course);
      Tick();
      ReleaseAttempt(w, t.tag, tried + [w], After(course, Dispatch(w, t.tag)));
      return Attempted(t.attempt);
    }

    method Deny(w: string, ghost held: multiset<Permit>, ghost tried: seq<string>, ghost course: Course)
      requires At(log, world, held, tried, course) && course.open == Some(w)
      requires !TurnOf(course, world).admitted && TurnOf(course, world).tagWait == TurnOf(course, world).workerWait == Admitted
      modifies this`log
      ensures At(log, world, held, tried, After(course, Denied(w))) && Answers(log, world) == old(Answers(log, world))
    {
      Do(Denied(w), held, tried, course);
    }

    method Send(w: string, tag: string, ghost tried: seq<string>, ghost course: Course)
      requires At(log, world, Inside(w, tag), tried, course) && w !in tried
      requires course.open == Some(w) && tag == TurnOf(course, world).tag
      modifies this`log
      ensures At(log, world, Inside(w, tag), tried + [w], After(course, Dispatch(w, tag)))
      ensures Answers(log, world) == old(Answers(log, world)) + [TurnOf(course, world).attempt]
    {
      Do(Dispatch(w, tag), Inside(w, tag), tried, course);
    }

    /** Asks the scheduler for a worker that was not picked before. */
    method PickDecision(exclude: set<string>, t: Turn, ghost tried: seq<string>, ghost course: Course) returns (r: Option<string>)
      requires At(log, world, multiset{ModelLimit}, tried, course)
      requires course.open.None? && !course.exhausted && exclude == course.picked && t == world.turns(course.picks)
      modifies this`log
      ensures r == Choice(t.pick, world.fleet - exclude)
      ensures At(log, world, multiset{ModelLimit}, tried, After(course, Pick(exclude, r)))
      ensures Answers(log, world) == old(Answers(log, world))
    {
      r := Choice(t.pick, world.fleet - exclude);
      Do(Pick(exclude, r), multiset{ModelLimit}, tried, course);
    }

    /** One turn of the loop: the scheduler picks somebody, who is tried, or nobody. */
    method TakeTurn(exclude: set<string>, turn: nat, ghost tried: seq<string>, ghost course: Course)
      returns (decision: Option<string>, outcome: Outcome, ghost after: Course)
      requires At(log, world, multiset{ModelLimit}, tried, course) && forall w <- tried :: w in exclude
      requires course.open.None? && !course.exhausted && exclude == course.picked && turn == course.picks
      modifies this`log, this`ctxDone
      ensures decision == Choice(world.turns(turn).pick, world.fleet - exclude)
      ensures decision.Some? ==> decision.value in world.fleet - exclude && outcome == OutcomeOf(world.turns(turn))
      ensures decision.None? ==> outcome == Refused
      ensures after == TurnTaken(course, decision, outcome)
      ensures At(log, world, multiset{ModelLimit}, if outcome.Attempted? then tried + [decision.value] else tried, after)
      ensures Answers(log, world) == if outcome.Attempted? then old(Answers(log, world)) + [outcome.attempt] else old(Answers(log, world))
      ensures old(ctxDone) ==> ctxDone
    {
      hide At, Answers, Choice;
      var t := world.turns(turn);
      ChoiceIsLeft(t.pick, world.fleet - exclude);
      decision := PickDecision(exclude, t, tried, course);
      if decision.None? {
        return None, Refused, TurnTaken(course, None, Refused);
      }
      outcome := TryWorker(decision.value, t, tried, After(course, Pick(exclude, decision)));
      after := TurnTaken(course, decision, outcome);
    }

    /**
     Terminates, and stops early only for a final answer, a broken wait, a client that has
     gone, or when the scheduler has nobody left.
     */
    method Loop() returns (end: End, ghost tried: seq<string>, ghost course: Course)
      requires At(log, world, multiset{ModelLimit}, [], START) && Answers(log, world) == []
      modifies this`log, this`ctxDone
      ensures At(log, world, multiset{ModelLimit}, tried, course) && |tried| <= Attempts() && course.open.None?
      ensures EndsRightly(end, tried, Answers(log, world), course.queue) && (end == ClientGone ==> ctxDone)
      ensures GoesOn(end, tried, Answers(log, world), course, Attempts())
    {
      hide At, EndsRightly, Answers, Choice;
      tried, course := [], START;
      var exclude: set<string> := {};
      var failed, queueFull := false, false;
      var dispatchAttempts, turn := 0, 0;
      while dispatchAttempts < proxyAttempts
        invariant exclude == course.picked <= world.fleet && (forall w <- tried :: w in exclude)
        invariant At(log, world, multiset{ModelLimit}, tried, course) && |tried| == |Answers(log, world)| == dispatchAttempts <= Attempts()
        invariant AllRetried(Answers(log, world)) && failed == SomeFailed(Answers(log, world))
        invariant course.queue == (if queueFull then QueueFull else Admitted) && turn == course.picks
        invariant course.open.None? && !course.exhausted
        decreases |world.fleet - exclude|
      {
        ghost var answers := Answers(log, world);
        Tick();
        if ctxDone {
          NoFinalAnswer(ClientGone, tried, answers, course.queue);
          return ClientGone, tried, course;
        }
        var decision, outcome;
        decision, outcome, course := TakeTurn(exclude, turn, tried, course);
        if decision.None? {
          break;
        }
        var w := decision.value;
        assert world.fleet - (exclude + {w}) == world.fleet - exclude - {w};
        exclude, turn := exclude + {w}, turn + 1;
        assert !outcome.Attempted? ==> Answers(log, world) == answers;
        if outcome.Broken? {
          NoFinalAnswer(QueueError, tried, answers, course.queue);
          return QueueError, tried, course;
        }
        if outcome.Full? {
          queueFull := true;
          continue;
        }
        if outcome.Refused? {
          continue;
        }
        LastAnswer(tried, w, answers, outcome.attempt, course.queue);
        tried := tried + [w];
        dispatchAttempts := dispatchAttempts + 1;
        failed := failed || outcome.attempt.failure;
        if outcome.attempt.error && ctxDone {
          return ClientGone, tried, course;
        }
        if outcome.attempt.retry {
          continue;
        }
        return Forwarded(w, dispatchAttempts - 1), tried, course;
      }
      end := if ctxDone then ClientGone else if failed then DispatchFailed else if queueFull then QueueError else NoHealthyWorker;
      NoFinalAnswer(end, tried, Answers(log, world), course.queue);
    }

    function Attempts(): nat {
      if proxyAttempts < 0 then 0 else proxyAttempts
    }

    /**
     Whatever happens, the request ends with nothing held, having tried at most `proxyAttempts`
     workers of the fleet, none twice, each while holding all its permits.
     */
    method HandleModelProxy() returns (end: End)
      requires log == []
      modifies this
      ensures Safe(log, world) && Held(log) == multiset{} && Distinct(Dispatched(log))
      ensures |Dispatched(log)| <= Attempts() && forall w <- Dispatched(log) :: w in world.fleet
      ensures EndsRightly(end, Dispatched(log), Answers(log, world), CourseOf(log).queue) && (end == ClientGone ==> ctxDone)
      ensures CourseOf(log).open.None?
      ensures if world.modelWait != Admitted then CourseOf(log).picks == 0 && end == QueueError
              else GoesOn(end, Dispatched(log), Answers(log, world), CourseOf(log), Attempts())
    {
      assert At(log, world, multiset{}, [], START) && Answers(log, world) == [];
      hide EndsRightly, At, Safe, Held, Dispatched, Distinct, CourseOf, Answers, GoesOn;
      AcquireLimit(ModelLimit, world.modelWait, multiset{}, [], START);
      if world.modelWait != Admitted {
        AtMeans(log, world, multiset{}, [], After(START, Missed(ModelLimit, world.modelWait)));
        NoFinalAnswer(QueueError, [], [], world.modelWait);
        return QueueError;
      }
      ghost var tried: seq<string>, course: Course;
      assert multiset{} + multiset{ModelLimit} == multiset{ModelLimit};
      end, tried, course := Loop();
      GivePermit(ModelLimit, multiset{ModelLimit}, tried, course);
      assert multiset{ModelLimit} - multiset{ModelLimit} == multiset{};
      AtMeans(log, world, multiset{}, tried, course);
    }
  }

  lemma AtMeans(log: seq<Step>, world: World, held: multiset<Permit>, dispatched: seq<string>, course: Course)
    requires At(log, world, held, dispatched, course)
    ensures Safe(log, world) && Held(log) == held && Dispatched(log) == dispatched && Distinct(Dispatched(log))
    ensures CourseOf(log) == course && forall w <- Dispatched(log) :: w in world.fleet
  {
    NeverTwice(log, world);
    OnlyPicked(log, world);
  }

  function TurnTaken(c: Course, decision: Option<string>, outcome: Outcome): Course {
    if decision.None? then c.(picks := c.picks + 1, exhausted := true)
    else c.(picks := c.picks + 1, picked := c.picked + {decision.value}, queue := Worse(c.queue, WaitOf(outcome)))
  }

  lemma ChoiceIsLeft(pick: Option<string>, left: set<string>)
    ensures Choice(pick, left).Some? ==> Choice(pick, left).value in left
  {
  }

  /** With retryable answers only, no broken wait and the client there, it goes on to the last attempt or the last worker. */
  predicate GoesOn(end: End, tried: seq<string>, answers: seq<Attempt>, course: Course, attempts: nat) {
    AllRetried(answers) && course.queue != WaitFailed && end != ClientGone ==> |tried| == attempts || course.exhausted
  }

  /**
   Only a retryable answer is followed by another attempt. A final one is forwarded, unless
   the client has gone. Without one a broken wait is reported; else, unless the client has
   gone, a failed dispatch if there was one, a full queue if there was one, or that no worker
   could be found.
   */
  predicate EndsRightly(end: End, tried: seq<string>, answers: seq<Attempt>, queue: Wait) {
    && |tried| == |answers| && (forall k :: 0 <= k < |answers| - 1 ==> answers[k].retry)
    && if answers != [] && !answers[|answers| - 1].retry then
         && queue != WaitFailed
         && (end == Forwarded(tried[|tried| - 1], |tried| - 1) || (end == ClientGone && answers[|answers| - 1].error))
       else if queue == WaitFailed then end == QueueError
       else end == ClientGone || end == WithoutAnswer(SomeFailed(answers), queue)
  }

  function WithoutAnswer(failed: bool, queue: Wait): End {
    if failed then DispatchFailed else if queue == Admitted then NoHealthyWorker else QueueError
  }

  predicate AllRetried(answers: seq<Attempt>) {
    forall k :: 0 <= k < |answers| ==> answers[k].retry
  }

  predicate SomeFailed(answers: seq<Attempt>) {
    exists k :: 0 <= k < |answers| && answers[k].failure
  }

  lemma NoFinalAnswer(end: End, tried: seq<string>, answers: seq<Attempt>, queue: Wait)
    requires |tried| == |answers| && AllRetried(answers)
    requires if queue == WaitFailed then end == QueueError else end == ClientGone || end == WithoutAnswer(SomeFailed(answers), queue)
    ensures EndsRightly(end, tried, answers, queue)
  {
  }

  lemma LastAnswer(tried: seq<string>, w: string, answers: seq<Attempt>, a: Attempt, queue: Wait)
    requires |tried| == |answers| && AllRetried(answers) && queue != WaitFailed
    ensures SomeFailed(answers + [a]) == (SomeFailed(answers) || a.failure) && AllRetried(answers + [a]) == a.retry
    ensures !a.retry ==> EndsRightly(Forwarded(w, |answers|), tried + [w], answers + [a], queue)
    ensures a.error ==> EndsRightly(ClientGone, tried + [w], answers + [a], queue)
  {
    var more := answers + [a];
    assert more[|answers|] == a && forall k :: 0 <= k < |answers| ==> more[k] == answers[k];
  }

  datatype Outcome = Full | Broken | Refused | Attempted(attempt: Attempt)

  function OutcomeOf(t: Turn): Outcome {
    if t.tagWait != Admitted then (if t.tagWait == QueueFull then Full else Broken)
    else if t.workerWait != Admitted then (if t.workerWait == QueueFull then Full else Broken)
    else if !t.admitted then Refused else Attempted(t.attempt)
  }

  function WaitOf(outcome: Outcome): Wait {
    match outcome
    case Full => QueueFull
    case Broken => WaitFailed
    case _ => Admitted
  }

  /** All that is held during an attempt. */
  function Inside(w: string, tag: string): multiset<Permit> {
    multiset{ModelLimit, TagLimit(tag), WorkerModelLimit(w), RegistryCount(w), AccountingEntry(w), MetricsCount(w)}
  }

  lemma Layers(w: string, tag: string)
    ensures multiset{ModelLimit} + multiset{TagLimit(tag)} - multiset{TagLimit(tag)} == multiset{ModelLimit}
    ensures multiset{ModelLimit} + multiset{TagLimit(tag)} + multiset{WorkerModelLimit(w)} - multiset{WorkerModelLimit(w)}
            == multiset{ModelLimit} + multiset{TagLimit(tag)}
    ensures multiset{ModelLimit} + multiset{TagLimit(tag)} + multiset{WorkerModelLimit(w)} + multiset{RegistryCount(w)}
            + multiset{AccountingEntry(w)} + multiset{MetricsCount(w)} == Inside(w, tag)
  {
  }

  // ----- What a log without anything held means -----

  function Taken(log: seq<Step>, p: Permit): nat {
    if log == [] then 0 else Taken(log[..|log| - 1], p) + if log[|log| - 1] == Take(p) then 1 else 0
  }

  function Given(log: seq<Step>, p: Permit): nat {
    if log == [] then 0 else Given(log[..|log| - 1], p) + if log[|log| - 1] == Give(p) then 1 else 0
  }

  lemma {:induction false} HeldIsTheRest(log: seq<Step>, world: World, p: Permit)
    requires Safe(log, world)
    ensures Held(log)[p] + Given(log, p) == Taken(log, p)
    decreases |log|
  {
    if log != [] {
      HeldIsTheRest(log[..|log| - 1], world, p);
    }
  }

  /** So each counter gets back exactly what the request took from it. */
  lemma NothingLeft(log: seq<Step>, world: World, p: Permit)
    requires Safe(log, world) && Held(log) == multiset{}
    ensures Given(log, p) == Taken(log, p)
  {
    HeldIsTheRest(log, world, p);
  }
}
