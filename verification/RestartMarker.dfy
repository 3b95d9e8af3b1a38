/**
 The agent's restart-pending marker (`internal/agent/reconcile.go`).

 A model server keeps running from the entry it was started from. `ManagedHost` is the disk,
 the volatile state of one agent and the running models. A cycle is made of stretches, one
 method each, in which the agent touches the disk at most as its outcomes say, so a crash at
 any point is a failed outcome followed by `Crash`. Models start and stop between any two
 stretches. A model starts from the entry on disk, which the server watches.

 `ReconcileRunOnce` is proved to be a sequence of events in the order of its script, and what
 such sequences keep is proved about `Run`.
 */
module RestartMarkers {

  import opened Basics

  /** `rest` stands for the settings outside models and API keys. */
  datatype SwapConfig = SwapConfig(models: map<string, string>, apiKey: string, rest: string)

  datatype File = Absent | Unparsable(text: string) | Parsed(cfg: SwapConfig)

  /** How the disk answers during one write; a marking that fails may leave the marker behind. */
  datatype Io = Io(readOk: bool, tempOk: bool, markOk: bool, markLeft: bool, renameOk: bool)

  datatype Written = Written(changed: bool, affected: set<string>, ok: bool)

  /** Where the agent is in its cycle; `models` are the restart-relevant running models it saw. */
  datatype Phase = Idle | Looked(models: set<string>) | Granted | ReadyToRestart | Restarted

  datatype Host = Host(
    config: File, marker: bool, running: map<string, Option<string>>,
    phase: Phase, needsRestart: bool, pending: Option<SwapConfig>)

  function Entry(file: File, model: string): Option<string> {
    if file.Parsed? && model in file.cfg.models then Some(file.cfg.models[model]) else None
  }

  // ----- Writing the configuration -----

  /** The running models whose entry the content changes; all of them if the old file cannot be read. */
  function Affected(file: File, content: SwapConfig, running: set<string>): set<string> {
    if file.Unparsable? then running
    else set m <- running | Entry(file, m) != Entry(Parsed(content), m)
  }

  predicate WriteOk(io: Io) {
    io.readOk && io.tempOk && io.renameOk
  }

  function AfterPlainWrite(file: File, content: SwapConfig, io: Io): File {
    if WriteOk(io) then Parsed(content) else file
  }

  /** File, marker and result of writing a rendered configuration while models run. */
  function AfterWrite(file: File, marker: bool, content: SwapConfig, running: set<string>, io: Io): (File, bool,
                      Written) {
    if !io.readOk then (file, marker, Written(false, {}, false))
    else if file == Parsed(content) then (file, marker, Written(false, {}, true))
    else if file.Absent? then
      if !io.tempOk then (file, marker, Written(false, {}, false))
      else if !io.markOk then (file, marker || io.markLeft, Written(false, {}, false))
      else if !io.renameOk then (file, true, Written(false, {}, false))
      else (Parsed(content), true, Written(true, {""}, true))
    else if running != {} then
      var affected := Affected(file, content, running);
      if affected == {} then (file, marker, Written(false, {}, true))
      else if !io.markOk then (file, marker || io.markLeft, Written(false, {}, false))
      else (file, true, Written(false, affected, true))
    else
      var after := AfterPlainWrite(file, content, io);
      (after, marker, Written(after != file, {}, after != file))
  }

  /** Only the API key, or an empty configuration where there is none. */
  function WithApiKey(file: File, token: string, rest: string): Option<SwapConfig> {
    match file
    case Absent => Some(SwapConfig(map[], token, rest))
    case Unparsable(_) => None
    case Parsed(cfg) => Some(cfg.(apiKey := token))
  }

  class ManagedHost {
    var config: File
    var marker: bool
    var running: map<string, Option<string>>
    var phase: Phase
    var needsRestart: bool
    var pending: Option<SwapConfig>

    ghost function Value(): Host
      reads this
    {
      Host(config, marker, running, phase, needsRestart, pending)
    }

    constructor (config: File, marker: bool)
      ensures Value() == Host(config, marker, map[], Idle, false, None)
    {
      this.config, this.marker, running, phase, needsRestart, pending := config, marker, map[], Idle, false, None;
    }

    /** A write that fails may still have created the file. */
    method MarkPendingRestart(io: Io)
      modifies this`marker
      ensures marker == (old(marker) || io.markOk || io.markLeft)
    {
      if io.markOk || io.markLeft {
        marker := true;
      }
    }

    method WriteConfigIfChangedWithoutMarkingPending(content: SwapConfig, io: Io) returns (changed: bool, ok: bool)
      modifies this`config
      ensures config == if old(config) == Parsed(content) then old(config) else AfterPlainWrite(old(config), content, io)
      ensures changed == (config != old(config)) && ok == (io.readOk && config == Parsed(content))
    {
      if !io.readOk {
        return false, false;
      }
      if config == Parsed(content) {
        return false, true;
      }
      if !io.tempOk || !io.renameOk {
        return false, false;
      }
      config := Parsed(content);
      return true, true;
    }

    method WriteConfigIfChangedAndMarkPending(content: SwapConfig, io: Io) returns (changed: bool, ok: bool)
      modifies this`config, this`marker
      ensures old(config).Absent? ==>
                (config, marker, Written(changed, if changed
                    then {""} else {}, ok)) == AfterWrite(old(config), old(marker), content, {}, io)
      ensures config != old(config) ==> marker
    {
      if !io.readOk {
        return false, false;
      }
      if config == Parsed(content) {
        return false, true;
      }
      if !io.tempOk {
        return false, false;
      }
      MarkPendingRestart(io);
      if !io.markOk {
        return false, false;
      }
      if !io.renameOk {
        return false, false;
      }
      config := Parsed(content);
      return true, true;
    }

    /** With a restart-relevant model running the new content waits for a granted restart. */
    method WriteForRunningModels(content: SwapConfig, runningModels: set<string>, io: Io) returns (r: Written)
      modifies this`config, this`marker
      ensures (config, marker, r) == AfterWrite(old(config), old(marker), content, runningModels, io)
    {
      if !io.readOk {
        return Written(false, {}, false);
      }
      if config == Parsed(content) {
        return Written(false, {}, true);
      }
      var changed: bool, ok: bool;
      if config.Absent? {
        changed, ok := WriteConfigIfChangedAndMarkPending(content, io);
        return Written(changed, if changed then {""} else {}, ok);
      }
      var affected := Affected(config, content, runningModels);
      if runningModels != {} {
        if affected != {} {
          MarkPendingRestart(io);
          if !io.markOk {
            return Written(false, {}, false);
          }
          return Written(false, affected, true);
        }
        return Written(false, {}, true);
      }
      changed, ok := WriteConfigIfChangedWithoutMarkingPending(content, io);
      return Written(changed, {}, ok);
    }

    // ----- The stretches of a cycle -----

    /** A marker left on disk makes this cycle ask for a restart. */
    method BeginCycle(statOk: bool)
      requires phase.Idle?
      modifies this`needsRestart, this`pending
      ensures Value() == Next(old(Value()), Begin(statOk))
      ensures needsRestart == (old(needsRestart) || (statOk && marker))
    {
      if statOk && marker {
        needsRestart := true;
      }
      pending := None;
    }

    method FetchRunningModels(ok: bool)
      requires phase.Idle?
      modifies this`phase
      ensures Value() == Next(old(Value()), Fetch(ok))
      ensures phase == if ok then Looked(running.Keys) else Idle
    {
      if ok {
        phase := Looked(running.Keys);
      }
    }

    method WriteRendered(content: SwapConfig, io: Io)
      requires phase.Looked?
      modifies this`config, this`marker, this`needsRestart, this`pending
      ensures (old(marker) ==> marker) && (old(needsRestart) ==> needsRestart)
      ensures ChangesSeen(old(config), content, phase.models) && io.readOk && io.markOk ==>
                config == old(config) && marker && needsRestart && pending == Some(content)
      ensures Value() == Next(old(Value()), Render(content, io))
    {
      ChangesAffect(config, content, phase.models);
      var r := WriteForRunningModels(content, phase.models, io);
      if r.affected != {} {
        needsRestart := true;
        pending := Some(content);
      }
    }

    /** A cycle whose replacement artifacts are not ready reports, but does not ask for a restart. */
    method Heartbeat(blocked: bool, restartAllowed: bool)
      requires phase.Looked?
      modifies this`phase
      ensures Value() == Next(old(Value()), Beat(blocked, restartAllowed))
      ensures phase == if restartAllowed && needsRestart && !blocked then Granted else Idle
    {
      phase := if restartAllowed && needsRestart && !blocked then Granted else Idle;
    }

    method WritePending(io: Io) returns (ok: bool)
      requires phase.Granted?
      modifies this`config, this`phase
      ensures Value() == Next(old(Value()), PutPending(io))
      ensures phase == if ok then ReadyToRestart else Idle
      ensures WriteOk(io) ==> ok
      ensures ok && pending.Some? ==> config == Parsed(pending.value)
    {
      if pending.Some? {
        var changed, written := WriteConfigIfChangedWithoutMarkingPending(pending.value, io);
        if !written {
          phase := Idle;
          return false;
        }
      }
      phase := ReadyToRestart;
      return true;
    }

    /** A restart stops every model; one that fails may have stopped some. */
    method RestartService(ok: bool, survivors: set<string>)
      requires phase.ReadyToRestart?
      modifies this`running, this`phase
      ensures Value() == Next(old(Value()), Restart(ok, survivors))
      ensures phase == if ok then Restarted else Idle
    {
      if !ok {
        running := map m | m in running && m in survivors :: running[m];
        phase := Idle;
        return;
      }
      running := map[];
      phase := Restarted;
    }

    method VerifyAndClear(verifyOk: bool, removeOk: bool)
      requires phase.Restarted?
      modifies this`marker, this`needsRestart, this`pending, this`phase
      ensures Value() == Next(old(Value()), Verify(verifyOk, removeOk))
      ensures phase == Idle
      ensures if verifyOk && removeOk then !marker && !needsRestart
              else marker == old(marker) && needsRestart == old(needsRestart)
    {
      phase := Idle;
      if !verifyOk || !removeOk {
        return;
      }
      marker := false;
      needsRestart := false;
      pending := None;
    }

    // ----- One cycle -----

    /** Models start and stop, any number of them. */
    method ModelsComeAndGo(ghost start: Host, ghost evs: seq<Event>, ghost own: seq<Event>) returns (ghost now: seq<Event>)
      requires Came(Value(), start, evs, own)
      modifies this`running
      ensures Came(Value(), start, now, own) && evs <= now
    {
      now := evs;
      var n: int := *;
      while n > 0
        invariant Came(Value(), start, now, own) && evs <= now
      {
        n := n - 1;
        var model: string := *;
        ghost var e := if model in running then Stop(model) else Start(model);
        OneMore(start, now, e);
        now := now + [e];
        if model in running {
          running := running - {model};
        } else {
          running := running[model := Entry(config, model)];
        }
      }
    }

    /**
     One reconcile cycle, as the events `evs`: the agent's own are its script, as far as that
     goes. No restart is asked for where it is not known what runs or a replacement is not ready.
     */
    method ReconcileRunOnce(c: Cycle) returns (restarted: bool, ghost evs: seq<Event>, ghost seen: set<string>)
      requires phase.Idle?
      modifies this
      ensures Value() == Run(old(Value()), evs) && Follows(old(Value()), evs, c)
      ensures restarted <==> Own(evs) == Script(c) && GoesThrough(c)
      ensures restarted ==> !marker && !needsRestart
      ensures !restarted && old(marker) ==> marker && (c.statOk ==> needsRestart)
      ensures old(marker) && c.statOk && GoesThrough(c) && WriteOk(c.pendingIo) ==> restarted
      ensures Reports(c) ==> SeenIn(old(Value()), evs, seen)
      ensures Delivers(c) && ChangesSeen(old(config), c.content.value, seen) ==> restarted && config == Parsed(c.content.value)
    {
      hide Run, Own, Feasible, Next, ChangesSeen, SeenIn;
      ghost var start, n := Value(), 0;
      var known, granted: bool;
      known, evs, seen := LookOnce(c);
      if !known {
        return false, evs, seen;
      }
      ghost var looked := evs;
      granted, evs := ReportOnce(c, start, evs);
      SeenStays(start, looked, evs, seen);
      if !granted {
        return false, evs, seen;
      }
      looked := evs;
      restarted, evs, n := RestartOnce(c, start, evs, LookScript(c) + ReportScript(c));
      SeenStays(start, looked, evs, seen);
      assert LookScript(c) + ReportScript(c) + RestartScript(c)[..n] == Script(c)[..|LookScript(c)| + |ReportScript(c)| + n];
    }

    /** The first part of a cycle: is a restart due, and what runs? */
    method LookOnce(c: Cycle) returns (known: bool, ghost evs: seq<Event>, ghost seen: set<string>)
      requires phase.Idle?
      modifies this
      ensures known ==> phase == Looked(seen) && SeenIn(old(Value()), evs, seen)
      ensures config == old(config)
      ensures Came(Value(), old(Value()), evs, LookScript(c))
      ensures known == Reports(c) && if known then phase.Looked? else phase.Idle?
      ensures marker == old(marker) && needsRestart == (old(needsRestart) || (c.statOk && marker))
    {
      ghost var start := Value();
      assert Came(start, start, [], []);
      hide Came, Next, SeenIn;
      CameMore(start, start, [], [], Begin(c.statOk));
      BeginCycle(c.statOk);
      evs := ModelsComeAndGo(start, [] + [Begin(c.statOk)], [] + [Begin(c.statOk)]);
      if !c.configOk || !c.transportReady {
        return false, evs, {};
      }
      seen := running.Keys;
      SeenNow(start, evs, Value());
      CameMore(Value(), start, evs, [Begin(c.statOk)], Fetch(c.fetchOk));
      FetchRunningModels(c.fetchOk);
      ghost var looked := evs + [Fetch(c.fetchOk)];
      evs := ModelsComeAndGo(start, looked, [Begin(c.statOk)] + [Fetch(c.fetchOk)]);
      if c.fetchOk {
        SeenStays(start, looked, evs, seen);
      }
      return c.fetchOk, evs, seen;
    }

    /** The second part: renders what is ready, unless a running model waits for its replacement, and reports. */
    method ReportOnce(c: Cycle, ghost start: Host, ghost before: seq<Event>) returns (granted: bool, ghost evs: seq<Event>)
      requires phase.Looked? && Came(Value(), start, before, LookScript(c))
      modifies this
      ensures Came(Value(), start, evs, LookScript(c) + ReportScript(c))
      ensures granted == (!c.blocked && c.beatOk && c.restartAllowed && needsRestart)
      ensures if granted then phase.Granted? else phase.Idle?
      ensures (old(marker) ==> marker) && (old(needsRestart) ==> needsRestart) && before <= evs
      ensures Renders(c) && c.writeIo.readOk && c.writeIo.markOk ==>
                (ChangesSeen(old(config), c.content.value, old(phase.models)) ==> needsRestart && pending == c.content)
    {
      hide Came, Next, LookScript, ChangesSeen;
      ghost var own := LookScript(c);
      evs := before;
      if Renders(c) {
        CameMore(Value(), start, evs, own, Render(c.content.value, c.writeIo));
        WriteRendered(c.content.value, c.writeIo);
        own := own + [Render(c.content.value, c.writeIo)];
        evs := ModelsComeAndGo(start, evs + [Render(c.content.value, c.writeIo)], own);
      }
      assert own + [BeatEvent(c)] == LookScript(c) + ReportScript(c);
      var asks := needsRestart && !c.blocked;
      CameMore(Value(), start, evs, own, BeatEvent(c));
      Heartbeat(c.blocked, c.beatOk && c.restartAllowed);
      evs := ModelsComeAndGo(start, evs + [BeatEvent(c)], own + [BeatEvent(c)]);
      return c.beatOk && c.restartAllowed && asks, evs;
    }

    /** The granted part of a cycle; `n` is how far it got. */
    method RestartOnce(c: Cycle, ghost start: Host, ghost before: seq<Event>, ghost own: seq<Event>)
      returns (restarted: bool, ghost evs: seq<Event>, ghost n: nat)
      requires phase.Granted? && Came(Value(), start, before, own)
      modifies this
      ensures phase.Idle? && 0 < n <= 3 && Came(Value(), start, evs, own + RestartScript(c)[..n])
      ensures n < 3 ==> !Enabled(Value(), RestartScript(c)[n])
      ensures restarted <==> n == 3 && c.restartOk && c.verifyOk && c.removeOk
      ensures n == 3 ==> c.restartOk
      ensures WriteOk(c.pendingIo) && c.restartOk ==> n == 3
      ensures before <= evs && (n > 1 && old(pending).Some? ==> config == Parsed(old(pending).value))
      ensures if restarted then !marker && !needsRestart else marker == old(marker) && needsRestart == old(needsRestart)
    {
      ScriptParts(c, own);
      hide Came, Next, RestartScript;
      CameMore(Value(), start, before, own, PutPending(c.pendingIo));
      var ok := WritePending(c.pendingIo);
      evs := before + [PutPending(c.pendingIo)];
      if !ok {
        return false, evs, 1;
      }
      evs := ModelsComeAndGo(start, evs, own + RestartScript(c)[..1]);
      CameMore(Value(), start, evs, own + RestartScript(c)[..1], RestartEvent(c));
      RestartService(c.restartOk, c.survivors);
      evs := evs + [RestartEvent(c)];
      if !c.restartOk {
        return false, evs, 2;
      }
      evs := ModelsComeAndGo(start, evs, own + RestartScript(c)[..2]);
      CameMore(Value(), start, evs, own + RestartScript(c)[..2], Verify(c.verifyOk, c.removeOk));
      VerifyAndClear(c.verifyOk, c.removeOk);
      evs := evs + [Verify(c.verifyOk, c.removeOk)];
      return c.verifyOk && c.removeOk, evs, 3;
    }

    /** Puts the gateway's API key into the file, then restarts if the key is not enforced yet and the gateway agrees. */
    method PrepareManagedTransport(token: string, rest: string, io: Io, enforced: bool, restartAllowed: bool,
                                   restartOk: bool, survivors: set<string>)
      requires phase.Idle?
      modifies this
      ensures Value() == AfterPrepare(old(Value()), token, rest, io, enforced, restartAllowed, restartOk, survivors)
    {
      if Blank(token) || !io.readOk {
        return;
      }
      var content := WithApiKey(config, token, rest);
      if content.None? {
        return;
      }
      var _, ok := WriteConfigIfChangedWithoutMarkingPending(content.value, io);
      if !ok || enforced || !restartAllowed {
        return;
      }
      running := if restartOk then map[] else map m | m in running && m in survivors :: running[m];
    }
  }

  // ----- The same as functions -----

  function AfterBegin(h: Host, statOk: bool): Host {
    h.(needsRestart := h.needsRestart || (statOk && h.marker), pending := None)
  }

  function AfterFetch(h: Host, ok: bool): Host {
    if ok then h.(phase := Looked(h.running.Keys)) else h
  }

  function AfterRendered(h: Host, content: SwapConfig, io: Io): Host
    requires h.phase.Looked?
  {
    var (config, marker, r) := AfterWrite(h.config, h.marker, content, h.phase.models, io);
    h.(config := config, marker := marker, needsRestart := h.needsRestart || r.affected != {},
       pending := if r.affected != {} then Some(content) else h.pending)
  }

  function AfterHeartbeat(h: Host, blocked: bool, restartAllowed: bool): Host {
    h.(phase := if restartAllowed && h.needsRestart && !blocked then Granted else Idle)
  }

  function AfterPending(h: Host, io: Io): Host {
    if h.pending.None? then h.(phase := ReadyToRestart)
    else
      var config := if h.config == Parsed(h.pending.value) then h.config else AfterPlainWrite(h.config, h.pending.value, io);
      h.(config := config, phase := if io.readOk && config == Parsed(h.pending.value) then ReadyToRestart else Idle)
  }

  function Survivors(running: map<string, Option<string>>, survivors: set<string>): map<string, Option<string>> {
    map m | m in running && m in survivors :: running[m]
  }

  function AfterRestart(h: Host, ok: bool, survivors: set<string>): Host {
    h.(running := if ok then map[] else Survivors(h.running, survivors), phase := if ok then Restarted else Idle)
  }

  function AfterVerify(h: Host, verifyOk: bool, removeOk: bool): Host {
    if verifyOk && removeOk then h.(phase := Idle, marker := false, needsRestart := false, pending := None) else h.(phase := Idle)
  }

  function AfterPrepare(h: Host, token: string, rest: string, io: Io, enforced: bool, restartAllowed: bool,
                        restartOk: bool, survivors: set<string>): Host {
    var content := WithApiKey(h.config, token, rest);
    if Blank(token) || !io.readOk || content.None? then h
    else
      var config := if h.config == Parsed(content.value) then h.config else AfterPlainWrite(h.config, content.value, io);
      if config != Parsed(content.value) || enforced || !restartAllowed then h.(config := config)
      else h.(config := config, running := if restartOk then map[] else Survivors(h.running, survivors))
  }

  // ----- Runs -----

  datatype Event =
    | Begin(statOk: bool)
    | Fetch(ok: bool)
    | Render(content: SwapConfig, io: Io)
    | Beat(blocked: bool, restartAllowed: bool)
    | PutPending(io: Io)
    | Restart(ok: bool, survivors: set<string>)
    | Verify(verifyOk: bool, removeOk: bool)
    | Prepare(token: string, rest: string, io: Io, enforced: bool, restartAllowed: bool, ok: bool, survivors: set<string>)
    | Start(model: string)
    | Stop(model: string)
    | Crash

  /** A model starts or stops. */
  predicate Moves(e: Event) {
    e.Start? || e.Stop?
  }

  predicate Enabled(h: Host, e: Event) {
    match e
    case Begin(_) => h.phase.Idle?
    case Fetch(_) => h.phase.Idle?
    case Render(_, _) => h.phase.Looked?
    case Beat(_, _) => h.phase.Looked?
    case PutPending(_) => h.phase.Granted?
    case Restart(_, _) => h.phase.ReadyToRestart?
    case Verify(_, _) => h.phase.Restarted?
    case Prepare(_, _, _, _, _, _, _) => h.phase.Idle?
    case Start(model) => model !in h.running
    case Stop(_) => true
    case Crash => true
  }

  function Next(h: Host, e: Event): Host {
    if !Enabled(h, e) then h
    else
      match e
      case Begin(statOk) => AfterBegin(h, statOk)
      case Fetch(ok) => AfterFetch(h, ok)
      case Render(content, io) => AfterRendered(h, content, io)
      case Beat(blocked, restartAllowed) => AfterHeartbeat(h, blocked, restartAllowed)
      case PutPending(io) => AfterPending(h, io)
      case Restart(ok, survivors) => AfterRestart(h, ok, survivors)
      case Verify(verifyOk, removeOk) => AfterVerify(h, verifyOk, removeOk)
      case Prepare(token, rest, io, enforced, restartAllowed, ok, survivors) =>
        AfterPrepare(h, token, rest, io, enforced, restartAllowed, ok, survivors)
      case Start(model) => h.(running := h.running[model := Entry(h.config, model)])
      case Stop(model) => h.(running := h.running - {model})
      case Crash => h.(phase := Idle, needsRestart := false, pending := None)
  }

  function Last(evs: seq<Event>): Event
    requires evs != []
  {
    evs[|evs| - 1]
  }

  function Front(evs: seq<Event>): seq<Event>
    requires evs != []
  {
    evs[..|evs| - 1]
  }

  function Run(h: Host, evs: seq<Event>): Host {
    if evs == [] then h else Next(Run(h, Front(evs)), Last(evs))
  }

  /** The host came from `start` by feasible events, the agent's own being `own`. */
  predicate Came(h: Host, start: Host, evs: seq<Event>, own: seq<Event>) {
    h == Run(start, evs) && Feasible(start, evs) && Own(evs) == own
  }

  lemma CameMore(h: Host, start: Host, evs: seq<Event>, own: seq<Event>, e: Event)
    requires Came(h, start, evs, own) && Enabled(h, e) && !Moves(e)
    ensures Came(Next(h, e), start, evs + [e], own + [e])
  {
    hide Next, Enabled;
    OneMore(start, evs, e);
  }

  lemma OneMore(h: Host, evs: seq<Event>, e: Event)
    requires Feasible(h, evs) && Enabled(Run(h, evs), e)
    ensures Run(h, evs + [e]) == Next(Run(h, evs), e) && Feasible(h, evs + [e])
    ensures Own(evs + [e]) == if e.Start? || e.Stop? then Own(evs) else Own(evs) + [e]
  {
    assert Front(evs + [e]) == evs;
  }

  /** Every event could happen when it did. */
  predicate Feasible(h: Host, evs: seq<Event>) {
    evs != [] ==> Feasible(h, Front(evs)) && Enabled(Run(h, Front(evs)), Last(evs))
  }

  /** The agent's own events. */
  function Own(evs: seq<Event>): seq<Event> {
    if evs == [] then []
    else if Moves(Last(evs)) then Own(Front(evs))
    else Own(Front(evs)) + [Last(evs)]
  }

  // ----- What one cycle does -----

  /** The answers of one cycle; no content when no artifact is ready or rendering failed. */
  datatype Cycle = Cycle(
    statOk: bool, configOk: bool, transportReady: bool, fetchOk: bool, blocked: bool, content: Option<SwapConfig>,
    writeIo: Io, beatOk: bool, restartAllowed: bool, pendingIo: Io, restartOk: bool, survivors: set<string>,
    verifyOk: bool, removeOk: bool)

  function BeatEvent(c: Cycle): Event {
    Beat(c.blocked, c.beatOk && c.restartAllowed)
  }

  function RestartEvent(c: Cycle): Event {
    Restart(c.restartOk, c.survivors)
  }

  function RestartScript(c: Cycle): seq<Event> {
    [PutPending(c.pendingIo), RestartEvent(c), Verify(c.verifyOk, c.removeOk)]
  }

  lemma ScriptParts(c: Cycle, own: seq<Event>)
    ensures |RestartScript(c)| == 3 && RestartScript(c)[1] == RestartEvent(c) && RestartScript(c)[2] == Verify(c.verifyOk, c.removeOk)
    ensures own + RestartScript(c)[..1] == own + [PutPending(c.pendingIo)]
    ensures own + RestartScript(c)[..2] == own + RestartScript(c)[..1] + [RestartEvent(c)]
    ensures own + RestartScript(c)[..3] == own + RestartScript(c)[..2] + [Verify(c.verifyOk, c.removeOk)]
  {
  }

  /** It is known what runs. */
  predicate Reports(c: Cycle) {
    c.configOk && c.transportReady && c.fetchOk
  }

  predicate Renders(c: Cycle) {
    c.content.Some? && !c.blocked
  }

  function LookScript(c: Cycle): seq<Event> {
    [Begin(c.statOk)] + if c.configOk && c.transportReady then [Fetch(c.fetchOk)] else []
  }

  function ReportScript(c: Cycle): seq<Event> {
    (if Renders(c) then [Render(c.content.value, c.writeIo)] else []) + [BeatEvent(c)]
  }

  /** What the agent does in a cycle in which nothing stops it. */
  function Script(c: Cycle): seq<Event> {
    if Reports(c) then LookScript(c) + ReportScript(c) + RestartScript(c) else LookScript(c)
  }

  /** As much of the script as the host lets happen, and back to idle. */
  predicate Follows(start: Host, evs: seq<Event>, c: Cycle) {
    var end, done := Run(start, evs), Own(evs);
    && Feasible(start, evs) && end.phase.Idle? && done <= Script(c)
    && (|done| < |Script(c)| ==> !Enabled(end, Script(c)[|done|]))
  }

  /** The look of the run saw exactly these models running. */
  ghost predicate SeenIn(start: Host, evs: seq<Event>, seen: set<string>) {
    exists k :: 0 <= k < |evs| && evs[k] == Fetch(true) && Run(start, evs[..k]).running.Keys == seen
  }

  lemma SeenNow(start: Host, evs: seq<Event>, h: Host)
    requires h == Run(start, evs)
    ensures SeenIn(start, evs + [Fetch(true)], h.running.Keys)
  {
    assert (evs + [Fetch(true)])[..|evs|] == evs;
  }

  lemma SeenStays(start: Host, evs: seq<Event>, more: seq<Event>, seen: set<string>)
    requires SeenIn(start, evs, seen) && evs <= more
    ensures SeenIn(start, more, seen)
  {
    var k :| 0 <= k < |evs| && evs[k] == Fetch(true) && Run(start, evs[..k]).running.Keys == seen;
    assert more[..k] == evs[..k];
  }

  /** Content that changes the entry of a model that was seen running, in a file that is in place. */
  predicate ChangesSeen(file: File, content: SwapConfig, seen: set<string>) {
    file.Parsed? && exists m <- seen :: Entry(file, m) != Entry(Parsed(content), m)
  }

  lemma ChangesAffect(file: File, content: SwapConfig, seen: set<string>)
    ensures ChangesSeen(file, content, seen) ==> Affected(file, content, seen) != {} && file != Parsed(content)
  {
    if ChangesSeen(file, content, seen) {
      var m :| m in seen && Entry(file, m) != Entry(Parsed(content), m);
      assert m in Affected(file, content, seen);
    }
  }

  /** A cycle with content in which every step succeeds. */
  predicate Delivers(c: Cycle) {
    GoesThrough(c) && c.content.Some? && c.writeIo.readOk && c.writeIo.markOk && WriteOk(c.pendingIo)
  }

  predicate GoesThrough(c: Cycle) {
    && Reports(c) && !c.blocked && c.beatOk && c.restartAllowed
    && c.restartOk && c.verifyOk && c.removeOk
  }
}
