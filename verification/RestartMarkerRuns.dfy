/**
 What the restart marker records, when it goes, when models change, and when the service is
 restarted, over every run of an agent, crashes included.
 */
module RestartMarkerRuns {

  import opened Basics
  import opened RestartMarkers

  // ----- Outdated models are on record -----

  predicate UpToDate(h: Host) {
    forall m <- h.running :: Entry(h.config, m) == h.running[m]
  }

  /** A model that no longer runs from its entry on disk is on record. */
  predicate Recorded(h: Host) {
    UpToDate(h) || h.marker
  }

  predicate Inv(h: Host) {
    Recorded(h) && (h.pending.Some? ==> h.marker) && (h.phase.Restarted? ==> UpToDate(h))
  }

  /** A rendering replaces an existing file without marking, because no running model was seen. */
  predicate UnmarkedWrite(h: Host, e: Event) {
    && e.Render? && Enabled(h, e) && h.phase.models == {} && !h.config.Absent?
    && h.config != Parsed(e.content) && e.io.readOk && e.io.tempOk && e.io.renameOk
  }

  /** The write meets a model that was not seen, because it started after the look, and that it changes. */
  predicate HitsUnseen(h: Host, e: Event) {
    UnmarkedWrite(h, e) && !h.marker && exists m <- h.running :: Entry(Parsed(e.content), m) != h.running[m]
  }

  /** The record is kept by every step but exactly those. */
  lemma StepKeepsExactly(h: Host, e: Event)
    requires Inv(h)
    ensures Inv(Next(h, e)) <==> !HitsUnseen(h, e)
  {
    var t := Next(h, e);
    if Enabled(h, e) {
      match e
      case Render(content, io) => RenderKeepsExactly(h, content, io);
      case Start(model) =>
      case Stop(model) =>
      case Prepare(token, rest, io, enforced, restartAllowed, ok, survivors) =>
        assert forall m: string :: Entry(t.config, m) == Entry(h.config, m);
      case _ =>
    }
  }

  lemma RenderKeepsExactly(h: Host, content: SwapConfig, io: Io)
    requires Inv(h) && h.phase.Looked?
    ensures Inv(AfterRendered(h, content, io)) <==> !HitsUnseen(h, Render(content, io))
  {
  }

  /** One run after another is a run. */
  lemma {:induction false} RunsCompose(h: Host, a: seq<Event>, b: seq<Event>)
    requires Feasible(h, a) && Feasible(Run(h, a), b)
    ensures Run(h, a + b) == Run(Run(h, a), b) && Feasible(h, a + b)
  {
    if b == [] {
      assert a + b == a;
    } else {
      RunsCompose(h, a, Front(b));
      assert Front(a + b) == a + Front(b);
    }
  }

  /** Nothing that runs when a configuration is rendered has started since the look. */
  predicate Unraced(h: Host, evs: seq<Event>) {
    evs != [] ==>
      && Unraced(h, Front(evs))
      && var t := Run(h, Front(evs)); Last(evs).Render? && t.phase.Looked? ==> t.running.Keys <= t.phase.models
  }

  /** At every crash point of such a run a model that does not run from its entry on disk is on record. */
  lemma {:induction false} RecordedOverRuns(h: Host, evs: seq<Event>)
    requires Inv(h) && Unraced(h, evs)
    ensures Inv(Run(h, evs)) && Recorded(Run(h, evs))
    decreases |evs|
  {
    if evs != [] {
      RecordedOverRuns(h, Front(evs));
      StepKeepsExactly(Run(h, Front(evs)), Last(evs));
    }
  }

  /** A model that starts between the look and the write goes unrecorded. */
  lemma RacedExample(a: SwapConfig, b: SwapConfig)
    requires "chat" in a.models && "chat" in b.models && a.models["chat"] != b.models["chat"]
    ensures var h := Host(Parsed(a), false, map[], Idle, false, None);
            var t := Run(h, [Fetch(true), Start("chat"), Render(b, Io(true, true, true, false, true))]);
            Inv(h) && !Recorded(t) && t.config == Parsed(b) && t.running == map["chat" := Some(a.models["chat"])]
  {
    var h := Host(Parsed(a), false, map[], Idle, false, None);
    var e1, e2, e3 := Fetch(true), Start("chat"), Render(b, Io(true, true, true, false, true));
    assert Front([e1, e2, e3]) == [e1, e2] && Front([e1, e2]) == [e1] && Front([e1]) == [];
    var h1 := Next(h, e1);
    var h2 := Next(h1, e2);
    var h3 := Next(h2, e3);
    assert Run(h, []) == h;
    assert Run(h, [e1]) == h1;
    assert Run(h, [e1, e2]) == h2;
    assert Run(h, [e1, e2, e3]) == h3;
    assert h3.config == Parsed(b) && "chat" in h3.running;
  }

  // ----- When the marker goes, and when models change -----

  function At(h: Host, evs: seq<Event>, k: nat): Host
    requires k <= |evs|
  {
    Run(h, evs[..k])
  }

  lemma {:induction false} AtOfFront(h: Host, evs: seq<Event>)
    requires evs != []
    ensures forall k: nat :: k < |evs| ==> At(h, Front(evs), k) == At(h, evs, k)
    ensures At(h, Front(evs), |evs| - 1) == Run(h, Front(evs)) && At(h, evs, |evs|) == Run(h, evs)
    ensures Run(h, evs) == Next(Run(h, Front(evs)), Last(evs))
  {
    assert forall k: nat :: k < |evs| ==> Front(evs)[..k] == evs[..k];
    assert evs[..|evs|] == evs && Front(evs)[..|evs| - 1] == Front(evs);
  }

  lemma {:induction false} FeasibleAt(h: Host, evs: seq<Event>, k: nat)
    requires Feasible(h, evs) && k < |evs|
    ensures Feasible(h, evs[..k]) && Enabled(At(h, evs, k), evs[k]) && At(h, evs, k + 1) == Next(At(h, evs, k), evs[k])
  {
    if k == |evs| - 1 {
      assert evs[..k + 1] == evs;
    } else {
      FeasibleAt(h, Front(evs), k);
      assert Front(evs)[..k] == evs[..k] && Front(evs)[..k + 1] == evs[..k + 1];
    }
    assert Front(evs[..k + 1]) == evs[..k];
  }

  /** The agent asked for a restart and was allowed it. */
  predicate GrantedAt(h: Host, evs: seq<Event>, i: nat) {
    i < |evs| && evs[i] == Beat(false, true) && At(h, evs, i).needsRestart && At(h, evs, i).phase.Looked?
  }

  /** Neither a crash nor anything of another cycle in between. */
  predicate OneRestart(evs: seq<Event>, i: nat) {
    forall k :: i < k < |evs| ==> evs[k].PutPending? || evs[k].Restart? || Moves(evs[k])
  }

  predicate MarkedSince(h: Host, evs: seq<Event>, i: nat) {
    forall k: nat :: i <= k <= |evs| ==> At(h, evs, k).marker
  }

  /** The cycle that goes on was granted its restart at `i`, and the marker has been there all along. */
  predicate GrantedSince(h: Host, evs: seq<Event>, i: nat) {
    GrantedAt(h, evs, i) && OneRestart(evs, i) && MarkedSince(h, evs, i)
  }

  predicate RestartedBetween(evs: seq<Event>, i: nat) {
    exists j :: i < j < |evs| && evs[j].Restart? && evs[j].ok
  }

  /** What the host remembers beyond its disk is on disk as well. */
  predicate MemoryMarked(h: Host) {
    (h.needsRestart || h.pending.Some?) ==> h.marker
  }

  /** The restart-relevant models seen at the last look since the agent started, if it looked. */
  function LastLook(h: Host, evs: seq<Event>): Option<set<string>> {
    if evs == [] then None
    else
      match Last(evs)
      case Fetch(ok) => if ok then Some(Run(h, Front(evs)).running.Keys) else LastLook(h, Front(evs))
      case Crash => None
      case _ => LastLook(h, Front(evs))
  }

  /** One event at a time: what leads to each phase, and what takes the marker away. */
  lemma PhaseStep(h: Host, e: Event)
    requires MemoryMarked(h) && Enabled(h, e)
    ensures var t := Next(h, e);
            && MemoryMarked(t)
            && (t.phase.Looked? ==>
                  || (e == Fetch(true) && t.phase.models == h.running.Keys)
                  || (!e.Fetch? && !e.Crash? && t.phase == h.phase))
            && (t.phase.Granted? ==> (e == Beat(false, true) && h.needsRestart && h.phase.Looked?) || (Moves(e) && h.phase.Granted?))
            && (t.phase.ReadyToRestart? ==> (e.PutPending? && h.phase.Granted?) || (Moves(e) && h.phase.ReadyToRestart?))
            && (t.phase.Restarted? ==> (e.Restart? && e.ok && h.phase.ReadyToRestart?) || (Moves(e) && h.phase.Restarted?))
            && (h.marker && !t.marker ==> e == Verify(true, true) && h.phase.Restarted?)
  {
  }

  lemma MarkedMemory(h: Host)
    requires MemoryMarked(h) && h.needsRestart
    ensures h.marker
  {
  }

  /** What waits is what the restart will find. */
  predicate InPlace(h: Host) {
    h.phase.ReadyToRestart? && h.pending.Some? ==> h.config == Parsed(h.pending.value)
  }

  lemma StepKeepsInPlace(h: Host, e: Event)
    requires InPlace(h) && Enabled(h, e)
    ensures InPlace(Next(h, e))
  {
  }

  lemma OneRestartStays(evs: seq<Event>, i: nat)
    requires evs != [] && OneRestart(Front(evs), i)
    requires Last(evs).PutPending? || Last(evs).Restart? || Moves(Last(evs))
    ensures OneRestart(evs, i)
  {
    forall k | i < k < |evs| ensures evs[k].PutPending? || evs[k].Restart? || Moves(evs[k]) {
      assert k < |evs| - 1 ==> evs[k] == Front(evs)[k];
    }
  }

  lemma MarkedStays(h: Host, evs: seq<Event>, i: nat)
    requires evs != [] && MarkedSince(h, Front(evs), i) && Run(h, evs).marker
    ensures MarkedSince(h, evs, i)
  {
    AtOfFront(h, evs);
    hide At, Run;
  }

  lemma GrantStays(h: Host, evs: seq<Event>, i: nat)
    requires evs != [] && GrantedSince(h, Front(evs), i) && Run(h, evs).marker
    requires Last(evs).PutPending? || Last(evs).Restart? || Moves(Last(evs))
    ensures GrantedSince(h, evs, i)
  {
    OneRestartStays(evs, i);
    MarkedStays(h, evs, i);
    AtOfFront(h, evs);
    hide At, Run, OneRestart, MarkedSince;
  }

  lemma GrantIsInside(h: Host, evs: seq<Event>, i: nat)
    requires GrantedSince(h, evs, i)
    ensures i < |evs|
  {
  }

  lemma RestartedStays(evs: seq<Event>, i: nat)
    requires evs != [] && i < |evs| - 1
    ensures RestartedBetween(Front(evs), i) || (Last(evs).Restart? && Last(evs).ok) ==> RestartedBetween(evs, i)
  {
    if RestartedBetween(Front(evs), i) {
      var j :| i < j < |Front(evs)| && Front(evs)[j].Restart? && Front(evs)[j].ok;
      assert evs[j] == Front(evs)[j];
    } else if Last(evs).Restart? && Last(evs).ok {
      assert evs[|evs| - 1].ok;
    }
  }

  ghost predicate GrantedBefore(h: Host, evs: seq<Event>) {
    exists i :: GrantedSince(h, evs, i)
  }

  ghost predicate RestartedBefore(h: Host, evs: seq<Event>) {
    exists i :: GrantedSince(h, evs, i) && RestartedBetween(evs, i)
  }

  lemma GrantedBeforeStays(h: Host, evs: seq<Event>)
    requires evs != [] && GrantedBefore(h, Front(evs)) && Run(h, evs).marker
    requires Last(evs).PutPending? || Last(evs).Restart? || Moves(Last(evs))
    ensures GrantedBefore(h, evs)
    ensures RestartedBefore(h, Front(evs)) || (Last(evs).Restart? && Last(evs).ok) ==> RestartedBefore(h, evs)
  {
    hide GrantedSince, RestartedBetween;
    var i: nat :| GrantedSince(h, Front(evs), i);
    GrantStays(h, evs, i);
    GrantIsInside(h, Front(evs), i);
    RestartedStays(evs, i);
    if RestartedBefore(h, Front(evs)) {
      var j: nat :| GrantedSince(h, Front(evs), j) && RestartedBetween(Front(evs), j);
      GrantStays(h, evs, j);
      GrantIsInside(h, Front(evs), j);
      RestartedStays(evs, j);
    }
  }

  lemma GrantStarts(h: Host, evs: seq<Event>)
    requires evs != [] && Last(evs) == Beat(false, true)
    requires Run(h, Front(evs)).needsRestart && Run(h, Front(evs)).phase.Looked? && Run(h, Front(evs)).marker
    requires Run(h, evs).marker
    ensures GrantedBefore(h, evs)
  {
    AtOfFront(h, evs);
    assert GrantedSince(h, evs, |evs| - 1);
  }

  lemma MarkedBefore(h: Host, evs: seq<Event>)
    requires GrantedBefore(h, evs)
    ensures Run(h, evs).marker
  {
    assert evs[..|evs|] == evs;
    var i: nat :| GrantedSince(h, evs, i);
    assert At(h, evs, |evs|).marker;
  }

  /** Where the host stands in its cycle tells what happened before. */
  lemma {:induction false} PhaseTellsPast(h: Host, evs: seq<Event>)
    requires h.phase.Idle? && MemoryMarked(h) && Feasible(h, evs)
    ensures var t := Run(h, evs);
            && MemoryMarked(t) && InPlace(t)
            && (t.phase.Looked? ==> LastLook(h, evs) == Some(t.phase.models))
            && (t.phase.Granted? || t.phase.ReadyToRestart? ==> GrantedBefore(h, evs))
            && (t.phase.Restarted? ==> GrantedBefore(h, evs) && RestartedBefore(h, evs))
  {
    assert InPlace(h);
    hide Next, Enabled, GrantedBefore, RestartedBefore, MemoryMarked, InPlace;
    if evs != [] {
      PhaseTellsPast(h, Front(evs));
      var t, e := Run(h, Front(evs)), Last(evs);
      PhaseStep(t, e);
      StepKeepsInPlace(t, e);
      if t.phase.Granted? || t.phase.ReadyToRestart? || t.phase.Restarted? {
        MarkedBefore(h, Front(evs));
      }
      var next := Next(t, e).phase;
      if next.Granted? && e.Beat? {
        MarkedMemory(t);
        GrantStarts(h, evs);
      } else if next.Granted? || next.ReadyToRestart? || next.Restarted? {
        GrantedBeforeStays(h, evs);
      }
    }
  }

  /** The marker goes at one event of the run. */
  predicate GoesAt(h: Host, evs: seq<Event>, k: nat) {
    k < |evs| && At(h, evs, k).marker && !At(h, evs, k + 1).marker
  }

  /**
   Whenever the marker goes, it goes with a verified restart: in the same cycle a heartbeat
   asked and was allowed, then the server was restarted, and the marker was there until now.
   */
  lemma MarkerGoesAfterVerifiedRestart(h: Host, evs: seq<Event>, k: nat)
    requires h.phase.Idle? && MemoryMarked(h) && Feasible(h, evs) && GoesAt(h, evs, k)
    ensures evs[k] == Verify(true, true)
    ensures RestartedBefore(h, evs[..k])
  {
    FeasibleAt(h, evs, k);
    PhaseTellsPast(h, evs[..k]);
  }

  /** So a marker that is there at first and gone in the end has seen all three, in that order. */
  lemma {:induction false} MarkerGoneMeansRestarted(h: Host, evs: seq<Event>)
    requires h.phase.Idle? && h.marker && Feasible(h, evs) && !Run(h, evs).marker
    ensures exists i: nat, j: nat, k: nat ::
              && i < j < k < |evs| && GrantedAt(h, evs, i) && evs[j].Restart? && evs[j].ok && evs[k] == Verify(true, true)
              && forall x :: i < x < k ==> evs[x].PutPending? || evs[x].Restart? || Moves(evs[x])
  {
    GoesSomewhere(h, evs);
    var k: nat :| GoesAt(h, evs, k);
    MarkerGoesAfterVerifiedRestart(h, evs, k);
    var was := evs[..k];
    var i: nat :| GrantedSince(h, was, i) && RestartedBetween(was, i);
    var j: nat :| i < j < |was| && was[j].Restart? && was[j].ok;
    assert was[..i] == evs[..i];
    assert forall x :: i < x < k ==> evs[x] == was[x];
    assert GrantedAt(h, evs, i) && evs[j].ok && evs[k] == Verify(true, true);
  }

  lemma {:induction false} GoesSomewhere(h: Host, evs: seq<Event>)
    requires h.marker && !Run(h, evs).marker
    ensures exists k :: GoesAt(h, evs, k)
  {
    AtOfFront(h, evs);
    if Run(h, Front(evs)).marker {
      assert GoesAt(h, evs, |evs| - 1);
    } else {
      GoesSomewhere(h, Front(evs));
      var k: nat :| GoesAt(h, Front(evs), k);
      assert Front(evs)[..k + 1] == evs[..k + 1];
      assert GoesAt(h, evs, k);
    }
  }

  function ModelsIn(file: File): map<string, string> {
    if file.Parsed? then file.cfg.models else map[]
  }

  lemma ModelsStep(h: Host, e: Event)
    requires Enabled(h, e) && ModelsIn(Next(h, e).config) != ModelsIn(h.config)
    ensures || (e.PutPending? && h.phase.Granted? && h.pending.Some? && Next(h, e).config == Parsed(h.pending.value))
            || (e.Render? && h.phase.Looked? && (h.config.Absent? || h.phase.models == {}))
  {
  }

  /**
   With a file in place, and a running model seen at the last look, the models section
   changes only in a cycle whose heartbeat was allowed a restart, and to what was waiting.
   */
  lemma ModelsChangeOnlyWhenGranted(h: Host, evs: seq<Event>, k: nat)
    requires h.phase.Idle? && MemoryMarked(h) && Feasible(h, evs) && k < |evs|
    requires ModelsIn(At(h, evs, k + 1).config) != ModelsIn(At(h, evs, k).config)
    requires !At(h, evs, k).config.Absent? && LastLook(h, evs[..k]) != Some({})
    ensures evs[k].PutPending? && At(h, evs, k).pending.Some?
    ensures At(h, evs, k + 1).config == Parsed(At(h, evs, k).pending.value)
    ensures GrantedBefore(h, evs[..k])
  {
    FeasibleAt(h, evs, k);
    PhaseTellsPast(h, evs[..k]);
    hide Next, Enabled, GrantedBefore, LastLook, Run, Feasible;
    ModelsStep(At(h, evs, k), evs[k]);
  }

  /** The service is restarted for the gateway only: granted in this cycle, marked since, the waiting content in place. */
  lemma RestartsAreGranted(h: Host, evs: seq<Event>, k: nat)
    requires h.phase.Idle? && MemoryMarked(h) && Feasible(h, evs) && k < |evs| && evs[k].Restart?
    ensures GrantedBefore(h, evs[..k])
    ensures var t := At(h, evs, k); t.pending.Some? ==> t.config == Parsed(t.pending.value)
  {
    FeasibleAt(h, evs, k);
    PhaseTellsPast(h, evs[..k]);
  }

  predicate NoCrashAfter(evs: seq<Event>, b: nat) {
    forall k :: b < k < |evs| ==> !evs[k].Crash?
  }

  /** No restart was verified, but the agent may crash and restarts may fail. */
  predicate Unverified(evs: seq<Event>) {
    forall k :: 0 <= k < |evs| ==> evs[k] != Verify(true, true)
  }

  /** Until a restart is verified the marker stays, and every cycle that finds it asks until the agent crashes. */
  lemma {:induction false} MarkerKeepsAsking(h: Host, evs: seq<Event>, b: nat)
    requires h.marker && Unverified(evs) && Feasible(h, evs)
    requires b < |evs| && evs[b] == Begin(true) && NoCrashAfter(evs, b)
    ensures Run(h, evs).marker && Run(h, evs).needsRestart
  {
    MarkerStays(h, evs);
    if b < |evs| - 1 {
      MarkerKeepsAsking(h, Front(evs), b);
    }
  }

  lemma {:induction false} MarkerStays(h: Host, evs: seq<Event>)
    requires h.marker && Unverified(evs)
    ensures Run(h, evs).marker
  {
    if evs != [] {
      MarkerStays(h, Front(evs));
    }
  }

  // ----- When a change is asked for -----

  /**
   What rendering does with a file in place. A running model that was seen and whose entry
   changes makes the agent mark, ask, and keep the content; with other models running nothing
   happens; with none the file is replaced.
   */
  lemma RenderExactly(h: Host, content: SwapConfig, io: Io)
    requires h.phase.Looked? && h.config.Parsed? && h.config != Parsed(content) && io.readOk
    ensures var t := Next(h, Render(content, io));
            if exists m <- h.phase.models :: Entry(h.config, m) != Entry(Parsed(content), m) then
              t == if io.markOk then h.(marker := true, needsRestart := true, pending := Some(content))
                   else h.(marker := h.marker || io.markLeft)
            else if h.phase.models != {} then t == h
            else t == if io.tempOk && io.renameOk then h.(config := Parsed(content)) else h
  {
    var models := h.phase.models;
    var affected := Affected(h.config, content, models);
    if m :| m in models && Entry(h.config, m) != Entry(Parsed(content), m) {
      assert m in affected;
    } else {
      assert affected == {};
    }
  }

  /** A file that cannot be parsed, and a running model: every one of them counts as changed. */
  lemma RenderOverUnparsable(h: Host, content: SwapConfig, io: Io)
    requires h.phase.Looked? && h.config.Unparsable? && h.phase.models != {} && io.readOk && io.markOk
    ensures Next(h, Render(content, io)) == h.(marker := true, needsRestart := true, pending := Some(content))
  {
  }

  /** A first file is written after marking, and asks for a restart. */
  lemma RenderFirstFile(h: Host, content: SwapConfig, io: Io)
    requires h.phase.Looked? && h.config.Absent? && WriteOk(io) && io.markOk
    ensures Next(h, Render(content, io)) == h.(config := Parsed(content), marker := true, needsRestart := true, pending := Some(content))
  {
  }

  /** Preparing puts the key, and only the key, into a file in place, and restarts what does not enforce it yet. */
  lemma PrepareExactly(h: Host, token: string, rest: string, io: Io, enforced: bool, allowed: bool, survivors: set<string>)
    requires h.phase.Idle? && h.config.Parsed? && !Blank(token) && WriteOk(io)
    ensures var t := Next(h, Prepare(token, rest, io, enforced, allowed, true, survivors));
            && t.config == Parsed(SwapConfig(h.config.cfg.models, token, h.config.cfg.rest))
            && t.running == (if !enforced && allowed then map[] else h.running)
            && t.marker == h.marker && t.needsRestart == h.needsRestart
  {
  }
}
