/**
 One pass of an agent over the artifacts it should have (`internal/agent/reconcile.go`):
 installs that are no longer wanted are fenced off and cancelled, and at most one new install
 is started.

 Fences are kept per directory identity. `Answers` says how lock, write and marker answer at
 each call, and other publishers move fences forward before each of them.
 */
module ArtifactReconcile {

  import opened Basics
  import opened ArtifactFences
  import opened GatewayConfig
  import opened ModelIdentities

  /** What an agent is told: its tag's allow list, those models, and every directory any tag wants. */
  datatype Reply = Reply(revision: int, allowed: seq<string>, models: map<string, Model>, desiredDirs: Option<seq<string>>)

  datatype Key = Key(model: string, dir: string, artifact: Artifact, revision: int)

  datatype Install = Install(key: Key, running: bool, cancelled: bool)

  datatype MarkerCheck = Matching | Differing | Unreadable

  /** How the lock, the write of a fence and the marker of a model answer. */
  datatype Answers = Answers(lockOk: bool, writeOk: bool, check: MarkerCheck)

  datatype Status = Missing | Error | Ready | Pending | Installing

  function KeyFence(k: Key): Fence {
    Fence(k.revision, OfArtifact(k.artifact))
  }

  function KeyFor(reply: Reply, name: string): Key
    requires name in reply.models
  {
    Key(name, ResolvedModelDir(name, reply.models[name]), reply.models[name].artifact, reply.revision)
  }

  /** A directory that was never fenced has no fence file. */
  function FileAt(fences: map<string, FenceFile>, identity: string): FenceFile {
    if identity in fences then fences[identity] else NoFence
  }

  // ----- The fences a reply allows its agent to publish -----

  /** The artifact of an allowed model that lives in the directory. */
  ghost predicate OwnFence(reply: Reply, id: string -> string, identity: string, f: Fence) {
    exists name <- reply.allowed ::
        name in reply.models && id(KeyFor(reply, name).dir) == identity && f == KeyFence(KeyFor(reply, name))
  }

  /** The directory is wanted by no tag, as far as the reply says. */
  ghost predicate Unwanted(reply: Reply, id: string -> string, identity: string) {
    reply.desiredDirs.Some? && forall d <- reply.desiredDirs.value :: id(d) != identity
  }

  ghost predicate LegalFence(reply: Reply, id: string -> string, identity: string, f: Fence) {
    OwnFence(reply, id, identity, f) || (f == Fence(reply.revision, Removed) && Unwanted(reply, id, identity))
  }

  predicate Overwrites(before: FenceFile, f: Fence) {
    before == NoFence || (before.Stored? && ShouldAdvance(before.fence, f))
  }

  predicate Publishes(file: FenceFile, f: Fence, a: Answers) {
    a.lockOk && file != UnreadableFence && (Overwrites(file, f) ==> a.writeOk)
  }

  function FileAfter(file: FenceFile, f: Fence, a: Answers): FenceFile {
    if Publishes(file, f, a) && Overwrites(file, f) then Stored(f) else file
  }

  ghost predicate LegalChange(reply: Reply, id: string -> string, identity: string, before: FenceFile,
                              after: FenceFile) {
    after == before || (after.Stored? && Overwrites(before, after.fence) && LegalFence(reply, id, identity, after.fence))
  }

  /** Every directory keeps its fence or moves forward to one the reply allows. */
  ghost predicate LegalChanges(reply: Reply, id: string -> string, before: map<string, FenceFile>,
                               after: map<string, FenceFile>) {
    forall identity: string :: LegalChange(reply, id, identity, FileAt(before, identity), FileAt(after, identity))
  }

  /** What anyone's publications may do to a fence. */
  predicate Forward(before: FenceFile, after: FenceFile) {
    after == before || (after.Stored? && Overwrites(before, after.fence))
  }

  ghost predicate AllForward(before: map<string, FenceFile>, after: map<string, FenceFile>) {
    forall identity: string :: Forward(FileAt(before, identity), FileAt(after, identity))
  }

  lemma ForwardComposes(a: map<string, FenceFile>, b: map<string, FenceFile>, c: map<string, FenceFile>)
    requires AllForward(a, b) && AllForward(b, c)
    ensures AllForward(a, c)
  {
    forall identity: string ensures Forward(FileAt(a, identity), FileAt(c, identity)) {
      assert Forward(FileAt(a, identity), FileAt(b, identity));
      assert Forward(FileAt(b, identity), FileAt(c, identity));
    }
  }

  lemma LegalIsForward(reply: Reply, id: string -> string, before: map<string, FenceFile>, after: map<string, FenceFile>)
    requires LegalChanges(reply, id, before, after)
    ensures AllForward(before, after)
  {
    forall identity: string ensures Forward(FileAt(before, identity), FileAt(after, identity)) {
      assert LegalChange(reply, id, identity, FileAt(before, identity), FileAt(after, identity));
    }
  }

  /** Everything in the log is something the reply allows to publish. */
  ghost predicate AllLegal(reply: Reply, id: string -> string, published: set<(string, Fence)>) {
    forall p <- published :: LegalFence(reply, id, p.0, p.1)
  }

  lemma PublishIsLegal(reply: Reply, id: string -> string, before: map<string, FenceFile>, identity: string, f: Fence)
    requires LegalFence(reply, id, identity, f)
    ensures LegalChanges(reply, id, before, before[identity := Published(FileAt(before, identity), f, true).0])
  {
  }

  // ----- Running installs -----

  ghost predicate OneRunning(installs: map<string, Install>) {
    forall a <- installs, b <- installs :: installs[a].running && installs[b].running ==> a == b
  }

  predicate NoneRunning(installs: map<string, Install>) {
    forall name <- installs :: !installs[name].running
  }

  /** Unwanted installs up to `todo`: a finished one is forgotten, a running one is cancelled and waited for. */
  function AfterRemoval(installs: map<string, Install>, allowed: set<string>, todo: set<string>): map<string, Install> {
    map name | name in installs && (name in todo || name in allowed || installs[name].running) ::
      if name in todo || name in allowed then installs[name] else installs[name].(cancelled := true)
  }

  class ArtifactInstaller {
    var installs: map<string, Install>
    var fences: map<string, FenceFile>
    /** What this pass has written itself. */
    ghost var published: set<(string, Fence)>
    const id: string -> string

    constructor (id: string -> string, fences: map<string, FenceFile>)
      ensures this.id == id && this.fences == fences && installs == map[] && published == {}
    {
      this.id, this.fences, installs, published := id, fences, map[], {};
    }

    /** Any number of publications by other installers and other agents. */
    method OthersPublish()
      modifies this`fences
      ensures AllForward(old(fences), fences)
    {
      var n: int := *;
      while n > 0
        invariant AllForward(old(fences), fences)
      {
        n := n - 1;
        var identity: string, f: Fence := *, *;
        if Overwrites(FileAt(fences, identity), f) {
          ghost var was := fences;
          fences := fences[identity := Stored(f)];
          ForwardComposes(old(fences), was, fences);
        }
      }
    }

    /** A publication succeeds exactly when the lock is had, the fence can be read, and a write that is due works. */
    method Publish(identity: string, desired: Fence, a: Answers) returns (r: PublishResult)
      modifies this`fences, this`published
      ensures published == if fences == old(fences) then old(published) else old(published) + {(identity, desired)}
      ensures r.Winner? <==> Publishes(FileAt(old(fences), identity), desired, a)
      ensures r == PublishFailed ==> fences == old(fences)
      ensures r.Winner? ==> fences == old(fences)[identity := Published(FileAt(old(fences), identity), desired, true).0]
      ensures r.Winner? ==> r == Published(FileAt(old(fences), identity), desired, true).1
    {
      var current := FileAt(fences, identity);
      if !a.lockOk || current == UnreadableFence {
        return PublishFailed;
      }
      if current.Stored? && !ShouldAdvance(current.fence, desired) {
        assert fences == fences[identity := current];
        return Winner(current.fence, current.fence == desired);
      }
      if !a.writeOk {
        return PublishFailed;
      }
      fences, published := fences[identity := Stored(desired)], published + {(identity, desired)};
      return Winner(desired, true);
    }

    /** The fence each directory of an allowed model should have. */
    method IndexDesired(reply: Reply) returns (byDir: map<string, Fence>)
      ensures IndexesDesired(reply, id, byDir)
    {
      byDir := map[];
      for i := 0 to |reply.allowed|
        invariant forall identity <- byDir :: OwnFence(reply, id, identity, byDir[identity])
        invariant forall k | 0 <= k < i && reply.allowed[k] in reply.models :: id(KeyFor(reply, reply.allowed[k]).dir) in byDir
      {
        var name := reply.allowed[i];
        if name !in reply.models {
          continue;
        }
        var key := KeyFor(reply, name);
        byDir := byDir[id(key.dir) := KeyFence(key)];
        assert name in reply.allowed && OwnFence(reply, id, id(key.dir), KeyFence(key));
      }
    }

    /** Publishes what takes an unwanted install's directory away from it, if anything does. */
    method FenceOff(reply: Reply, byDir: map<string, Fence>, key: Key, a: Answers) returns (ok: bool)
      requires IndexesDesired(reply, id, byDir) && AllLegal(reply, id, published)
      modifies this`fences, this`published
      ensures LegalChanges(reply, id, old(fences), fences) && AllLegal(reply, id, published)
      ensures ok && Claimed(reply, id, id(key.dir)) ==> Reached(FileAt(fences, id(key.dir)), reply.revision)
      ensures !ok ==> Fails(FileAt(fences, id(key.dir)), a)
    {
      var identity := id(key.dir);
      var globallyDesired := if reply.desiredDirs.Some? then set d | d in reply.desiredDirs.value :: id(d) else {};
      var reused := identity in byDir;
      if !reused && (reply.desiredDirs.None? || identity in globallyDesired) {
        return true;
      }
      var winner := if reused then byDir[identity] else Fence(reply.revision, Removed);
      assert LegalFence(reply, id, identity, winner);
      PublishIsLegal(reply, id, fences, identity, winner);
      var r := Publish(identity, winner, a);
      ok := r.Winner?;
    }

    method FenceOffAmongOthers(reply: Reply, byDir: map<string, Fence>, key: Key, a: Answers) returns (ok: bool)
      requires IndexesDesired(reply, id, byDir) && AllLegal(reply, id, published)
      modifies this`fences, this`published
      ensures AllForward(old(fences), fences) && AllLegal(reply, id, published)
      ensures ok && Claimed(reply, id, id(key.dir)) ==> Reached(FileAt(fences, id(key.dir)), reply.revision)
      ensures !ok ==> Fails(FileAt(fences, id(key.dir)), a)
    {
      OthersPublish();
      ghost var mine := fences;
      ok := FenceOff(reply, byDir, key, a);
      LegalIsForward(reply, id, mine, fences);
      ForwardComposes(old(fences), mine, fences);
    }

    /** Installs of models that are no longer allowed lose their fence, where another claims the directory, and are cancelled. */
    method CancelRemoved(reply: Reply, answers: string -> Answers) returns (installing: bool, failed: set<string>)
      requires AllLegal(reply, id, published)
      modifies this
      ensures AllForward(old(fences), fences) && AllLegal(reply, id, published)
      ensures installs == AfterRemoval(old(installs), Elems(reply.allowed), {})
      ensures installing == Removes(old(installs), Elems(reply.allowed))
      ensures FencedOff(old(installs), Elems(reply.allowed), failed, reply, id, fences)
      ensures FailedRightly(old(installs), failed, id, fences, answers)
    {
      var byDir := IndexDesired(reply);
      var before, allowed := installs, Elems(reply.allowed);
      installing, failed := false, {};
      var todo := installs.Keys;
      assert installs == AfterRemoval(before, allowed, todo) && AllForward(old(fences), fences);
      assert FencedOff(Outside(before, todo), allowed, failed, reply, id, fences);
      assert Outside(before, {}) == before && FailedRightly(before, {}, id, fences, answers);
      hide AllForward, AllLegal, LegalChanges, IndexesDesired, Claimed, Reached, AfterRemoval, FencedOff, Outside, FailedRightly, Fails;
      while todo != {}
        invariant todo <= before.Keys
        invariant AllForward(old(fences), fences) && AllLegal(reply, id, published)
        invariant installs == AfterRemoval(before, allowed, todo)
        invariant installing <==> exists name <- before.Keys - todo :: RunningOutside(before, allowed, name)
        invariant FencedOff(Outside(before, todo), allowed, failed, reply, id, fences)
        invariant FailedRightly(before, failed, id, fences, answers)
      {
        var name :| name in todo;
        RemovalStep(before, allowed, todo, name);
        OneFewer(before.Keys, todo, name);
        assert todo - {name} + {name} == todo;
        todo := todo - {name};
        var state := installs[name];
        if name in allowed {
          FencedOffNext(before, todo, name, allowed, failed, failed, reply, id, fences);
          continue;
        }
        if !state.running {
          FencedOffNext(before, todo, name, allowed, failed, failed, reply, id, fences);
          installs := installs - {name};
          continue;
        }
        ghost var was, wereFailed := fences, failed;
        var ok := FenceOffAmongOthers(reply, byDir, state.key, answers(name));
        if !ok {
          failed := failed + {name};
        }
        ForwardComposes(old(fences), was, fences);
        FailedMore(before, wereFailed, id, was, fences, answers, name, ok);
        FencedOffStays(Outside(before, todo + {name}), allowed, wereFailed, reply, id, was, fences);
        FencedOffNext(before, todo, name, allowed, wereFailed, failed, reply, id, fences);
        installs := installs[name := state.(cancelled := true)];
        installing := true;
      }
    }

    /** One allowed model: publish its fence, look at the marker, then keep, cancel, wait or start. */
    method ReconcileModel(reply: Reply, name: string, mayStart: bool, a: Answers) returns (status: Status,
                          installing: bool, started: bool)
      requires name in reply.allowed && name in reply.models && (mayStart ==> NoneRunning(installs))
      requires AllLegal(reply, id, published)
      modifies this
      ensures var t := Turn(name, FileAt(old(fences), id(KeyFor(reply, name).dir)), old(installs), installs, status, started);
              && TurnOk(reply, t, a, mayStart)
              && fences == AfterTurn(reply, id, old(fences), t, a)
      ensures installing <==> status == Pending || status == Installing
      ensures LegalChanges(reply, id, old(fences), fences) && AllLegal(reply, id, published)
      ensures AnswersRightly(reply, id, name, mayStart, fences, installs, status)
      ensures ChangesOne(reply, id, name, mayStart, old(installs), installs, fences, status, started)
    {
      started, installing := false, false;
      var key := KeyFor(reply, name);
      assert OwnFence(reply, id, id(key.dir), KeyFence(key));
      PublishIsLegal(reply, id, fences, id(key.dir), KeyFence(key));
      var r := Publish(id(key.dir), KeyFence(key), a);
      if r == PublishFailed {
        return Error, false, false;
      }
      if a.check == Unreadable {
        return Error, false, false;
      }
      var running := name in installs && installs[name].running;
      if a.check == Matching && r.current {
        if running && installs[name].key != key {
          installs := installs[name := installs[name].(cancelled := true)];
        }
        if name in installs && !installs[name].running {
          installs := installs - {name};
        }
        return Ready, false, false;
      }
      if running && (installs[name].key != key || !r.current) {
        installs := installs[name := installs[name].(cancelled := true)];
        return Pending, true, false;
      }
      if !r.current {
        return Pending, true, false;
      }
      if running {
        return Installing, true, false;
      }
      if name in installs && installs[name].key == key {
        installs := installs - {name};
        return Error, false, false;
      }
      if !mayStart {
        return Pending, true, false;
      }
      installs := installs[name := Install(key, true, false)];
      return Installing, true, true;
    }

    /**
     A whole pass, while others publish; what the statuses promise holds of the state it leaves
     behind. A fence the pass found current may have been overtaken by a later revision since.
     If nothing ran and some model is due when its turn comes, something runs afterwards.
     */
    method InstallAllowed(reply: Reply, removals: string -> Answers, answers: nat -> Answers) returns (status: map<string, Status>,
                          installing: bool, ghost turns: seq<Turn>)
      requires OneRunning(installs)
      modifies this
      ensures AllForward(old(fences), fences) && AllLegal(reply, id, published)
      ensures Passed(reply, id, old(fences), fences, old(installs), AfterRemoval(old(installs), Elems(reply.allowed), {}), installs,
                status, reply.allowed, turns, answers, Removes(old(installs), Elems(reply.allowed)), installing)
    {
      published := {};
      assert AllForward(fences, fences);
      hide Passed, PassOk, LegalChanges, AllForward, AllLegal, OneRunning, TurnsOk, TurnOk, OneTurnOk, Statuses, Due, Waits,
        FencedOff, FailedRightly, AfterRemoval, Removes;
      var failed: set<string>;
      installing, failed := CancelRemoved(reply, removals);
      status, turns := map[], [];
      var installRunning := exists name <- installs :: installs[name].running;
      var startedNew := false;
      assert installRunning <==> !NoneRunning(installs);
      hide NoneRunning, Elems, Holds, KeyFor;
      ghost var was, before, start, removing := old(fences), old(installs), installs, installing;
      PassedStarts(reply, id, was, fences, before, installs, answers, removing);
      assert reply.allowed[..0] == [];
      for i := 0 to |reply.allowed|
        invariant AllForward(was, fences) && AllLegal(reply, id, published)
        invariant installRunning || startedNew <==> !NoneRunning(installs)
        invariant Passed(reply, id, was, fences, before, start, installs, status, reply.allowed[..i], turns, answers, removing, installing)
        invariant |turns| == i
      {
        var name := reply.allowed[i];
        assert reply.allowed[..i + 1] == reply.allowed[..i] + [name];
        var mayStart := !installRunning && !startedNew;
        var s, more, started;
        s, more, started, turns := TakeTurn(reply, name, mayStart, answers(i), was, before, start, status, reply.allowed[..i], turns,
            answers, removing, installing);
        status := status[name := s];
        installing, startedNew := installing || more, startedNew || started;
      }
      assert reply.allowed[..|reply.allowed|] == reply.allowed;
      ghost var wereFences := fences;
      OthersPublish();
      ForwardComposes(was, wereFences, fences);
      OthersPassed(reply, id, was, wereFences, fences, before, start, installs, status, reply.allowed, turns, answers,
          removing, installing);
    }

    /** The turn of one model, after whatever others have published since the last. */
    method TakeTurn(reply: Reply, name: string, mayStart: bool, a: Answers, ghost was: map<string, FenceFile>,
                    ghost before: map<string, Install>, ghost start: map<string, Install>, ghost status: map<string, Status>,
                    ghost done: seq<string>, ghost turns: seq<Turn>, ghost answers: nat -> Answers,
                    ghost removing: bool, ghost installing: bool)
      returns (s: Status, more: bool, started: bool, ghost taken: seq<Turn>)
      requires name in reply.allowed && mayStart == NoneRunning(installs) && a == answers(|turns|)
      requires AllForward(was, fences) && AllLegal(reply, id, published)
      requires Passed(reply, id, was, fences, before, start, installs, status, done, turns, answers, removing, installing)
      modifies this
      ensures AllForward(was, fences) && AllLegal(reply, id, published) && |taken| == |turns| + 1
      ensures Passed(reply, id, was, fences, before, start, installs, status[name := s], done + [name], taken, answers,
                removing, installing || more)
      ensures NoneRunning(installs) <==> mayStart && !started
    {
      hide Passed, AnswersRightly, ChangesOne, AllForward, AllLegal, NoneRunning, Holds, KeyFor, TurnOk;
      if name !in reply.models {
        MissingPassed(reply, id, was, fences, before, start, installs, status, done, turns, answers, removing, installing, name);
        return Missing, false, false, turns + [Turn(name, NoFence, installs, installs, Missing, false)];
      }
      ghost var wereFences, wereInstalls := fences, installs;
      OthersPublish();
      ghost var mine := fences;
      s, more, started := ReconcileModel(reply, name, mayStart, a);
      LegalIsForward(reply, id, mine, fences);
      ForwardComposes(was, wereFences, mine);
      ForwardComposes(was, mine, fences);
      ghost var t := Turn(name, FileAt(mine, id(KeyFor(reply, name).dir)), wereInstalls, installs, s, started);
      OthersPassed(reply, id, was, wereFences, mine, before, start, wereInstalls, status, done, turns, answers, removing, installing);
      TurnPassed(reply, id, was, mine, fences, before, start, status, done, turns, answers, removing, installing, t, mayStart);
      taken := turns + [t];
    }

    /** An install that has come to its end no longer runs, if it is still the one on record. */
    method ApplyInstallResult(model: string, key: Key)
      modifies this`installs
      ensures installs == if model in old(installs) && old(installs)[model].key == key
          then old(installs)[model := old(installs)[model].(running := false)] else old(installs)
    {
      if model !in installs || installs[model].key != key {
        return;
      }
      installs := installs[model := installs[model].(running := false)];
    }
  }

  // ----- One turn of a pass -----

  /** What a pass did for one allowed model: the fence file it met, the installs before and after. */
  datatype Turn = Turn(
    name: string, file: FenceFile, before: map<string, Install>, after: map<string, Install>, status: Status, started: bool)

  predicate Runs(installs: map<string, Install>, name: string) {
    name in installs && installs[name].running
  }

  /** An install of exactly this key is on record, running or finished. */
  predicate HasRecord(installs: map<string, Install>, name: string, key: Key, running: bool) {
    name in installs && installs[name].running == running && installs[name].key == key
  }

  /** Nothing of the model is being installed, and no attempt at this key waits to be reported. */
  predicate Vacant(installs: map<string, Install>, name: string, key: Key) {
    !Runs(installs, name) && !HasRecord(installs, name, key, false)
  }

  predicate OwnStored(file: FenceFile, key: Key, a: Answers) {
    FileAfter(file, KeyFence(key), a) == Stored(KeyFence(key))
  }

  /** The fence is published and the own one, and the marker says that the artifact is not there. */
  predicate Wanting(t: Turn, key: Key, a: Answers) {
    Publishes(t.file, KeyFence(key), a) && OwnStored(t.file, key, a) && a.check == Differing
  }

  predicate Due(reply: Reply, t: Turn, a: Answers) {
    t.name in reply.models && Wanting(t, KeyFor(reply, t.name), a) && Vacant(t.before, t.name, KeyFor(reply, t.name))
  }

  /** Every status, and when it is due. */
  predicate StatusOk(t: Turn, key: Key, a: Answers, mayStart: bool) {
    var own := OwnStored(t.file, key, a);
    && t.status != Missing
    && (t.status == Error <==>
        || !Publishes(t.file, KeyFence(key), a) || a.check == Unreadable
        || (Wanting(t, key, a) && HasRecord(t.before, t.name, key, false)))
    && (t.status == Ready <==> Publishes(t.file, KeyFence(key), a) && own && a.check == Matching)
    && (t.status == Installing <==>
        Wanting(t, key, a) && (HasRecord(t.before, t.name, key, true) || (mayStart && Vacant(t.before, t.name, key))))
    && (t.started <==> Wanting(t, key, a) && mayStart && Vacant(t.before, t.name, key))
  }

  /**
   The one install that changes is the model's own: started, forgotten once it has come to its
   end and that is reported, or cancelled because it is not what is wanted any more.
   */
  predicate InstallsOk(t: Turn, key: Key, a: Answers) {
    if t.started then t.after == t.before[t.name := Install(key, true, false)]
    else if t.name in t.before && !Runs(t.before, t.name) && (t.status == Ready || (t.status == Error && Wanting(t, key, a)))
    then t.after == t.before - {t.name}
    else if Runs(t.before, t.name) && (t.status == Pending || (t.status == Ready && t.before[t.name].key != key))
    then t.after == t.before[t.name := t.before[t.name].(cancelled := true)]
    else t.after == t.before
  }

  predicate TurnOk(reply: Reply, t: Turn, a: Answers, mayStart: bool)
    requires t.name in reply.models
  {
    StatusOk(t, KeyFor(reply, t.name), a, mayStart) && InstallsOk(t, KeyFor(reply, t.name), a)
  }

  function AfterTurn(reply: Reply, id: string -> string, fences: map<string, FenceFile>, t: Turn,
                     a: Answers): map<string, FenceFile>
    requires t.name in reply.models
  {
    var key := KeyFor(reply, t.name);
    if Publishes(t.file, KeyFence(key), a) then fences[id(key.dir) := FileAfter(t.file, KeyFence(key), a)] else fences
  }

  function Statuses(turns: seq<Turn>): map<string, Status> {
    if turns == [] then map[] else Statuses(turns[..|turns| - 1])[turns[|turns| - 1].name := turns[|turns| - 1].status]
  }

  function AfterTurns(start: map<string, Install>, turns: seq<Turn>): map<string, Install> {
    if turns == [] then start else turns[|turns| - 1].after
  }

  /** The fence file was reached from the first state, and the last one was reached from what the turn left. */
  ghost predicate FileOk(reply: Reply, id: string -> string, was: map<string, FenceFile>, now: map<string, FenceFile>,
                         t: Turn, a: Answers)
    requires t.name in reply.models
  {
    var key := KeyFor(reply, t.name);
    && Forward(FileAt(was, id(key.dir)), t.file)
    && Forward(FileAfter(t.file, KeyFence(key), a), FileAt(now, id(key.dir)))
  }

  ghost predicate OneTurnOk(reply: Reply, id: string -> string, was: map<string, FenceFile>, now: map<string, FenceFile>,
                            t: Turn, a: Answers) {
    if t.name in reply.models then TurnOk(reply, t, a, NoneRunning(t.before)) && FileOk(reply, id, was, now, t, a)
    else t.status == Missing && t.after == t.before && !t.started
  }

  /** One turn for each allowed model, in order, each from where the one before left off. */
  ghost predicate TurnsOk(reply: Reply, id: string -> string, was: map<string, FenceFile>, now: map<string, FenceFile>,
                          start: map<string, Install>, installs: map<string, Install>, done: seq<string>, turns: seq<Turn>,
                          answers: nat -> Answers) {
    && |turns| == |done| && installs == AfterTurns(start, turns)
    && forall k :: 0 <= k < |turns| ==>
         InOrder(start, done, turns, k) && OneTurnOk(reply, id, was, now, turns[k], answers(k))
  }

  predicate InOrder(start: map<string, Install>, done: seq<string>, turns: seq<Turn>, k: nat)
    requires k < |turns| == |done|
  {
    turns[k].name == done[k] && turns[k].before == AfterTurns(start, turns[..k])
  }

  lemma InOrderStays(start: map<string, Install>, done: seq<string>, turns: seq<Turn>, k: nat, t: Turn)
    requires k < |turns| == |done| && InOrder(start, done, turns, k)
    ensures InOrder(start, done + [t.name], turns + [t], k)
  {
    assert (turns + [t])[..k] == turns[..k];
  }

  lemma LastInOrder(start: map<string, Install>, done: seq<string>, turns: seq<Turn>, t: Turn)
    requires |turns| == |done| && t.before == AfterTurns(start, turns)
    ensures InOrder(start, done + [t.name], turns + [t], |turns|) && AfterTurns(start, turns + [t]) == t.after
    ensures Statuses(turns + [t]) == Statuses(turns)[t.name := t.status]
  {
    assert (turns + [t])[..|turns|] == turns;
  }

  /** Others moving fences forward do not change what was right about the turns. */
  lemma TurnsStay(reply: Reply, id: string -> string, was: map<string, FenceFile>, mid: map<string, FenceFile>,
                  now: map<string, FenceFile>, start: map<string, Install>, installs: map<string, Install>, done: seq<string>,
                  turns: seq<Turn>, answers: nat -> Answers)
    requires TurnsOk(reply, id, was, mid, start, installs, done, turns, answers) && AllForward(mid, now)
    ensures TurnsOk(reply, id, was, now, start, installs, done, turns, answers)
  {
    hide TurnOk, KeyFor, FileAfter, InOrder;
    forall k | 0 <= k < |turns| && turns[k].name in reply.models ensures FileOk(reply, id, was, now, turns[k], answers(k)) {
      var identity := id(KeyFor(reply, turns[k].name).dir);
      assert OneTurnOk(reply, id, was, mid, turns[k], answers(k));
      assert Forward(FileAt(mid, identity), FileAt(now, identity));
    }
  }

  lemma TurnsMore(reply: Reply, id: string -> string, was: map<string, FenceFile>, now: map<string, FenceFile>,
                  start: map<string, Install>, installs: map<string, Install>, done: seq<string>, turns: seq<Turn>,
                  answers: nat -> Answers, t: Turn)
    requires TurnsOk(reply, id, was, now, start, installs, done, turns, answers)
    requires t.before == installs && OneTurnOk(reply, id, was, now, t, answers(|turns|))
    ensures TurnsOk(reply, id, was, now, start, t.after, done + [t.name], turns + [t], answers)
    ensures Statuses(turns + [t]) == Statuses(turns)[t.name := t.status]
  {
    LastInOrder(start, done, turns, t);
    hide OneTurnOk, Statuses, InOrder, AfterTurns;
    var more := turns + [t];
    forall k | 0 <= k < |turns| ensures InOrder(start, done + [t.name], more, k) && more[k] == turns[k] {
      InOrderStays(start, done, turns, k, t);
    }
  }

  lemma MissingTurn(reply: Reply, id: string -> string, was: map<string, FenceFile>, now: map<string, FenceFile>, t: Turn,
                    a: Answers)
    requires t.name !in reply.models && t.status == Missing && t.after == t.before && !t.started
    ensures OneTurnOk(reply, id, was, now, t, a) && !Due(reply, t, a)
  {
  }

  lemma TurnIsOk(reply: Reply, id: string -> string, was: map<string, FenceFile>, mid: map<string, FenceFile>,
                 now: map<string, FenceFile>, t: Turn, a: Answers, mayStart: bool)
    requires t.name in reply.models && TurnOk(reply, t, a, mayStart) && mayStart == NoneRunning(t.before)
    requires AllForward(was, mid) && t.file == FileAt(mid, id(KeyFor(reply, t.name).dir))
    requires now == AfterTurn(reply, id, mid, t, a)
    ensures OneTurnOk(reply, id, was, now, t, a)
    ensures Due(reply, t, a) && mayStart ==> t.started
  {
    assert Forward(FileAt(was, id(KeyFor(reply, t.name).dir)), t.file);
    hide KeyFor, Forward, Overwrites, NoneRunning, InstallsOk;
  }

  predicate Waits(t: Turn) {
    t.status == Pending || t.status == Installing
  }

  /** All that holds of a pass after some of its turns. */
  ghost predicate Passed(reply: Reply, id: string -> string, was: map<string, FenceFile>, now: map<string, FenceFile>,
                         before: map<string, Install>, start: map<string, Install>, installs: map<string, Install>,
                         status: map<string, Status>, done: seq<string>, turns: seq<Turn>, answers: nat -> Answers,
                         removing: bool, installing: bool) {
    && PassOk(reply, id, before, installs, now, status, done)
    && TurnsOk(reply, id, was, now, start, installs, done, turns, answers) && status == Statuses(turns)
    && ((exists k :: 0 <= k < |turns| && Due(reply, turns[k], answers(k))) ==> !NoneRunning(installs))
    && (installing <==> removing || exists k :: 0 <= k < |turns| && Waits(turns[k]))
  }

  /** In particular: if a model was due in its turn, something runs when the pass is over. */
  lemma PassedMeans(reply: Reply, id: string -> string, was: map<string, FenceFile>, now: map<string, FenceFile>,
                    before: map<string, Install>, start: map<string, Install>, installs: map<string, Install>,
                    status: map<string, Status>, done: seq<string>, turns: seq<Turn>, answers: nat -> Answers,
                    removing: bool, installing: bool)
    requires Passed(reply, id, was, now, before, start, installs, status, done, turns, answers, removing, installing)
    ensures PassOk(reply, id, before, installs, now, status, done)
    ensures TurnsOk(reply, id, was, now, start, installs, done, turns, answers) && status == Statuses(turns)
    ensures (exists k :: 0 <= k < |turns| && Due(reply, turns[k], answers(k))) ==> !NoneRunning(installs)
    ensures installing <==> removing || exists k :: 0 <= k < |turns| && Waits(turns[k])
  {
  }

  lemma PassedStarts(reply: Reply, id: string -> string, was: map<string, FenceFile>, now: map<string, FenceFile>,
                     before: map<string, Install>, installs: map<string, Install>, answers: nat -> Answers, removing: bool)
    requires OneRunning(before) && installs == AfterRemoval(before, Elems(reply.allowed), {})
    ensures Passed(reply, id, was, now, before, installs, installs, map[], [], [], answers, removing, removing)
  {
    PassStarts(reply, id, before, installs, now);
    hide PassOk, AfterRemoval;
  }

  lemma OthersPassed(reply: Reply, id: string -> string, was: map<string, FenceFile>, mid: map<string, FenceFile>,
                     now: map<string, FenceFile>, before: map<string, Install>, start: map<string, Install>,
                     installs: map<string, Install>, status: map<string, Status>, done: seq<string>, turns: seq<Turn>,
                     answers: nat -> Answers, removing: bool, installing: bool)
    requires Passed(reply, id, was, mid, before, start, installs, status, done, turns, answers, removing, installing)
    requires AllForward(mid, now)
    ensures Passed(reply, id, was, now, before, start, installs, status, done, turns, answers, removing, installing)
  {
    hide PassOk, TurnsOk, Statuses, Due, NoneRunning, AllForward;
    OthersKeep(reply, id, before, installs, mid, now, status, done);
    TurnsStay(reply, id, was, mid, now, start, installs, done, turns, answers);
  }

  lemma MissingPassed(reply: Reply, id: string -> string, was: map<string, FenceFile>, now: map<string, FenceFile>,
                      before: map<string, Install>, start: map<string, Install>, installs: map<string, Install>,
                      status: map<string, Status>, done: seq<string>, turns: seq<Turn>, answers: nat -> Answers,
                      removing: bool, installing: bool, name: string)
    requires Passed(reply, id, was, now, before, start, installs, status, done, turns, answers, removing, installing)
    requires name !in reply.models
    ensures Passed(reply, id, was, now, before, start, installs, status[name := Missing], done + [name],
              turns + [Turn(name, NoFence, installs, installs, Missing, false)], answers, removing, installing)
  {
    var t := Turn(name, NoFence, installs, installs, Missing, false);
    MissingTurn(reply, id, was, now, t, answers(|turns|));
    assert !Waits(t);
    hide PassOk, TurnsOk, OneTurnOk, Statuses, Due, Waits, NoneRunning, AfterTurns;
    MissingKeeps(reply, id, before, installs, now, status, done, name);
    TurnsMore(reply, id, was, now, start, installs, done, turns, answers, t);
    LastTurn(reply, turns, answers, t);
  }

  lemma TurnPassed(reply: Reply, id: string -> string, was: map<string, FenceFile>, mid: map<string, FenceFile>,
                   now: map<string, FenceFile>, before: map<string, Install>, start: map<string, Install>,
                   status: map<string, Status>, done: seq<string>, turns: seq<Turn>, answers: nat -> Answers,
                   removing: bool, installing: bool, t: Turn, mayStart: bool)
    requires Passed(reply, id, was, mid, before, start, t.before, status, done, turns, answers, removing, installing)
    requires t.name in reply.allowed && t.name in reply.models && mayStart == NoneRunning(t.before)
    requires AllForward(was, mid) && AllForward(mid, now) && t.file == FileAt(mid, id(KeyFor(reply, t.name).dir))
    requires TurnOk(reply, t, answers(|turns|), mayStart) && now == AfterTurn(reply, id, mid, t, answers(|turns|))
    requires AnswersRightly(reply, id, t.name, mayStart, now, t.after, t.status)
    requires ChangesOne(reply, id, t.name, mayStart, t.before, t.after, now, t.status, t.started)
    ensures Passed(reply, id, was, now, before, start, t.after, status[t.name := t.status], done + [t.name],
              turns + [t], answers, removing, installing || Waits(t))
    ensures NoneRunning(t.after) <==> mayStart && !t.started
  {
    TurnIsOk(reply, id, was, mid, now, t, answers(|turns|), mayStart);
    hide PassOk, TurnsOk, Statuses, Due, NoneRunning, AllForward, TurnOk, OneTurnOk, AnswersRightly, ChangesOne, KeyFor, AfterTurn;
    TurnsStay(reply, id, was, mid, now, start, t.before, done, turns, answers);
    ModelKeeps(reply, id, before, t.before, t.after, mid, now, status, done, t.name, mayStart, t.status, t.started);
    TurnsMore(reply, id, was, now, start, t.before, done, turns, answers, t);
    LastTurn(reply, turns, answers, t);
  }

  lemma LastTurn(reply: Reply, turns: seq<Turn>, answers: nat -> Answers, t: Turn)
    ensures (exists k :: 0 <= k < |turns| + 1 && Due(reply, (turns + [t])[k], answers(k))) <==>
            (exists k :: 0 <= k < |turns| && Due(reply, turns[k], answers(k))) || Due(reply, t, answers(|turns|))
    ensures (exists k :: 0 <= k < |turns| + 1 && Waits((turns + [t])[k])) <==>
            (exists k :: 0 <= k < |turns| && Waits(turns[k])) || Waits(t)
  {
    hide Due, Waits;
    var more := turns + [t];
    assert more[|turns|] == t;
    if k :| 0 <= k < |turns| && Due(reply, turns[k], answers(k)) {
      assert Due(reply, more[k], answers(k));
    }
    if k :| 0 <= k < |turns| && Waits(turns[k]) {
      assert Waits(more[k]);
    }
  }

  /** Unwanted installs whose fence could not be published, and why. */
  predicate Fails(file: FenceFile, a: Answers) {
    !a.lockOk || !a.writeOk || file == UnreadableFence
  }

  ghost predicate FailedRightly(before: map<string, Install>, failed: set<string>, id: string -> string,
                                fences: map<string, FenceFile>, answers: string -> Answers) {
    forall name <- failed :: name in before && Fails(FileAt(fences, id(before[name].key.dir)), answers(name))
  }

  lemma FailedMore(before: map<string, Install>, failed: set<string>, id: string -> string, was: map<string, FenceFile>,
                   fences: map<string, FenceFile>, answers: string -> Answers, name: string, ok: bool)
    requires FailedRightly(before, failed, id, was, answers) && AllForward(was, fences) && name in before
    requires !ok ==> Fails(FileAt(fences, id(before[name].key.dir)), answers(name))
    ensures FailedRightly(before, if ok then failed else failed + {name}, id, fences, answers)
  {
    forall n <- failed ensures Fails(FileAt(fences, id(before[n].key.dir)), answers(n)) {
      assert Forward(FileAt(was, id(before[n].key.dir)), FileAt(fences, id(before[n].key.dir)));
    }
  }

  /** What a status says about the state it was given in. */
  predicate AnswersRightly(reply: Reply, id: string -> string, name: string, mayStart: bool,
                           fences: map<string, FenceFile>,
                           installs: map<string, Install>, status: Status)
    requires name in reply.models
  {
    var key := KeyFor(reply, name);
    && status != Missing
    && (status == Ready ==> Holds(fences, id, key))
    && (status != Error ==> Reached(FileAt(fences, id(key.dir)), reply.revision))
    && (status == Installing ==> name in installs && installs[name].running && installs[name].key == key && Holds(fences, id, key))
    && (status == Pending && Holds(fences, id, key) ==> !mayStart)
  }

  /** Only the model's own install changes: started, forgotten when finished, or cancelled. */
  ghost predicate ChangesOne(reply: Reply, id: string -> string, name: string, mayStart: bool,
                             before: map<string, Install>, after: map<string, Install>,
                             fences: map<string, FenceFile>, status: Status, started: bool)
    requires name in reply.models
  {
    && (started ==> mayStart && after == before[name := Install(KeyFor(reply, name), true, false)] && Holds(fences, id, KeyFor(reply, name)))
    && (!started ==>
          || after == before
          || (name in before && !before[name].running && after == before - {name})
          || (name in before && before[name].running && after == before[name := before[name].(cancelled := true)]))
    && (name in before && before[name].running && before[name].key != KeyFor(reply, name) && status != Error
        ==> name in after && after[name].cancelled)
  }

  /** The pass over the models so far. */
  ghost predicate PassOk(reply: Reply, id: string -> string, before: map<string, Install>,
                         installs: map<string, Install>,
                         fences: map<string, FenceFile>, status: map<string, Status>, done: seq<string>) {
    && OneRunning(installs)
    && StartedRightly(before, installs, reply, id, fences)
    && ReadyRightly(status, reply, id, fences)
    && PendingRightly(status, reply, id, fences, installs)
    && status.Keys == Elems(done) && (forall name <- status :: status[name] == Missing <==> name !in reply.models)
    && CancelledRightly(before, installs, Elems(reply.allowed)) && StillRunning(before, installs)
  }

  /** A running install is never forgotten. */
  ghost predicate StillRunning(before: map<string, Install>, installs: map<string, Install>) {
    forall name <- before ::
        before[name].running ==> name in installs && installs[name].running && installs[name].key == before[name].key
  }

  ghost predicate CancelledRightly(before: map<string, Install>, installs: map<string, Install>, allowed: set<string>) {
    forall name <- before ::
        RunningOutside(before, allowed, name) ==> name in installs && installs[name] == before[name].(cancelled := true)
  }

  lemma PassStarts(reply: Reply, id: string -> string, before: map<string, Install>, installs: map<string, Install>,
                   fences: map<string, FenceFile>)
    requires OneRunning(before) && installs == AfterRemoval(before, Elems(reply.allowed), {})
    ensures PassOk(reply, id, before, installs, fences, map[], [])
  {
  }

  lemma MissingKeeps(reply: Reply, id: string -> string, before: map<string, Install>, installs: map<string, Install>,
                     fences: map<string, FenceFile>, status: map<string, Status>, done: seq<string>, name: string)
    requires PassOk(reply, id, before, installs, fences, status, done) && name !in reply.models
    ensures PassOk(reply, id, before, installs, fences, status[name := Missing], done + [name])
  {
    hide OneRunning, StartedRightly, CancelledRightly, StillRunning, Holds, Reached;
  }

  lemma OthersKeep(reply: Reply, id: string -> string, before: map<string, Install>, installs: map<string, Install>,
                   was: map<string, FenceFile>, fences: map<string, FenceFile>, status: map<string, Status>, done: seq<string>)
    requires PassOk(reply, id, before, installs, was, status, done) && AllForward(was, fences)
    ensures PassOk(reply, id, before, installs, fences, status, done)
  {
    KeptStays(was, fences);
    ReachedStays(was, fences, reply.revision);
    hide AllForward, OneRunning, CancelledRightly, StillRunning, Kept, Reached, NoneRunning, KeyFor;
  }

  lemma ModelKeeps(reply: Reply, id: string -> string, before: map<string, Install>, was: map<string, Install>,
                   now: map<string, Install>,
                   wereFences: map<string, FenceFile>, fences: map<string, FenceFile>, status: map<string, Status>, done: seq<string>,
                   name: string, mayStart: bool, s: Status, started: bool)
    requires PassOk(reply, id, before, was, wereFences, status, done)
    requires name in reply.allowed && name in reply.models && mayStart == NoneRunning(was)
    requires AllForward(wereFences, fences)
    requires AnswersRightly(reply, id, name, mayStart, fences, now, s)
    requires ChangesOne(reply, id, name, mayStart, was, now, fences, s, started)
    ensures PassOk(reply, id, before, now, fences, status[name := s], done + [name])
    ensures NoneRunning(now) <==> mayStart && !started
  {
    KeptStays(wereFences, fences);
    ReachedStays(wereFences, fences, reply.revision);
    hide AllForward, KeyFor;
    RunningKeeps(reply, id, before, was, now, wereFences, fences, name, mayStart, s, started);
    hide OneRunning, StartedRightly, CancelledRightly, StillRunning, ChangesOne;
    assert ReadyRightly(status[name := s], reply, id, fences) by {
      ReadyKeeps(reply, id, wereFences, fences, status, name, s);
    }
    PendingKeeps(reply, id, was, now, wereFences, fences, status, name, mayStart, s);
    hide PendingRightly, ReadyRightly;
  }

  lemma RunningKeeps(reply: Reply, id: string -> string, before: map<string, Install>, was: map<string, Install>,
                     now: map<string, Install>,
                     wereFences: map<string, FenceFile>, fences: map<string, FenceFile>,
                         name: string, mayStart: bool, s: Status, started: bool)
    requires OneRunning(was) && StartedRightly(before, was, reply, id, wereFences)
    requires CancelledRightly(before, was, Elems(reply.allowed)) && StillRunning(before, was)
    requires name in reply.allowed && name in reply.models && mayStart == NoneRunning(was)
    requires forall key: Key :: Kept(wereFences, id, key) ==> Kept(fences, id, key)
    requires ChangesOne(reply, id, name, mayStart, was, now, fences, s, started)
    ensures OneRunning(now) && StartedRightly(before, now, reply, id, fences)
    ensures CancelledRightly(before, now, Elems(reply.allowed)) && StillRunning(before, now)
    ensures NoneRunning(now) <==> mayStart && !started
    ensures !NoneRunning(was) ==> !NoneRunning(now)
  {
    hide Holds, Kept, StartedRightly;
    if started {
      assert name in now && now[name].running;
    }
    if !NoneRunning(was) {
      var n :| n in was && was[n].running;
      assert n in now && now[n].running;
    }
    StartsKeep(reply, id, before, was, now, wereFences, fences, name, mayStart, s, started);
  }

  lemma StartsKeep(reply: Reply, id: string -> string, before: map<string, Install>, was: map<string, Install>,
                   now: map<string, Install>,
                   wereFences: map<string, FenceFile>, fences: map<string, FenceFile>,
                       name: string, mayStart: bool, s: Status, started: bool)
    requires StartedRightly(before, was, reply, id, wereFences) && StillRunning(before, was)
    requires name in reply.allowed && name in reply.models && mayStart == NoneRunning(was)
    requires forall key: Key :: Kept(wereFences, id, key) ==> Kept(fences, id, key)
    requires ChangesOne(reply, id, name, mayStart, was, now, fences, s, started)
    ensures StartedRightly(before, now, reply, id, fences)
  {
    if started {
      assert Kept(fences, id, KeyFor(reply, name));
    }
    hide Kept, Holds;
    forall n <- now | now[n].running && !(n in before && before[n].running)
      ensures n in reply.allowed && n in reply.models && now[n] == Install(KeyFor(reply, n), true, now[n].cancelled)
      ensures Kept(fences, id, now[n].key) && forall other <- before :: !before[other].running
    {
      if !(started && n == name) {
        assert n in was && was[n].running && was[n].key == now[n].key;
        assert was[n].key.revision == reply.revision;
      }
    }
  }

  lemma ReadyKeeps(reply: Reply, id: string -> string, wereFences: map<string, FenceFile>,
                   fences: map<string, FenceFile>,
                   status: map<string, Status>, name: string, s: Status)
    requires ReadyRightly(status, reply, id, wereFences) && name in reply.models
    requires forall key: Key :: Kept(wereFences, id, key) ==> Kept(fences, id, key)
    requires s == Ready ==> Kept(fences, id, KeyFor(reply, name))
    ensures ReadyRightly(status[name := s], reply, id, fences)
  {
    hide Kept;
  }

  lemma PendingKeeps(reply: Reply, id: string -> string, was: map<string, Install>, now: map<string, Install>,
                     wereFences: map<string, FenceFile>, fences: map<string, FenceFile>,
                         status: map<string, Status>, name: string, mayStart: bool, s: Status)
    requires PendingRightly(status, reply, id, wereFences, was) && name in reply.models
    requires forall identity: string ::
        Reached(FileAt(wereFences, identity), reply.revision) ==>
          SameOrLater(FileAt(wereFences, identity), FileAt(fences, identity), reply.revision)
    requires AnswersRightly(reply, id, name, mayStart, fences, now, s)
    requires (!NoneRunning(was) ==> !NoneRunning(now)) && mayStart == NoneRunning(was)
    ensures PendingRightly(status[name := s], reply, id, fences, now)
  {
    forall n <- status | status[n] == Pending && n in reply.models
      ensures Reached(FileAt(fences, id(KeyFor(reply, n).dir)), reply.revision)
      ensures reply.revision != 0 && Holds(fences, id, KeyFor(reply, n)) ==> Holds(wereFences, id, KeyFor(reply, n))
    {
      var identity := id(KeyFor(reply, n).dir);
      assert SameOrLater(FileAt(wereFences, identity), FileAt(fences, identity), reply.revision);
    }
    hide NoneRunning, Reached, Holds, FileAt;
  }

  function Elems(s: seq<string>): set<string> {
    set x | x in s
  }

  function Outside(installs: map<string, Install>, todo: set<string>): map<string, Install> {
    map name | name in installs && name !in todo :: installs[name]
  }

  predicate RunningOutside(installs: map<string, Install>, allowed: set<string>, name: string) {
    name in installs && name !in allowed && installs[name].running
  }

  ghost predicate Removes(installs: map<string, Install>, allowed: set<string>) {
    exists name <- installs :: RunningOutside(installs, allowed, name)
  }

  /** The key's own fence is the stored one. */
  predicate Holds(fences: map<string, FenceFile>, id: string -> string, key: Key) {
    FileAt(fences, id(key.dir)) == Stored(KeyFence(key))
  }

  /** Still the stored one, or a later revision has come; at revision 0 another of that revision may have come too. */
  predicate Kept(fences: map<string, FenceFile>, id: string -> string, key: Key) {
    var file := FileAt(fences, id(key.dir));
    Holds(fences, id, key) || (file.Stored? && (file.fence.revision > key.revision || file.fence.revision == key.revision == 0))
  }

  ghost predicate StartedRightly(before: map<string, Install>, after: map<string, Install>, reply: Reply,
                                 id: string -> string, fences: map<string, FenceFile>) {
    forall name <- after :: after[name].running && !(name in before && before[name].running) ==>
      && name in reply.allowed && name in reply.models && after[name] == Install(KeyFor(reply, name), true, after[name].cancelled)
      && Kept(fences, id, after[name].key)
      && (forall other <- before :: !before[other].running)
  }

  ghost predicate ReadyRightly(status: map<string, Status>, reply: Reply, id: string -> string,
                               fences: map<string, FenceFile>) {
    forall name <- status :: status[name] == Ready ==> name in reply.models && Kept(fences, id, KeyFor(reply, name))
  }

  /** An allowed model with a current fence, at a revision other than 0, waits only while something is being installed. */
  ghost predicate PendingRightly(status: map<string, Status>, reply: Reply, id: string -> string,
                                 fences: map<string, FenceFile>, installs: map<string, Install>) {
    forall name <- status :: status[name] == Pending && name in reply.models ==>
      && Reached(FileAt(fences, id(KeyFor(reply, name).dir)), reply.revision)
      && (reply.revision != 0 && Holds(fences, id, KeyFor(reply, name)) ==> !NoneRunning(installs))
  }

  predicate Reached(file: FenceFile, revision: int) {
    file.Stored? && file.fence.revision >= revision
  }

  /** Unwanted running installs whose directory another claims find a newer fence when they come to commit. */
  ghost predicate FencedOff(installs: map<string, Install>, allowed: set<string>, failed: set<string>,
                            reply: Reply, id: string -> string, fences: map<string, FenceFile>) {
    forall name <- installs ::
        RunningOutside(installs, allowed, name) && name !in failed && Claimed(reply, id, id(installs[name].key.dir)) ==>
      Reached(FileAt(fences, id(installs[name].key.dir)), reply.revision)
  }

  ghost predicate IndexesDesired(reply: Reply, id: string -> string, byDir: map<string, Fence>) {
    && (forall identity <- byDir :: OwnFence(reply, id, identity, byDir[identity]))
    && (forall name <- reply.allowed :: name in reply.models ==> id(KeyFor(reply, name).dir) in byDir)
  }

  ghost predicate Claimed(reply: Reply, id: string -> string, identity: string) {
    || Unwanted(reply, id, identity)
    || exists name <- reply.allowed :: name in reply.models && id(KeyFor(reply, name).dir) == identity
  }

  lemma RemovalStep(before: map<string, Install>, allowed: set<string>, todo: set<string>, name: string)
    requires name in todo && todo <= before.Keys
    ensures var here, next := AfterRemoval(before, allowed, todo), AfterRemoval(before, allowed, todo - {name});
            && name in here && here[name] == before[name]
            && next == if name in allowed then here
                       else if before[name].running then here[name := before[name].(cancelled := true)]
                       else here - {name}
  {
  }

  /** One more install has been looked at. */
  lemma FencedOffNext(before: map<string, Install>, todo: set<string>, name: string, allowed: set<string>, failed: set<string>,
                      nowFailed: set<string>, reply: Reply, id: string -> string, fences: map<string, FenceFile>)
    requires FencedOff(Outside(before, todo + {name}), allowed, failed, reply, id, fences) && failed <= nowFailed
    requires name in before
    requires RunningOutside(before, allowed, name) && name !in nowFailed && Claimed(reply, id, id(before[name].key.dir)) ==>
        Reached(FileAt(fences, id(before[name].key.dir)), reply.revision)
    ensures FencedOff(Outside(before, todo), allowed, nowFailed, reply, id, fences)
  {
    hide Claimed, Reached;
  }

  lemma FencedOffStays(installs: map<string, Install>, allowed: set<string>, failed: set<string>,
                       reply: Reply, id: string -> string, before: map<string, FenceFile>, after: map<string, FenceFile>)
    requires FencedOff(installs, allowed, failed, reply, id, before) && AllForward(before, after)
    ensures FencedOff(installs, allowed, failed, reply, id, after)
  {
    forall name <- installs
      ensures Forward(FileAt(before, id(installs[name].key.dir)), FileAt(after, id(installs[name].key.dir)))
    {
    }
  }

  /** A fence once current stays, but for what `Kept` allows, whoever publishes. */
  lemma KeptStays(before: map<string, FenceFile>, after: map<string, FenceFile>)
    requires AllForward(before, after)
    ensures forall id: string -> string, key: Key :: Kept(before, id, key) ==> Kept(after, id, key)
  {
    forall id: string -> string, key: Key | Kept(before, id, key) ensures Kept(after, id, key) {
      assert Forward(FileAt(before, id(key.dir)), FileAt(after, id(key.dir)));
    }
  }

  predicate SameOrLater(before: FenceFile, after: FenceFile, revision: int) {
    after == before || (after.Stored? && (after.fence.revision > revision || after.fence.revision == revision == 0))
  }

  /** A fence that has reached the revision is replaced by later ones only, or at revision 0 by others of that revision. */
  lemma ReachedStays(before: map<string, FenceFile>, after: map<string, FenceFile>, revision: int)
    requires AllForward(before, after)
    ensures forall identity: string :: Reached(FileAt(before, identity), revision) ==>
        SameOrLater(FileAt(before, identity), FileAt(after, identity), revision)
  {
    forall identity: string | Reached(FileAt(before, identity), revision)
      ensures SameOrLater(FileAt(before, identity), FileAt(after, identity), revision)
    {
      assert Forward(FileAt(before, identity), FileAt(after, identity));
    }
  }
}
