/**
 Install fences of one model directory (`internal/agent/artifacts.go`).

 The fence file and the directory are only touched under the directory's file lock, so each
 locked region is one method of `ModelDirectory`. Everything between the locked regions
 (staging, cancellation, a crash) happens off-lock and is a step of its own in the system
 below, where any number of installers interleave.
 */
module ArtifactFences {

  import opened Basics

  datatype Artifact = Artifact(object_: string, kind: string, crc: string)

  /** SHA-256 digests stand for what they are digests of. */
  datatype Fingerprint = OfArtifact(artifact: Artifact) | Removed

  datatype Fence = Fence(revision: int, fingerprint: Fingerprint)

  datatype FenceFile = NoFence | Stored(fence: Fence) | UnreadableFence

  datatype MarkerFile = NoMarker | UnreadableMarker | Marker(model: string, artifact: Artifact)

  /** `origin` is the fence of the commit that put the content there, None for content from before. */
  datatype Content = Content(marker: MarkerFile, origin: Option<Fence>)

  datatype Disk = Disk(fence: FenceFile, dir: Option<Content>)

  // ----- Publishing -----

  predicate ShouldAdvance(current: Fence, desired: Fence) {
    || desired.revision > current.revision
    || (desired.revision == 0 && current.revision == 0 && desired.fingerprint != current.fingerprint)
  }

  datatype PublishResult = Winner(fence: Fence, current: bool) | PublishFailed

  function Published(file: FenceFile, desired: Fence, writeOk: bool): (FenceFile, PublishResult) {
    match file
    case UnreadableFence => (file, PublishFailed)
    case Stored(f) =>
      if !ShouldAdvance(f, desired) then (file, Winner(f, f == desired))
      else if writeOk then (Stored(desired), Winner(desired, true)) else (file, PublishFailed)
    case NoFence =>
      if writeOk then (Stored(desired), Winner(desired, true)) else (file, PublishFailed)
  }

  // ----- Committing -----

  /** How the file system and the context answer during one commit. */
  datatype Io = Io(
    cancelledBeforeMarker: bool, markerOk: bool, cancelledBeforeReplace: bool,
    statOk: bool, backupOk: bool, moveAsideOk: bool, crashAfterMoveAside: bool,
    moveInOk: bool, restoreOk: bool, cleanupOk: bool)

  datatype ReplaceResult = Replaced | ReplaceFailed | ReplaceCrashed

  function ReplacedDir(dir: Option<Content>, staged: Content, io: Io): (Option<Content>, ReplaceResult) {
    if !io.statOk || (dir.Some? && (!io.backupOk || !io.moveAsideOk)) then (dir, ReplaceFailed)
    else if dir.Some? && io.crashAfterMoveAside then (None, ReplaceCrashed)
    else if !io.moveInOk then (if io.restoreOk then dir else None, ReplaceFailed)
    else (Some(staged), if dir.Some? && !io.cleanupOk then ReplaceFailed else Replaced)
  }

  predicate MarkerMatches(dir: Option<Content>, model: string, artifact: Artifact) {
    dir.Some? && dir.value.marker == Marker(model, artifact)
  }

  predicate MarkerUnreadable(dir: Option<Content>) {
    dir.Some? && dir.value.marker == UnreadableMarker
  }

  datatype CommitResult = Installed | AlreadyInstalled | Superseded | CommitFailed | CommitCrashed

  function Staged(desired: Fence, model: string, artifact: Artifact): Content {
    Content(Marker(model, artifact), Some(desired))
  }

  function Committed(disk: Disk, desired: Fence, model: string, artifact: Artifact, io: Io): (Disk, CommitResult) {
    if disk.fence == UnreadableFence then (disk, CommitFailed)
    else if disk.fence != Stored(desired) then (disk, Superseded)
    else if MarkerUnreadable(disk.dir) then (disk, CommitFailed)
    else if MarkerMatches(disk.dir, model, artifact) then (disk, AlreadyInstalled)
    else if io.cancelledBeforeMarker || !io.markerOk || io.cancelledBeforeReplace then (disk, CommitFailed)
    else
      var (dir, r) := ReplacedDir(disk.dir, Staged(desired, model, artifact), io);
      (disk.(dir := dir), match r case Replaced => Installed case ReplaceFailed => CommitFailed case ReplaceCrashed => CommitCrashed)
  }

  class ModelDirectory {
    var fence: FenceFile
    var dir: Option<Content>

    ghost function Value(): Disk
      reads this
    {
      Disk(fence, dir)
    }

    constructor (fence: FenceFile, dir: Option<Content>)
      ensures this.fence == fence && this.dir == dir
    {
      this.fence, this.dir := fence, dir;
    }

    method PublishFence(desired: Fence, writeOk: bool) returns (r: PublishResult)
      modifies this`fence
      ensures (fence, r) == Published(old(fence), desired, writeOk)
    {
      if fence == UnreadableFence {
        return PublishFailed;
      }
      if fence.Stored? && !ShouldAdvance(fence.fence, desired) {
        return Winner(fence.fence, fence.fence == desired);
      }
      if !writeOk {
        return PublishFailed;
      }
      fence := Stored(desired);
      return Winner(desired, true);
    }

    method CommitStaged(desired: Fence, model: string, artifact: Artifact, io: Io) returns (r: CommitResult)
      modifies this`dir
      ensures (Value(), r) == Committed(old(Value()), desired, model, artifact, io)
    {
      if fence == UnreadableFence {
        return CommitFailed;
      }
      if fence == NoFence || fence.fence != desired {
        return Superseded;
      }
      if dir.Some? && dir.value.marker == UnreadableMarker {
        return CommitFailed;
      }
      if dir.Some? && dir.value.marker == Marker(model, artifact) {
        return AlreadyInstalled;
      }
      if io.cancelledBeforeMarker || !io.markerOk {
        return CommitFailed;
      }
      if io.cancelledBeforeReplace {
        return CommitFailed;
      }
      var replaced := ReplaceDir(Content(Marker(model, artifact), Some(desired)), io);
      match replaced
      case Replaced => return Installed;
      case ReplaceFailed => return CommitFailed;
      case ReplaceCrashed => return CommitCrashed;
    }

    /** The old directory is moved aside, the staged one moved in, the old one deleted. */
    method ReplaceDir(staged: Content, io: Io) returns (r: ReplaceResult)
      modifies this`dir
      ensures (dir, r) == ReplacedDir(old(dir), staged, io)
    {
      if !io.statOk {
        return ReplaceFailed;
      }
      var backup: Option<Content> := None;
      if dir.Some? {
        if !io.backupOk || !io.moveAsideOk {
          return ReplaceFailed;
        }
        backup, dir := dir, None;
        if io.crashAfterMoveAside {
          return ReplaceCrashed;
        }
      }
      if !io.moveInOk {
        if backup.Some? && io.restoreOk {
          dir := backup;
        }
        return ReplaceFailed;
      }
      dir := Some(staged);
      if backup.Some? && !io.cleanupOk {
        return ReplaceFailed;
      }
      return Replaced;
    }
  }

  // ----- Many installers -----

  datatype Phase = Starting | Fenced | Preparing | ReadyToCommit | Done

  datatype Installer = Installer(revision: int, model: string, artifact: Artifact, phase: Phase) {
    function Desired(): Fence {
      Fence(revision, OfArtifact(artifact))
    }
  }

  /** `commits` lists the fences under which the directory was replaced, oldest first. */
  datatype System = System(disk: Disk, installers: map<nat, Installer>, commits: seq<Fence>)

  datatype Event =
    | Begin(id: nat, revision: int, model: string, artifact: Artifact)
    | PublishOwn(id: nat, writeOk: bool)
    | CheckMarker(id: nat)
    | Stage(id: nat, stageOk: bool)
    | Commit(id: nat, io: Io)
    | Stop(id: nat)
    | PublishOther(desired: Fence, writeOk: bool)

  function WithPhase(s: System, id: nat, phase: Phase): System
    requires id in s.installers
  {
    s.(installers := s.installers[id := s.installers[id].(phase := phase)])
  }

  /** A marker that matches or cannot be read ends the install. */
  function AfterMarker(s: System, id: nat, next: Phase): System
    requires id in s.installers
  {
    var i := s.installers[id];
    WithPhase(s, id, if MarkerUnreadable(s.disk.dir) || MarkerMatches(s.disk.dir, i.model, i.artifact) then Done else next)
  }

  predicate Puts(s: System, id: nat, io: Io)
    requires id in s.installers
  {
    var i := s.installers[id];
    Committed(s.disk, i.Desired(), i.model, i.artifact, io).0 != s.disk
    && Committed(s.disk, i.Desired(), i.model, i.artifact, io).0.dir == Some(Staged(i.Desired(), i.model, i.artifact))
  }

  function Next(s: System, e: Event): System {
    match e
    case Begin(id, revision, model, artifact) =>
      if id in s.installers then s
      else s.(installers := s.installers[id := Installer(revision, model, artifact, Starting)])
    case PublishOwn(id, writeOk) =>
      if id !in s.installers || s.installers[id].phase != Starting then s
      else
        var (file, r) := Published(s.disk.fence, s.installers[id].Desired(), writeOk);
        WithPhase(s.(disk := s.disk.(fence := file)), id, if r.Winner? && r.current then Fenced else Done)
    case CheckMarker(id) =>
      if id !in s.installers || s.installers[id].phase != Fenced then s else AfterMarker(s, id, Preparing)
    case Stage(id, stageOk) =>
      if id !in s.installers || s.installers[id].phase != Preparing then s
      else AfterMarker(s, id, if stageOk then ReadyToCommit else Done)
    case Commit(id, io) =>
      if id !in s.installers || s.installers[id].phase != ReadyToCommit then s
      else
        var i := s.installers[id];
        var disk := Committed(s.disk, i.Desired(), i.model, i.artifact, io).0;
        WithPhase(System(disk, s.installers, if Puts(s, id, io) then s.commits + [i.Desired()] else s.commits), id, Done)
    case Stop(id) =>
      if id !in s.installers then s else WithPhase(s, id, Done)
    case PublishOther(desired, writeOk) =>
      s.(disk := s.disk.(fence := Published(s.disk.fence, desired, writeOk).0))
  }

  function Run(s: System, evs: seq<Event>): System
    decreases |evs|
  {
    if evs == [] then s else Run(Next(s, evs[0]), evs[1..])
  }

  // ----- Fences only move forward -----

  /** `f` was overtaken by, or still is, the stored fence; equal non-zero revisions mean equal fences. */
  predicate Behind(f: Fence, file: FenceFile) {
    file.Stored? && f.revision <= file.fence.revision && (f.revision == file.fence.revision != 0 ==> f == file.fence)
  }

  lemma StepForward(s: System, e: Event, f: Fence)
    requires Behind(f, s.disk.fence)
    ensures Behind(f, Next(s, e).disk.fence)
  {
  }

  /** The revision never decreases, and at a revision other than 0 the fingerprint never changes. */
  lemma {:induction false} FenceNeverGoesBack(s: System, evs: seq<Event>, f: Fence)
    requires Behind(f, s.disk.fence)
    ensures Behind(f, Run(s, evs).disk.fence)
    decreases |evs|
  {
    if evs != [] {
      StepForward(s, evs[0], f);
      FenceNeverGoesBack(Next(s, evs[0]), evs[1..], f);
    }
  }

  /** Revision 0, used by installs outside the reconciler, has no such order. */
  lemma RevisionZeroFlips(a: Artifact, b: Artifact, dir: Option<Content>)
    requires a != b
    ensures var fa, fb := Fence(0, OfArtifact(a)), Fence(0, OfArtifact(b));
            var s := System(Disk(Stored(fa), dir), map[], []);
            Run(s, [PublishOther(fb, true)]).disk.fence == Stored(fb) &&
            Run(s, [PublishOther(fb, true), PublishOther(fa, true)]).disk.fence == Stored(fa)
  {
    var fa, fb := Fence(0, OfArtifact(a)), Fence(0, OfArtifact(b));
    var s := System(Disk(Stored(fa), dir), map[], []);
    var e1, e2 := PublishOther(fb, true), PublishOther(fa, true);
    assert [e1, e2][1..] == [e2] && [e2][1..] == [] && [e1][1..] == [];
    assert Run(Next(s, e1), [e2]) == Run(Next(Next(s, e1), e2), []);
    assert Run(s, [e1]) == Run(Next(s, e1), []);
  }

  /** A fence that was replaced by another can come back exactly when both are of revision 0. */
  lemma FlipsExactly(s: System, f: Fence, g: Fence)
    requires s.disk.fence == Stored(f) && f != g
    ensures (exists evs, more :: Run(s, evs).disk.fence == Stored(g) && Run(Run(s, evs), more).disk.fence == Stored(f))
            <==> f.revision == 0 && g.revision == 0
  {
    if evs, more :| Run(s, evs).disk.fence == Stored(g) && Run(Run(s, evs), more).disk.fence == Stored(f) {
      FenceNeverGoesBack(s, evs, f);
      FenceNeverGoesBack(Run(s, evs), more, g);
    }
    if f.revision == 0 && g.revision == 0 {
      var e1, e2 := PublishOther(g, true), PublishOther(f, true);
      RunOne(s, e1);
      RunOne(Next(s, e1), e2);
      assert Run(s, [e1]).disk.fence == Stored(g) && Run(Run(s, [e1]), [e2]).disk.fence == Stored(f);
    }
  }

  lemma RunOne(s: System, e: Event)
    ensures Run(s, [e]) == Next(s, e)
  {
    assert Run(Next(s, e), [e][1..]) == Next(s, e);
  }

  // ----- Commits -----

  /** The directory is replaced only by an installer whose own fence is the stored one. */
  lemma CommitsUnderOwnFence(s: System, e: Event)
    ensures Next(s, e).commits != s.commits ==>
            && e.Commit? && e.id in s.installers
            && s.disk.fence == Stored(s.installers[e.id].Desired())
            && Next(s, e).commits == s.commits + [s.installers[e.id].Desired()]
            && MarkerMatches(Next(s, e).disk.dir, s.installers[e.id].model, s.installers[e.id].artifact)
    ensures Next(s, e).commits == s.commits ==> Next(s, e).disk.dir == s.disk.dir || Next(s, e).disk.dir == None
  {
    if e.Commit? && e.id in s.installers && s.installers[e.id].phase == ReadyToCommit {
      var i := s.installers[e.id];
      var staged := Staged(i.Desired(), i.model, i.artifact);
      var (disk, r) := Committed(s.disk, i.Desired(), i.model, i.artifact, e.io);
      assert s.disk.dir == Some(staged) ==> MarkerMatches(s.disk.dir, i.model, i.artifact);
    }
  }

  ghost predicate Ordered(commits: seq<Fence>) {
    forall i, j :: 0 <= i < j < |commits| ==>
      && commits[i].revision <= commits[j].revision
      && (commits[i].revision == commits[j].revision != 0 ==> commits[i] == commits[j])
  }

  /** What was installed last is what is there, unless the directory was lost on the way. */
  ghost predicate Inv(s: System) {
    && (forall c <- s.commits :: Behind(c, s.disk.fence))
    && Ordered(s.commits)
    && (s.disk.dir.Some? && s.disk.dir.value.origin.Some?
        ==> s.commits != [] && s.disk.dir.value.origin.value == s.commits[|s.commits| - 1])
  }

  lemma StepKeepsInv(s: System, e: Event)
    requires Inv(s)
    ensures Inv(Next(s, e))
  {
    var t := Next(s, e);
    CommitsUnderOwnFence(s, e);
    forall c <- t.commits ensures Behind(c, t.disk.fence) {
      if c in s.commits {
        StepForward(s, e, c);
      }
    }
    if t.commits != s.commits {
      var last := s.installers[e.id].Desired();
      forall i | 0 <= i < |s.commits| ensures Behind(s.commits[i], Stored(last)) {
        assert s.commits[i] in s.commits;
      }
    }
  }

  lemma {:induction false} CommitsInOrder(s: System, evs: seq<Event>)
    requires Inv(s)
    ensures Inv(Run(s, evs))
    decreases |evs|
  {
    if evs != [] {
      StepKeepsInv(s, evs[0]);
      CommitsInOrder(Next(s, evs[0]), evs[1..]);
    }
  }

  /**
   Once a fence is stored, whatever installers do afterwards: every later replacement of the
   directory is by an equal or higher revision, and by the very same fence when the revision
   is equal and not 0; content that is neither of those is content that was already there.
   */
  lemma {:induction false} NoLowerRevisionInstalls(s: System, evs: seq<Event>, f: Fence)
    requires Behind(f, s.disk.fence)
    ensures var t := Run(s, evs);
            && s.commits <= t.commits
            && (forall k :: |s.commits| <= k < |t.commits| ==> Behind(f, Stored(t.commits[k])))
            && (t.disk.dir.None? || t.disk.dir == s.disk.dir
                || (t.disk.dir.value.origin.Some? && Behind(f, Stored(t.disk.dir.value.origin.value))))
    decreases |evs|
  {
    if evs != [] {
      var t := Next(s, evs[0]);
      CommitsUnderOwnFence(s, evs[0]);
      StepForward(s, evs[0], f);
      NoLowerRevisionInstalls(t, evs[1..], f);
      var u := Run(t, evs[1..]);
      forall k | |s.commits| <= k < |u.commits| ensures Behind(f, Stored(u.commits[k])) {
        if k < |t.commits| {
          assert u.commits[k] == t.commits[k];
        }
      }
      if t.commits != s.commits && u.disk.dir == t.disk.dir {
        assert t.disk.dir.value.origin == Some(s.installers[evs[0].id].Desired());
      }
    }
  }

  /** An overtaken installer gets no further than its commit, which leaves the disk alone. */
  lemma OvertakenInstallerLoses(s: System, evs: seq<Event>, id: nat, io: Io)
    requires id in s.installers && s.disk.fence.Stored? && s.disk.fence.fence.revision > s.installers[id].revision
    ensures var t := Run(s, evs);
            var i := s.installers[id];
            Committed(t.disk, i.Desired(), i.model, i.artifact, io) == (t.disk, Superseded)
  {
    FenceNeverGoesBack(s, evs, s.disk.fence.fence);
  }

  /** A commit installs exactly when its fence is current, it is needed, and nothing fails. */
  lemma CommitInstallsExactly(disk: Disk, desired: Fence, model: string, artifact: Artifact, io: Io)
    ensures Committed(disk, desired, model, artifact, io).1 == Installed <==>
            && disk.fence == Stored(desired)
            && (disk.dir.Some? ==> disk.dir.value.marker !in [UnreadableMarker, Marker(model, artifact)])
            && !io.cancelledBeforeMarker && io.markerOk && !io.cancelledBeforeReplace && io.statOk && io.moveInOk
            && (disk.dir.Some? ==> io.backupOk && io.moveAsideOk && !io.crashAfterMoveAside && io.cleanupOk)
    ensures Committed(disk, desired, model, artifact, io).1 == Installed ==>
            Committed(disk, desired, model, artifact, io).0 == Disk(Stored(desired), Some(Content(Marker(model, artifact), Some(desired))))
  {
  }

  /** Nothing is done for another's fence, nor for a directory that has the artifact already. */
  lemma CommitStandsBackExactly(disk: Disk, desired: Fence, model: string, artifact: Artifact, io: Io)
    ensures var (after, r) := Committed(disk, desired, model, artifact, io);
            && (r == Superseded <==> disk.fence == NoFence || (disk.fence.Stored? && disk.fence.fence != desired))
            && (r == AlreadyInstalled <==>
                  disk.fence == Stored(desired) && disk.dir.Some? && disk.dir.value.marker == Marker(model, artifact))
            && (r in {Superseded, AlreadyInstalled} ==> after == disk)
  {
  }

  predicate Smooth(io: Io) {
    && !io.cancelledBeforeMarker && !io.cancelledBeforeReplace && !io.crashAfterMoveAside
    && io.markerOk && io.statOk && io.backupOk && io.moveAsideOk && io.moveInOk && io.cleanupOk
  }

  /** No fence, the same one, one of a lower revision, or both of revision 0. */
  predicate MayReplace(file: FenceFile, own: Fence) {
    || file == NoFence
    || file == Stored(own)
    || (file.Stored? && file.fence.revision < own.revision)
    || (file.Stored? && file.fence.revision == 0 == own.revision)
  }

  /** The events of one install from beginning to end. */
  function WholeInstall(id: nat, revision: int, model: string, artifact: Artifact, io: Io): seq<Event> {
    [Begin(id, revision, model, artifact), PublishOwn(id, true), CheckMarker(id), Stage(id, true), Commit(id, io)]
  }

  /**
   An install that nothing disturbs ends with its artifact in the directory, exactly when no
   fence is stored that it may not replace and the marker there can be read.
   */
  lemma UndisturbedInstallExactly(s: System, id: nat, revision: int, model: string, artifact: Artifact, io: Io)
    requires id !in s.installers && Smooth(io)
    ensures var own := Fence(revision, OfArtifact(artifact));
            var t := Run(s, WholeInstall(id, revision, model, artifact, io));
            (t.disk.fence == Stored(own) && t.disk.dir.Some? && t.disk.dir.value.marker == Marker(model, artifact)) <==>
            (MayReplace(s.disk.fence, own) && (s.disk.dir.Some? ==> s.disk.dir.value.marker != UnreadableMarker))
  {
    RunFive(s, Begin(id, revision, model, artifact), PublishOwn(id, true), CheckMarker(id), Stage(id, true), Commit(id, io));
  }

  lemma RunFive(s: System, a: Event, b: Event, c: Event, d: Event, e: Event)
    ensures Run(s, [a, b, c, d, e]) == Next(Next(Next(Next(Next(s, a), b), c), d), e)
  {
    hide Next;
    var s1, s4 := Next(s, a), Next(Next(Next(Next(s, a), b), c), d);
    assert [a, b, c, d, e][1..] == [b, c, d, e] && [b, c, d, e][1..] == [c, d, e];
    assert [c, d, e][1..] == [d, e] && [d, e][1..] == [e];
    assert Run(s1, [b, c, d, e]) == Run(Next(s1, b), [c, d, e]);
    assert Run(Next(s1, b), [c, d, e]) == Run(Next(Next(s1, b), c), [d, e]) == Run(s4, [e]);
    RunOne(s4, e);
  }

  /** The commit is due, and the old directory has been moved aside. */
  predicate MovesAside(disk: Disk, desired: Fence, model: string, artifact: Artifact, io: Io) {
    && disk.fence == Stored(desired) && disk.dir.Some?
    && !MarkerUnreadable(disk.dir) && !MarkerMatches(disk.dir, model, artifact)
    && !io.cancelledBeforeMarker && io.markerOk && !io.cancelledBeforeReplace
    && io.statOk && io.backupOk && io.moveAsideOk && !io.crashAfterMoveAside
  }

  /**
   A commit that reports failure leaves the disk as it was, except when the new copy is in
   place and the old one cannot be deleted, or the new one cannot be moved in and the old one
   cannot be moved back.
   */
  lemma FailedCommitKeepsExactly(disk: Disk, desired: Fence, model: string, artifact: Artifact, io: Io)
    ensures var (after, r) := Committed(disk, desired, model, artifact, io);
            r == CommitFailed ==>
              (after == disk <==>
                !(MovesAside(disk, desired, model, artifact, io) && if io.moveInOk then !io.cleanupOk else !io.restoreOk))
  {
    assert MarkerMatches(Some(Staged(desired, model, artifact)), model, artifact);
  }

  /** The first of the two: failure is reported, and the new copy is in place. */
  lemma FailedCommitReplacesExactly(disk: Disk, desired: Fence, model: string, artifact: Artifact, io: Io)
    ensures var (after, r) := Committed(disk, desired, model, artifact, io);
            r == CommitFailed && after != disk && after.dir == Some(Staged(desired, model, artifact)) <==>
            MovesAside(disk, desired, model, artifact, io) && io.moveInOk && !io.cleanupOk
  {
    assert MarkerMatches(Some(Staged(desired, model, artifact)), model, artifact);
  }

  /** The second: failure is reported, and nothing is in place any more. */
  lemma FailedCommitLosesExactly(disk: Disk, desired: Fence, model: string, artifact: Artifact, io: Io)
    ensures var (after, r) := Committed(disk, desired, model, artifact, io);
            r == CommitFailed && after != disk && after.dir == None <==>
            MovesAside(disk, desired, model, artifact, io) && !io.moveInOk && !io.restoreOk
  {
    assert MarkerMatches(Some(Staged(desired, model, artifact)), model, artifact);
  }

  /** A failed deletion of the old copy is reported as a failed install although the new copy is in place. */
  lemma FailedCleanupStillReplaces(disk: Disk, desired: Fence, model: string, artifact: Artifact, io: Io)
    requires disk.fence == Stored(desired) && disk.dir.Some? && !MarkerUnreadable(disk.dir)
    requires !MarkerMatches(disk.dir, model, artifact)
    requires io == Io(false, true, false, true, true, true, false, true, io.restoreOk, false)
    ensures Committed(disk, desired, model, artifact, io) == (disk.(dir := Some(Staged(desired, model, artifact))), CommitFailed)
  {
  }

  /** A directory that can be moved neither in nor back is gone. */
  lemma FailedRestoreLosesDirectory(disk: Disk, desired: Fence, model: string, artifact: Artifact, io: Io)
    requires disk.fence == Stored(desired) && disk.dir.Some? && !MarkerUnreadable(disk.dir)
    requires !MarkerMatches(disk.dir, model, artifact)
    requires io == Io(false, true, false, true, true, true, false, false, false, io.cleanupOk)
    ensures Committed(disk, desired, model, artifact, io) == (disk.(dir := None), CommitFailed)
  {
  }
}
