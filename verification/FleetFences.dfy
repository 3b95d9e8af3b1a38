/**
 Configuration revisions and install fences end to end: gateways name configurations by
 revisions from one store, agents fetch them, maybe long before they act on them, and publish
 fences in model roots that any number of agents share.
 */
module FleetFences {

  import opened Basics
  import opened ArtifactFences
  import opened ArtifactReconcile
  import opened GatewayConfig
  import CM = ConfigManagers
  import opened ModelIdentities

  // ----- What the gateway answers (`internal/gateway/server.go`) -----

  function MatchingTags(cfg: Config, rawTags: seq<string>): set<string> {
    set raw | raw in rawTags && TrimSpace(raw) != "" && TrimSpace(raw) in cfg.policies :: TrimSpace(raw)
  }

  method MatchedTag(cfg: Config, rawTags: seq<string>) returns (r: Option<string>)
    ensures r.Some? ==> MatchingTags(cfg, rawTags) == {r.value} && r.value in cfg.policies
    ensures r.None? ==> forall tag :: MatchingTags(cfg, rawTags) != {tag}
  {
    var matches: set<string> := {};
    for i := 0 to |rawTags|
      invariant matches == MatchingTags(cfg, rawTags[..i])
    {
      assert rawTags[..i + 1] == rawTags[..i] + [rawTags[i]];
      var tag := TrimSpace(rawTags[i]);
      if tag == "" || tag !in cfg.policies {
        continue;
      }
      matches := matches + {tag};
    }
    assert rawTags[..|rawTags|] == rawTags;
    if |matches| != 1 {
      return None;
    }
    var tag :| tag in matches;
    assert |matches - {tag}| == 0;
    return Some(tag);
  }

  function Told(cfg: Config, tag: string): map<string, Model> {
    map name | name in Items(PolicyAt(cfg, tag).allowed) && name in cfg.models :: cfg.models[name]
  }

  /** The reply for a tag under the configuration a revision names. */
  ghost predicate Answers(live: Config, revision: int, tag: string, id: string -> string, reply: Reply) {
    var cfg := Active(live);
    && tag in cfg.policies
    && reply.revision == revision && reply.allowed == Items(cfg.policies[tag].allowed) && reply.models == Told(cfg, tag)
    && reply.desiredDirs.Some? && Lists(DesiredNames(cfg), DirOf(cfg), id, reply.desiredDirs.value)
  }

  /** One snapshot of configuration and revision is answered from. */
  method HandleAgentConfig(live: Config, revision: int, rawTags: seq<string>,
                           id: string -> string) returns (r: Option<Reply>)
    ensures r.Some? ==> exists tag :: MatchingTags(Active(live), rawTags) == {tag} && Answers(live, revision, tag, id, r.value)
    ensures r.None? ==> forall tag :: MatchingTags(Active(live), rawTags) != {tag}
  {
    hide ResolvedModelDir, MatchingTags, Active;
    var cfg := Active(live);
    var tag := MatchedTag(cfg, rawTags);
    if tag.None? {
      return None;
    }
    var allowed := Items(cfg.policies[tag.value].allowed);
    var models: map<string, Model> := map[];
    for i := 0 to |allowed|
      invariant models == map name | name in allowed[..i] && name in cfg.models :: cfg.models[name]
    {
      assert allowed[..i + 1] == allowed[..i] + [allowed[i]];
      if allowed[i] in cfg.models {
        models := models[allowed[i] := cfg.models[allowed[i]]];
      }
    }
    assert allowed[..|allowed|] == allowed;
    var dirs := DesiredModelDirs(cfg, id);
    r := Some(Reply(revision, allowed, models, Some(dirs)));
    assert Answers(live, revision, tag.value, id, r.value);
  }

  /** A reply names exactly the models its tag allows that are not disabled, with their definitions. */
  lemma RepliesAreActive(live: Config, revision: int, tag: string, id: string -> string, reply: Reply)
    requires Answers(live, revision, tag, id, reply)
    ensures forall name :: name in reply.allowed <==>
              tag in live.policies && name in Items(live.policies[tag].allowed) && name in live.models && !live.models[name].disabled
    ensures reply.models.Keys == (set name <- reply.allowed)
    ensures forall name <- reply.models :: reply.models[name] == live.models[name]
  {
    KeepKeeps(Items(live.policies[tag].allowed), ActiveModels(live));
  }

  // ----- The fleet -----

  /** A directory of a model root; hosts differ in how they identify directories. */
  datatype Place = Place(root: nat, identity: string)

  /** `revision` is the stored one, `named` what each committed revision named. */
  datatype Fleet = Fleet(revision: int, named: map<int, Config>, fences: map<Place, FenceFile>)

  datatype Event =
    | Name(cfg: Config)
    | Waste
    | Publish(root: nat, identity: string, tag: string, reply: Reply, fence: Fence, writeOk: bool)
    | PublishUnversioned(root: nat, identity: string, fingerprint: Fingerprint, writeOk: bool)

  const EMPTY_FLEET := Fleet(0, map[], map[])

  function FenceOf(s: Fleet, place: Place): FenceFile {
    if place in s.fences then s.fences[place] else NoFence
  }

  function AfterPublish(s: Fleet, place: Place, fence: Fence, writeOk: bool): Fleet {
    s.(fences := s.fences[place := Published(FenceOf(s, place), fence, writeOk).0])
  }

  /** The agent acts on a reply the gateway gave at some time, and publishes what that reply allows. */
  ghost predicate CanPublish(s: Fleet, e: Event, gateway: string -> string, host: nat -> string -> string)
    requires e.Publish?
  {
    && e.reply.revision in s.named && Answers(s.named[e.reply.revision], e.reply.revision, e.tag, gateway, e.reply)
    && LegalFence(e.reply, host(e.root), e.identity, e.fence)
  }

  /** Gateways only take configurations that pass validation on their own system. */
  ghost function Next(s: Fleet, e: Event, gateway: string -> string, host: nat -> string -> string): Fleet {
    match e
    case Name(cfg) =>
      if IdentitiesValid(cfg, gateway) then s.(revision := s.revision + 1, named := s.named[s.revision + 1 := cfg]) else s
    case Waste => s.(revision := s.revision + 1)
    case Publish(root, identity, _, _, fence, writeOk) =>
      if CanPublish(s, e, gateway, host) then AfterPublish(s, Place(root, identity), fence, writeOk) else s
    case PublishUnversioned(root, identity, fingerprint, writeOk) =>
      AfterPublish(s, Place(root, identity), Fence(0, fingerprint), writeOk)
  }

  ghost function Run(s: Fleet, evs: seq<Event>, gateway: string -> string, host: nat -> string -> string): Fleet
    decreases |evs|
  {
    if evs == [] then s else Run(Next(s, evs[0], gateway, host), evs[1..], gateway, host)
  }

  // ----- What a stored fence says -----

  /** The fingerprint is that of a wanted model in the directory, or of a removal that no tag objects to. */
  ghost predicate Fits(cfg: Config, id: string -> string, identity: string, fingerprint: Fingerprint) {
    match fingerprint
    case OfArtifact(a) => exists name <- DesiredNames(cfg) :: id(DirOf(cfg)(name)) == identity && cfg.models[name].artifact == a
    case Removed => forall name <- DesiredNames(cfg) :: id(DirOf(cfg)(name)) != identity
  }

  /** No two wanted models with different artifacts share a directory on the system. */
  ghost predicate Coherent(cfg: Config, id: string -> string) {
    forall a <- DesiredNames(cfg), b <- DesiredNames(cfg) ::
      id(DirOf(cfg)(a)) == id(DirOf(cfg)(b)) ==> cfg.models[a].artifact == cfg.models[b].artifact
  }

  lemma FitsUniquely(cfg: Config, id: string -> string, identity: string, f: Fingerprint, g: Fingerprint)
    requires Coherent(cfg, id) && Fits(cfg, id, identity, f) && Fits(cfg, id, identity, g)
    ensures f == g
  {
  }

  /** A reply, read on any system, allows only fences that fit the configuration. */
  lemma LegalFits(live: Config, tag: string, gateway: string -> string, reply: Reply, id: string -> string,
                  identity: string, f: Fence)
    requires IdentitiesValid(live, gateway) && Answers(live, reply.revision, tag, gateway, reply)
    requires LegalFence(reply, id, identity, f)
    ensures f.revision == reply.revision && Fits(Active(live), id, identity, f.fingerprint)
  {
    hide ResolvedModelDir;
    var cfg := Active(live);
    if OwnFence(reply, id, identity, f) {
      var name :| name in reply.allowed && name in reply.models && id(KeyFor(reply, name).dir) == identity
          && f == KeyFence(KeyFor(reply, name));
      assert name in DesiredNames(cfg);
    } else {
      ActiveStaysDistinct(live, gateway);
      ListsEveryDir(DesiredNames(cfg), DirOf(cfg), gateway, reply.desiredDirs.value);
    }
  }

  lemma ActiveStaysDistinct(live: Config, id: string -> string)
    requires IdentitiesValid(live, id)
    ensures forall a <- DesiredNames(Active(live)), b <- DesiredNames(Active(live)) ::
              id(DirOf(Active(live))(a)) == id(DirOf(Active(live))(b)) ==> a == b
  {
    forall a <- DesiredNames(Active(live)) ensures id(DirOf(Active(live))(a)) == ModelIdentity(live, a, id) && a in live.models {
    }
  }

  // ----- A gateway names what it commits -----

  /** The fleet counts with the gateway's store, and knows what its version names. */
  ghost predicate Tracks(s: Fleet, m: CM.ConfigManager)
    reads m, m.store
  {
    s.revision == m.store.revision && m.version in s.named && s.named[m.version] == m.cfg
  }

  datatype Change =
    | ApplyFile(decoded: Option<Config>)
    | Promote(name: string, target: string)
    | Rollback(archiveId: string, name: string, target: string)

  /** Loading a file and preparing a transaction validate identities. */
  ghost predicate Validates(m: CM.ConfigManager, c: Change, gateway: string -> string) {
    && (c.ApplyFile? && c.decoded.Some? ==> IdentitiesValid(c.decoded.value, gateway))
    && forall cfg :: m.isValid(cfg) ==> IdentitiesValid(cfg, gateway)
  }

  /** A gateway that starts names its configuration; one that cannot start may waste a revision. */
  method StartNames(initial: Config, file: Option<Config>, store: CM.ConfigRevisionStore, isValid: Config -> bool,
                    lossyArchives: bool, pinAttempts: bool, world: CM.World, ghost s: Fleet, gateway: string -> string,
                    ghost host: nat -> string -> string)
    returns (m: Option<CM.ConfigManager>, ghost t: Fleet)
    requires s.revision == store.revision && NamesOk(s, gateway) && IdentitiesValid(initial, gateway)
    modifies store
    ensures t.revision == store.revision && NamesOk(t, gateway)
    ensures m.Some? ==>
              && m.value.store == store && m.value.Valid() && Tracks(t, m.value)
              && m.value.version !in s.named && t == Next(s, Name(m.value.cfg), gateway, host)
    ensures m.None? ==> t == s || t == Next(s, Waste, gateway, host)
  {
    hide IdentitiesValid;
    m := CM.ConfigManager.Start(initial, file, store, isValid, lossyArchives, pinAttempts, world);
    if m.Some? {
      SameIdentities(initial, m.value.cfg, gateway);
      t := Next(s, Name(m.value.cfg), gateway, host);
    } else {
      t := if store.revision == s.revision then s else Next(s, Waste, gateway, host);
    }
  }

  /**
   What a gateway commits is named in the fleet, under a revision that named nothing so far.
   Where it commits nothing, nothing is named, though a revision may be wasted.
   */
  method ChangeNames(m: CM.ConfigManager, c: Change, world: CM.World, ghost s: Fleet, gateway: string -> string,
                     ghost host: nat -> string -> string)
    returns (ghost t: Fleet)
    requires m.Valid() && Tracks(s, m) && NamesOk(s, gateway) && Validates(m, c, gateway)
    modifies m, m.store
    ensures m.Valid() && Tracks(t, m) && NamesOk(t, gateway)
    ensures if m.version == old(m.version) then m.cfg == old(m.cfg) && (t == s || t == Next(s, Waste, gateway, host))
            else m.version !in s.named && t == Next(s, Name(m.cfg), gateway, host)
  {
    hide IdentitiesValid, CM.PromotionError, CM.RollbackError, CM.Promoted, CM.RolledBack, CM.ArchiveOf, CM.FetchedFrom;
    match c {
      case ApplyFile(decoded) =>
        var ok := m.Apply(decoded, world);
        if m.version != old(m.version) {
          SameIdentities(decoded.value, m.cfg, gateway);
        }
      case Promote(name, target) =>
        var done := m.PromoteServiceName(name, target, world);
        if done.Done? {
          SameIdentities(CM.Reload(CM.WithNamespace(old(m.fileCfg), m.cfg)), m.cfg, gateway);
        }
      case Rollback(archiveId, name, target) =>
        var done := m.RollbackServiceName(archiveId, name, target, world);
        if done.Done? {
          SameIdentities(CM.Reload(CM.WithNamespace(old(m.fileCfg), m.cfg)), m.cfg, gateway);
        }
    }
    t := if m.version != old(m.version) then Next(s, Name(m.cfg), gateway, host)
         else if m.store.revision != old(m.store.revision) then Next(s, Waste, gateway, host)
         else s;
  }

  /** Validation of identities looks at aliases, directories and artifacts only. */
  lemma SameIdentities(a: Config, b: Config, id: string -> string)
    requires a.models.Keys == b.models.Keys && a.aliases == b.aliases && IdentitiesValid(a, id)
    requires forall name <- a.models ::
        a.models[name].modelDir == b.models[name].modelDir && a.models[name].artifact == b.models[name].artifact
    ensures IdentitiesValid(b, id)
  {
    hide SourceBasename, TrimSpace, ResolvedModelDir, SafeDirName;
    assert SourceBasenames(a) == SourceBasenames(b) by {
      SameBasenames(a, b);
    }
    forall name <- b.models ensures ModelDirOk(b, name, id) && ModelIdentity(a, name, id) == ModelIdentity(b, name, id) {
      assert ModelDirOk(a, name, id);
      SameDir(name, a.models[name], b.models[name]);
    }
    forall alias <- b.aliases ensures AliasOk(b, alias) {
      assert AliasOk(a, alias);
    }
  }

  lemma SameDir(name: string, a: Model, b: Model)
    requires a.modelDir == b.modelDir
    ensures ResolvedModelDir(name, a) == ResolvedModelDir(name, b)
  {
  }

  lemma SameBasenames(a: Config, b: Config)
    requires a.models.Keys == b.models.Keys
    requires forall name <- a.models :: a.models[name].artifact == b.models[name].artifact
    ensures SourceBasenames(a) == SourceBasenames(b)
  {
  }

  // ----- Invariants -----

  /** Revisions in use are positive, not above the stored one, and name validated configurations. */
  ghost predicate NamesOk(s: Fleet, gateway: string -> string) {
    0 <= s.revision && forall r <- s.named :: 0 < r <= s.revision && IdentitiesValid(s.named[r], gateway)
  }

  ghost predicate FenceOk(s: Fleet, place: Place, host: nat -> string -> string) {
    var file := FenceOf(s, place);
    file.Stored? && file.fence.revision != 0 ==>
      file.fence.revision in s.named
          && Fits(Active(s.named[file.fence.revision]), host(place.root), place.identity, file.fence.fingerprint)
  }

  ghost predicate Inv(s: Fleet, gateway: string -> string, host: nat -> string -> string) {
    NamesOk(s, gateway) && forall place <- s.fences :: FenceOk(s, place, host)
  }

  lemma StepKeepsInv(s: Fleet, e: Event, gateway: string -> string, host: nat -> string -> string)
    requires Inv(s, gateway, host)
    ensures Inv(Next(s, e, gateway, host), gateway, host)
    ensures forall r <- s.named :: r in Next(s, e, gateway, host).named && Next(s, e, gateway, host).named[r] == s.named[r]
  {
    var t := Next(s, e, gateway, host);
    if e.Publish? && CanPublish(s, e, gateway, host) {
      LegalFits(s.named[e.reply.revision], e.tag, gateway, e.reply, host(e.root), e.identity, e.fence);
    }
    forall place <- t.fences ensures FenceOk(t, place, host) {
      assert place in s.fences ==> FenceOk(s, place, host);
    }
  }

  /** In every run each stored fence says what its revision's configuration says about its directory. */
  lemma {:induction false} FencesFollowTheirRevision(s: Fleet, evs: seq<Event>, gateway: string -> string,
                                                     host: nat -> string -> string)
    requires Inv(s, gateway, host)
    ensures Inv(Run(s, evs, gateway, host), gateway, host)
    ensures forall r <- s.named :: r in Run(s, evs, gateway, host).named && Run(s, evs, gateway, host).named[r] == s.named[r]
    decreases |evs|
  {
    if evs != [] {
      StepKeepsInv(s, evs[0], gateway, host);
      FencesFollowTheirRevision(Next(s, evs[0], gateway, host), evs[1..], gateway, host);
    }
  }

  /** A removal fence on disk is for a directory no tag wanted at its revision. */
  lemma TombstonesAreUnwanted(evs: seq<Event>, gateway: string -> string, host: nat -> string -> string, place: Place)
    ensures var s := Run(EMPTY_FLEET, evs, gateway, host);
            var file := FenceOf(s, place);
            file.Stored? && file.fence.revision != 0 && file.fence.fingerprint == Removed ==>
              && file.fence.revision in s.named
              && forall name <- DesiredNames(Active(s.named[file.fence.revision])) ::
                   host(place.root)(DirOf(Active(s.named[file.fence.revision]))(name)) != place.identity
  {
    FencesFollowTheirRevision(EMPTY_FLEET, evs, gateway, host);
    var s := Run(EMPTY_FLEET, evs, gateway, host);
    assert place in s.fences ==> FenceOk(s, place, host);
  }

  /** Whoever publishes under a revision loses only to a higher one. */
  lemma LosesOnlyToHigher(s: Fleet, e: Event, gateway: string -> string, host: nat -> string -> string)
    requires Inv(s, gateway, host) && e.Publish? && CanPublish(s, e, gateway, host)
    requires Coherent(Active(s.named[e.reply.revision]), host(e.root))
    ensures var r := Published(FenceOf(s, Place(e.root, e.identity)), e.fence, e.writeOk).1;
            r.Winner? && !r.current ==> r.fence.revision > e.reply.revision
  {
    hide ResolvedModelDir;
    var place := Place(e.root, e.identity);
    LegalFits(s.named[e.reply.revision], e.tag, gateway, e.reply, host(e.root), e.identity, e.fence);
    var file := FenceOf(s, place);
    if file.Stored? && file.fence.revision == e.reply.revision {
      assert FenceOk(s, place, host);
      FitsUniquely(Active(s.named[e.reply.revision]), host(e.root), e.identity, file.fence.fingerprint, e.fence.fingerprint);
    }
  }

  /** Agents of one revision never fence each other out, whatever their tags and however old their replies. */
  lemma AgentsAgree(evs: seq<Event>, e: Event, gateway: string -> string, host: nat -> string -> string)
    requires e.Publish? && CanPublish(Run(EMPTY_FLEET, evs, gateway, host), e, gateway, host)
    requires Coherent(Active(Run(EMPTY_FLEET, evs, gateway, host).named[e.reply.revision]), host(e.root))
    ensures var r := Published(FenceOf(Run(EMPTY_FLEET, evs, gateway, host), Place(e.root, e.identity)), e.fence, e.writeOk).1;
            r.Winner? && !r.current ==> r.fence.revision > e.reply.revision
  {
    FencesFollowTheirRevision(EMPTY_FLEET, evs, gateway, host);
    LosesOnlyToHigher(Run(EMPTY_FLEET, evs, gateway, host), e, gateway, host);
  }

  /** On the gateway's own system validation is enough. */
  lemma SameSystemIsCoherent(live: Config, id: string -> string)
    requires IdentitiesValid(live, id)
    ensures Coherent(Active(live), id)
  {
    ActiveStaysDistinct(live, id);
  }

  // ----- Systems that identify directories differently -----

  /** Two publications of one revision that want different fences for one directory. */
  ghost predicate Clash(s: Fleet, first: Event, second: Event, gateway: string -> string,
                        host: nat -> string -> string) {
    && first.Publish? && second.Publish? && CanPublish(s, first, gateway, host) && CanPublish(s, second, gateway, host)
    && first.root == second.root && first.identity == second.identity
    && first.reply.revision == second.reply.revision && first.fence != second.fence
  }

  /** Of two that clash, whoever comes first fences the other out. */
  lemma ClashFencesOut(s: Fleet, first: Event, second: Event, gateway: string -> string, host: nat -> string -> string)
    requires Clash(s, first, second, gateway, host) && first.reply.revision > 0 && first.writeOk
    requires FenceOf(s, Place(first.root, first.identity)) == NoFence
    ensures var t := Next(s, first, gateway, host);
            CanPublish(t, second, gateway, host) &&
            Published(FenceOf(t, Place(second.root, second.identity)), second.fence, second.writeOk).1 == Winner(first.fence, false)
  {
    hide Answers, ResolvedModelDir;
  }

  /** Some agent can publish the fence of a wanted model. */
  lemma WantedCanPublish(s: Fleet, r: int, live: Config, gateway: string -> string, dirs: seq<string>,
                         host: nat -> string -> string, root: nat, name: string)
    returns (e: Event)
    requires r in s.named && s.named[r] == live && name in DesiredNames(Active(live))
    requires Lists(DesiredNames(Active(live)), DirOf(Active(live)), gateway, dirs)
    ensures e.Publish? && CanPublish(s, e, gateway, host) && e.root == root && e.reply.revision == r && e.writeOk
    ensures e.identity == host(root)(DirOf(Active(live))(name))
    ensures e.fence == Fence(r, OfArtifact(Active(live).models[name].artifact))
  {
    var cfg := Active(live);
    var tag :| tag in cfg.policies && name in Items(PolicyAt(cfg, tag).allowed);
    hide Active, ResolvedModelDir;
    var reply := Reply(r, Items(cfg.policies[tag].allowed), Told(cfg, tag), Some(dirs));
    assert Answers(live, r, tag, gateway, reply);
    e := Publish(root, host(root)(KeyFor(reply, name).dir), tag, reply, KeyFence(KeyFor(reply, name)), true);
    assert OwnFence(reply, host(root), e.identity, e.fence);
  }

  /** Exactly the incoherent configurations let agents of one revision clash; `dirs` is the gateway's list. */
  lemma ClashExactly(s: Fleet, r: int, live: Config, gateway: string -> string, dirs: seq<string>,
                     host: nat -> string -> string, root: nat)
    requires r in s.named && s.named[r] == live && IdentitiesValid(live, gateway)
    requires Lists(DesiredNames(Active(live)), DirOf(Active(live)), gateway, dirs)
    ensures Coherent(Active(live), host(root)) <==>
            !exists first: Event, second: Event ::
                Clash(s, first, second, gateway, host) && first.root == root && first.reply.revision == r
  {
    hide ResolvedModelDir, Active, IdentitiesValid, Answers;
    if !Coherent(Active(live), host(root)) {
      var a, b :| a in DesiredNames(Active(live)) && b in DesiredNames(Active(live))
        && host(root)(DirOf(Active(live))(a)) == host(root)(DirOf(Active(live))(b))
        && Active(live).models[a].artifact != Active(live).models[b].artifact;
      var first := WantedCanPublish(s, r, live, gateway, dirs, host, root, a);
      var second := WantedCanPublish(s, r, live, gateway, dirs, host, root, b);
      assert Clash(s, first, second, gateway, host);
    }
    forall first: Event, second: Event | Clash(s, first, second, gateway, host) && first.root == root && first.reply.revision == r
      ensures !Coherent(Active(live), host(root))
    {
      LegalFits(live, first.tag, gateway, first.reply, host(root), first.identity, first.fence);
      LegalFits(live, second.tag, gateway, second.reply, host(root), second.identity, second.fence);
      if Coherent(Active(live), host(root)) {
        FitsUniquely(Active(live), host(root), first.identity, first.fence.fingerprint, second.fence.fingerprint);
        assert false;
      }
    }
  }

  /** Every wanted directory is a safe name. */
  ghost predicate SafeDirs(cfg: Config) {
    forall name <- DesiredNames(cfg) :: SafeDirName(DirOf(cfg)(name))
  }

  /**
   Directories named safely, gateway on Unix, agents on Windows: their replies are coherent
   exactly when no two wanted directories with different artifacts differ in case only.
   */
  lemma WindowsCoherentExactly(cfg: Config, windows: Platform)
    requires windows.windows && SafeDirs(cfg)
    ensures Coherent(cfg, IdentityOn(windows)) <==>
            forall a <- DesiredNames(cfg), b <- DesiredNames(cfg) ::
              Lower(DirOf(cfg)(a), windows) == Lower(DirOf(cfg)(b), windows) ==> cfg.models[a].artifact == cfg.models[b].artifact
  {
    forall name <- DesiredNames(cfg) ensures IdentityOn(windows)(DirOf(cfg)(name)) == Lower(DirOf(cfg)(name), windows) {
      SafeNameIdentity(DirOf(cfg)(name), windows);
    }
  }
}
