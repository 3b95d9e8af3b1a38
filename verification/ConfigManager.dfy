/**
 The gateway's live configuration: revisions, hot apply, and service-name promotion and
 rollback (`internal/gateway/config_manager.go`, `config_revision_store.go`,
 `service_name_promotion.go`).

 YAML decoding is foreign: a method receives the decoded file. `Reload` is what writing a
 configuration and loading it again does to the fields modelled here.
 */
module ConfigManagers {

  import opened Basics
  import opened GatewayConfig

  const MAX_INT64 := 0x7fff_ffff_ffff_ffff

  // ----- Revisions -----

  datatype Allocation = Allocated(revision: int) | NotAllocated

  /**
   Hands out revisions; the stored one is replaced before the new one is returned. Giving the
   lock back comes after that, and when it fails the revision is spent on nobody.
   */
  class ConfigRevisionStore {
    var revision: int

    constructor (revision: int)
      ensures this.revision == revision
    {
      this.revision := revision;
    }

    method Allocate(contextOk: bool, loadOk: bool, saveOk: bool, unlockOk: bool) returns (r: Allocation)
      modifies this
      ensures revision == if contextOk && loadOk && saveOk && old(revision) != MAX_INT64 then old(revision) + 1 else old(revision)
      ensures r == if unlockOk && revision != old(revision) then Allocated(revision) else NotAllocated
    {
      if !contextOk || !loadOk {
        return NotAllocated;
      }
      if revision == MAX_INT64 {
        return NotAllocated;
      }
      if !saveOk {
        return NotAllocated;
      }
      revision := revision + 1;
      if !unlockOk {
        return NotAllocated;
      }
      return Allocated(revision);
    }
  }

  // ----- Archives -----

  datatype Archive = Archive(
    serviceName: string, targetModel: string, model: Model, maxLoadedSet: bool,
    before: map<string, TagPolicy>, after: map<string, TagPolicy>, rolledBack: bool)

  /** The file store is JSON, which does not carry MaxLoadedSet inside the model. */
  function Fetched(a: Archive, lossy: bool): Archive {
    if lossy then a.(model := a.model.(maxLoadedSet := false)) else a
  }

  // ----- Promotion and rollback as functions of the configuration -----

  function Without(names: seq<string>, name: string): seq<string> {
    if names == [] then [] else (if names[0] == name then [] else [names[0]]) + Without(names[1..], name)
  }

  predicate Mentions(p: TagPolicy, name: string) {
    name in Items(p.allowed) || p.warmWhenIdle == name
  }

  function Stripped(p: TagPolicy, name: string): TagPolicy {
    p.(allowed := Names(Without(Items(p.allowed), name)), warmWhenIdle := if p.warmWhenIdle == name then "" else p.warmWhenIdle)
  }

  function Touched(policies: map<string, TagPolicy>, name: string): set<string> {
    set tag | tag in policies && Mentions(policies[tag], name)
  }

  function BeforePolicies(policies: map<string, TagPolicy>, name: string): map<string, TagPolicy> {
    map tag | tag in Touched(policies, name) :: policies[tag]
  }

  function AfterPolicies(policies: map<string, TagPolicy>, name: string): map<string, TagPolicy> {
    map tag | tag in Touched(policies, name) :: Stripped(policies[tag], name)
  }

  function Promoted(cfg: Config, name: string, target: string): Config {
    cfg.(models := cfg.models - {name}, aliases := cfg.aliases[name := target],
         policies := cfg.policies + AfterPolicies(cfg.policies, name))
  }

  function RolledBack(cfg: Config, a: Archive): Config {
    cfg.(models := cfg.models[a.serviceName := a.model.(maxLoadedSet := a.maxLoadedSet)], aliases := cfg.aliases - {a.serviceName},
         policies := cfg.policies + a.before)
  }

  function WithNamespace(file: Config, runtime: Config): Config {
    file.(models := runtime.models, aliases := runtime.aliases, policies := runtime.policies)
  }

  predicate SameNamespace(a: Config, b: Config) {
    a.models == b.models && a.aliases == b.aliases && a.policies == b.policies
  }

  /** Writing drops max_loaded when it is automatic; loading takes a present key as set. */
  function ReloadModel(m: Model): Model {
    if !m.maxLoadedSet && m.maxLoaded <= 0 then m.(maxLoaded := 0) else m.(maxLoadedSet := true)
  }

  function Reload(cfg: Config): Config {
    cfg.(models := map name | name in cfg.models :: ReloadModel(cfg.models[name]))
  }

  datatype Error =
    | PendingRestartConfig | InvalidRequest | OldModelMissing | OldModelEnabled | AliasExists | InvalidTarget
    | TargetMissing | TargetDisabled | Rejected | InvalidConfig | NoRevision | NoArchiveId | ArchiveFailed | PersistFailed
    | ArchiveUnavailable | ArchiveMismatch | NamespaceChanged | AliasChanged | PolicyChanged

  datatype Reply = Done(archiveId: string, version: int) | Failed(error: Error)

  /** The checks before a promotion, in the order they are made. */
  function PromotionError(cfg: Config, file: Config, name: string, target: string): Option<Error> {
    if !SameNamespace(cfg, file) then Some(PendingRestartConfig)
    else if name == "" || target == "" then Some(InvalidRequest)
    else if name !in cfg.models then Some(OldModelMissing)
    else if !cfg.models[name].disabled then Some(OldModelEnabled)
    else if name in cfg.aliases then Some(AliasExists)
    else if name == target then Some(InvalidTarget)
    else if target !in cfg.models then Some(TargetMissing)
    else if cfg.models[target].disabled then Some(TargetDisabled)
    else None
  }

  /** The checks before a rollback, in the order they are made. */
  function RollbackError(cfg: Config, file: Config, archive: Option<Archive>, name: string,
                         target: string): Option<Error> {
    if !SameNamespace(cfg, file) then Some(PendingRestartConfig)
    else if archive.None? || archive.value.rolledBack then Some(ArchiveUnavailable)
    else
      var a := archive.value;
      if a.serviceName != name || a.targetModel != target then Some(ArchiveMismatch)
      else if a.serviceName in cfg.models then Some(NamespaceChanged)
      else if (if a.serviceName in cfg.aliases then cfg.aliases[a.serviceName] else "") != a.targetModel then Some(AliasChanged)
      else if exists tag <- a.after :: PolicyAt(cfg, tag) != a.after[tag] then Some(PolicyChanged)
      else None
  }

  /** What the outside world answers during one transaction. */
  datatype World = World(
    validateOk: bool, contextOk: bool, loadOk: bool, saveOk: bool, unlockOk: bool, archiveId: Option<string>,
    putOk: bool, getOk: bool, deleteOk: bool, persistOk: bool)

  predicate RevisionOk(world: World, revision: int) {
    world.contextOk && world.loadOk && world.saveOk && world.unlockOk && revision != MAX_INT64
  }

  class ConfigManager {
    var cfg: Config
    var fileCfg: Config
    var version: int
    var persisted: Config
    var archives: map<string, Archive>
    const lossyArchives: bool
    const store: ConfigRevisionStore
    const isValid: Config -> bool
    const pinnedSettings: Settings
    const pinAttempts: bool

    /** Live configurations are copies, and the version was handed out by the store. */
    ghost predicate Valid()
      reads this, store
    {
      cfg == Clone(cfg) && fileCfg == Clone(fileCfg) && version <= store.revision
    }

    /** Nothing a reader of the live configuration can see has changed. */
    twostate predicate LiveUnchanged()
      reads this
    {
      cfg == old(cfg) && version == old(version)
    }

    /** A fresh revision names the new configuration. */
    twostate predicate Committed(next: Config)
      reads this, store
    {
      cfg == Clone(next) && version == store.revision && store.revision == old(store.revision) + 1
    }

    constructor (initial: Config, file: Config, store: ConfigRevisionStore, isValid: Config -> bool, lossyArchives: bool,
                 pinnedSettings: Settings, pinAttempts: bool)
      ensures this.store == store && cfg == Clone(initial) && fileCfg == Clone(file) && version == store.revision
      ensures Valid()
      ensures archives == map[] && persisted == file
      ensures this.isValid == isValid && this.lossyArchives == lossyArchives
    {
      CloneTwice(initial);
      CloneTwice(file);
      cfg, fileCfg, version, persisted := Clone(initial), Clone(file), store.revision, file;
      archives, this.lossyArchives := map[], lossyArchives;
      this.store, this.isValid := store, isValid;
      this.pinnedSettings, this.pinAttempts := pinnedSettings, pinAttempts;
    }

    /** A starting gateway takes a revision of its own for the configuration it was given. */
    static method Start(initial: Config, file: Option<Config>, store: ConfigRevisionStore, isValid: Config -> bool,
                        lossyArchives: bool, pinAttempts: bool, world: World)
      returns (m: Option<ConfigManager>)
      modifies store
      ensures m.Some? <==> world.contextOk && world.loadOk && world.saveOk && world.unlockOk && 0 <= old(store.revision) != MAX_INT64
      ensures old(store.revision) <= store.revision <= old(store.revision) + 1
      ensures m.Some? ==> fresh(m.value) && m.value.store == store && m.value.Valid()
      ensures m.Some? ==> m.value.cfg == Clone(initial) && m.value.version == store.revision == old(store.revision) + 1
    {
      var allocation := store.Allocate(world.contextOk, world.loadOk, world.saveOk, world.unlockOk);
      if allocation.NotAllocated? || allocation.revision <= 0 {
        return None;
      }
      var fileCfg := if file.Some? then file.value else initial;
      var manager := new ConfigManager(initial, fileCfg, store, isValid, lossyArchives, initial.settings, pinAttempts);
      return Some(manager);
    }

    function RuntimePinned(file: Config): Config {
      file.(settings := file.settings.(
        pinned := pinnedSettings.pinned,
        proxyAttempts := if pinAttempts then pinnedSettings.proxyAttempts else file.settings.proxyAttempts))
    }

    function NeedsGatewayRestart(file: Config): bool
      reads this
    {
      || cfg.settings.stores != file.settings.stores
      || cfg.settings.pinned != pinnedSettings.pinned
      || fileCfg.settings.pinned != file.settings.pinned
      || (pinAttempts && fileCfg.settings.proxyAttempts != file.settings.proxyAttempts)
    }

    /** Hot apply of a decoded file; None is a file that does not load. */
    method Apply(decoded: Option<Config>, world: World) returns (ok: bool)
      requires Valid()
      modifies this, store
      ensures Valid() && archives == old(archives) && old(store.revision) <= store.revision <= old(store.revision) + 1
      ensures ok <==> decoded.Some? && world.persistOk
                      && (old(NeedsGatewayRestart(decoded.value))
                          || (world.contextOk && world.loadOk && world.saveOk && world.unlockOk && old(store.revision) != MAX_INT64))
      ensures !ok ==> LiveUnchanged() && fileCfg == old(fileCfg)
      ensures ok ==> decoded.Some? && fileCfg == Clone(decoded.value) && persisted == decoded.value
      ensures cfg.settings.stores == old(cfg.settings.stores) && cfg.settings.pinned == old(cfg.settings.pinned)
      ensures ok ==>
                (version == old(version) <==>
                  || old(cfg.settings.stores) != decoded.value.settings.stores || old(cfg.settings.pinned) != pinnedSettings.pinned
                  || old(fileCfg.settings.pinned) != decoded.value.settings.pinned
                  || (pinAttempts && old(fileCfg.settings.proxyAttempts) != decoded.value.settings.proxyAttempts))
      ensures ok && version != old(version) ==>
                && cfg.settings.stores == decoded.value.settings.stores && cfg.settings.other == decoded.value.settings.other
                && cfg.models == decoded.value.models
                && cfg.settings.proxyAttempts == (if pinAttempts then pinnedSettings.proxyAttempts else decoded.value.settings.proxyAttempts)
      ensures ok ==> if old(NeedsGatewayRestart(decoded.value)) then LiveUnchanged() else Committed(RuntimePinned(decoded.value))
    {
      if decoded.None? {
        return false;
      }
      var file := decoded.value;
      var runtime := RuntimePinned(file);
      var needsRestart := NeedsGatewayRestart(file);
      var revision := 0;
      if !needsRestart {
        var allocation := store.Allocate(world.contextOk, world.loadOk, world.saveOk, world.unlockOk);
        if allocation.NotAllocated? || allocation.revision <= version {
          return false;
        }
        revision := allocation.revision;
      }
      if !world.persistOk {
        return false;
      }
      persisted := file;
      CloneTwice(file);
      CloneTwice(runtime);
      if needsRestart {
        fileCfg := Clone(file);
        return true;
      }
      cfg, fileCfg, version := Clone(runtime), Clone(file), revision;
      return true;
    }

    /** The tag policies before and after a service name is taken out of them. */
    static method StripPolicies(policies: map<string, TagPolicy>, name: string)
      returns (before: map<string, TagPolicy>, after: map<string, TagPolicy>)
      ensures before == BeforePolicies(policies, name) && after == AfterPolicies(policies, name)
    {
      before, after := map[], map[];
      var todo := policies.Keys;
      while todo != {}
        invariant todo <= policies.Keys
        invariant before == map tag | tag in Touched(policies, name) - todo :: policies[tag]
        invariant after == map tag | tag in Touched(policies, name) - todo :: Stripped(policies[tag], name)
      {
        var tag :| tag in todo;
        todo := todo - {tag};
        var policy := policies[tag];
        var filtered, changed := FilterNames(Items(policy.allowed), name);
        policy := policy.(allowed := Names(filtered));
        if policy.warmWhenIdle == name {
          policy := policy.(warmWhenIdle := "");
          changed := true;
        }
        if changed {
          before := before[tag := policies[tag]];
          after := after[tag := policy];
        }
      }
    }

    static method FilterNames(names: seq<string>, name: string) returns (filtered: seq<string>, changed: bool)
      ensures filtered == Without(names, name) && changed == (name in names)
    {
      filtered, changed := [], false;
      for i := 0 to |names|
        invariant filtered == Without(names[..i], name) && changed == (name in names[..i])
      {
        WithoutSnoc(names[..i], names[i], name);
        assert names[..i + 1] == names[..i] + [names[i]];
        if names[i] == name {
          changed := true;
          continue;
        }
        filtered := filtered + [names[i]];
      }
      assert names[..|names|] == names;
    }

    /** Renders, reloads and checks the next file configuration, then takes a revision for it. */
    method Prepare(fileNext: Config, world: World) returns (r: Reply)
      requires Valid()
      modifies store
      ensures Valid() && LiveUnchanged() && old(store.revision) <= store.revision <= old(store.revision) + 1
      ensures r.Done? ==> isValid(Reload(fileNext)) && r.version == store.revision == old(store.revision) + 1
      ensures r.Done? <==>
              && isValid(Reload(fileNext)) && world.contextOk && world.loadOk && world.saveOk && world.unlockOk
              && old(store.revision) != MAX_INT64
    {
      if !isValid(Reload(fileNext)) {
        return Failed(InvalidConfig);
      }
      var allocation := store.Allocate(world.contextOk, world.loadOk, world.saveOk, world.unlockOk);
      if allocation.NotAllocated? || allocation.revision <= version {
        return Failed(NoRevision);
      }
      return Done("", allocation.revision);
    }

    method PromoteServiceName(name: string, target: string, world: World) returns (r: Reply)
      requires Valid()
      modifies this, store
      ensures Valid() && old(store.revision) <= store.revision <= old(store.revision) + 1
      ensures r.Failed? ==> LiveUnchanged() && fileCfg == old(fileCfg) && persisted == old(persisted)
      ensures r.Done? ==> isValid(Reload(WithNamespace(old(fileCfg), cfg)))
      ensures r.Failed? && (world.deleteOk || r.error != PersistFailed) && world.archiveId.Some? && world.archiveId.value !in old(archives)
              ==> archives == old(archives)
      ensures r.Done? ==>
                && PromotionError(old(cfg), old(fileCfg), name, target) == None && world.archiveId == Some(r.archiveId)
                && Committed(Promoted(old(cfg), name, target)) && r.version == version
                && fileCfg == Clone(Reload(WithNamespace(old(fileCfg), Clone(Promoted(old(cfg), name, target)))))
                && archives == old(archives)[r.archiveId := ArchiveOf(old(cfg), name, target)]
      ensures r.Done? <==>
                && PromotionError(old(cfg), old(fileCfg), name, target) == None && world.validateOk
                && isValid(Reload(WithNamespace(old(fileCfg), Clone(Promoted(old(cfg), name, target)))))
                && RevisionOk(world, old(store.revision)) && world.archiveId.Some? && world.putOk && world.persistOk
      ensures PromotionError(old(cfg), old(fileCfg), name, target).Some? ==>
                r == Failed(PromotionError(old(cfg), old(fileCfg), name, target).value)
    {
      var error := PromotionError(cfg, fileCfg, name, target);
      if error.Some? {
        return Failed(error.value);
      }
      if !world.validateOk {
        return Failed(Rejected);
      }
      var before, after := StripPolicies(cfg.policies, name);
      var next := cfg.(models := cfg.models - {name}, aliases := cfg.aliases[name := target], policies := cfg.policies + after);
      assert next == Promoted(cfg, name, target);
      var fileNext := WithNamespace(fileCfg, Clone(next));
      var prepared := Prepare(fileNext, world);
      if prepared.Failed? {
        return prepared;
      }
      if world.archiveId.None? {
        return Failed(NoArchiveId);
      }
      var id := world.archiveId.value;
      if !world.putOk {
        return Failed(ArchiveFailed);
      }
      archives := archives[id := Archive(name, target, cfg.models[name], cfg.models[name].maxLoadedSet, before, after, false)];
      if !world.persistOk {
        if world.deleteOk {
          archives := archives - {id};
          assert id !in old(archives) ==> archives == old(archives);
        }
        return Failed(PersistFailed);
      }
      persisted := Reload(fileNext);
      CloneTwice(next);
      CloneTwice(Reload(fileNext));
      cfg, fileCfg, version := Clone(next), Clone(Reload(fileNext)), prepared.version;
      return Done(id, version);
    }

    method RollbackServiceName(archiveId: string, name: string, target: string, world: World) returns (r: Reply)
      requires Valid()
      modifies this, store
      ensures Valid() && old(store.revision) <= store.revision <= old(store.revision) + 1
      ensures r.Failed? ==> LiveUnchanged() && fileCfg == old(fileCfg) && persisted == old(persisted) && archives == old(archives)
      ensures r.Done? ==> isValid(Reload(WithNamespace(old(fileCfg), cfg)))
      ensures var archive := FetchedFrom(old(archives), lossyArchives, archiveId);
              && (world.getOk && RollbackError(old(cfg), old(fileCfg), archive, name, target).Some? ==>
                    r == Failed(RollbackError(old(cfg), old(fileCfg), archive, name, target).value))
              && (r.Done? ==>
                    && RollbackError(old(cfg), old(fileCfg), archive, name, target) == None
                    && Committed(RolledBack(old(cfg), archive.value)) && r.version == version && r.archiveId == archiveId
                    && fileCfg == Clone(Reload(WithNamespace(old(fileCfg), Clone(RolledBack(old(cfg), archive.value)))))
                    && archives == if world.putOk
                        then old(archives)[archiveId := archive.value.(rolledBack := true)] else old(archives))
              && (r.Done? <==>
                    && world.getOk && RollbackError(old(cfg), old(fileCfg), archive, name, target) == None
                    && isValid(Reload(WithNamespace(old(fileCfg), Clone(RolledBack(old(cfg), archive.value)))))
                    && RevisionOk(world, old(store.revision)) && world.persistOk)
    {
      if !SameNamespace(cfg, fileCfg) {
        return Failed(PendingRestartConfig);
      }
      if !world.getOk {
        return Failed(ArchiveFailed);
      }
      var archive := FetchedFrom(archives, lossyArchives, archiveId);
      var error := RollbackError(cfg, fileCfg, archive, name, target);
      if error.Some? {
        return Failed(error.value);
      }
      var a := archive.value;
      var next := RolledBack(cfg, a);
      var fileNext := WithNamespace(fileCfg, Clone(next));
      var prepared := Prepare(fileNext, world);
      if prepared.Failed? {
        return prepared;
      }
      if !world.persistOk {
        return Failed(PersistFailed);
      }
      persisted := Reload(fileNext);
      CloneTwice(next);
      CloneTwice(Reload(fileNext));
      cfg, fileCfg, version := Clone(next), Clone(Reload(fileNext)), prepared.version;
      if world.putOk {
        archives := archives[archiveId := a.(rolledBack := true)];
      }
      return Done(archiveId, version);
    }
  }

  function ArchiveOf(cfg: Config, name: string, target: string): Archive
    requires name in cfg.models
  {
    Archive(name, target, cfg.models[name], cfg.models[name].maxLoadedSet,
            BeforePolicies(cfg.policies, name), AfterPolicies(cfg.policies, name), false)
  }

  function FetchedFrom(archives: map<string, Archive>, lossy: bool, id: string): Option<Archive> {
    if id in archives then Some(Fetched(archives[id], lossy)) else None
  }

  function AllGood(archiveId: Option<string>): World {
    World(true, true, true, true, true, archiveId, true, true, true, true)
  }

  lemma {:induction false} WithoutSnoc(names: seq<string>, x: string, name: string)
    ensures Without(names + [x], name) == Without(names, name) + if x == name then [] else [x]
    decreases |names|
  {
    if names == [] {
      assert names + [x] == [x] && Without([x][1..], name) == [];
    } else {
      assert (names + [x])[1..] == names[1..] + [x];
      WithoutSnoc(names[1..], x, name);
    }
  }

  /** A name that may be promoted is a disabled model and no alias; its target is another model, and enabled. */
  lemma PromotableExactly(cfg: Config, file: Config, name: string, target: string)
    ensures PromotionError(cfg, file, name, target) == None <==>
            && cfg.models == file.models && cfg.aliases == file.aliases && cfg.policies == file.policies
            && name != "" && target != "" && name != target && name !in cfg.aliases
            && name in cfg.models && cfg.models[name].disabled && target in cfg.models && !cfg.models[target].disabled
  {
  }

  lemma {:induction false} WithoutRemoves(names: seq<string>, name: string)
    ensures forall x :: x in Without(names, name) <==> x in names && x != name
    decreases |names|
  {
    if names != [] {
      WithoutRemoves(names[1..], name);
      assert forall x :: x in names <==> x == names[0] || x in names[1..];
    }
  }

  /** Once promoted the name is an alias of an enabled model and of nothing else, and no policy mentions it. */
  lemma PromotedMeans(cfg: Config, file: Config, name: string, target: string)
    requires PromotionError(cfg, file, name, target) == None
    ensures var after := Clone(Promoted(cfg, name, target));
            && name !in after.models && after.aliases == cfg.aliases[name := target]
            && target in after.models && !after.models[target].disabled
            && (forall tag <- after.policies :: !Mentions(after.policies[tag], name))
            && after.policies.Keys == cfg.policies.Keys
            && (forall tag <- cfg.policies :: forall x ::
                  x in Items(after.policies[tag].allowed) <==> x in Items(cfg.policies[tag].allowed) && x != name)
  {
    var after := Clone(Promoted(cfg, name, target));
    forall tag <- cfg.policies
      ensures !Mentions(after.policies[tag], name)
      ensures forall x :: x in Items(after.policies[tag].allowed) <==> x in Items(cfg.policies[tag].allowed) && x != name
    {
      WithoutRemoves(Items(cfg.policies[tag].allowed), name);
      if tag in Touched(cfg.policies, name) {
        assert after.policies[tag] == ClonePolicy(Stripped(cfg.policies[tag], name));
      } else {
        assert after.policies[tag] == ClonePolicy(cfg.policies[tag]);
      }
    }
  }

  // ----- The round trip -----

  /**
   `back` has the service model, the alias and the touched policies as `cfg0` has them, and
   every other model, alias, policy and setting as `now` has it.
   */
  ghost predicate Restored(cfg0: Config, name: string, now: Config, back: Config)
    requires name in cfg0.models
  {
    && name in back.models && back.models[name] == cfg0.models[name] && name !in back.aliases
    && (forall n | n != name ::
        (n in back.models <==> n in now.models) && (n in now.models ==> back.models[n] == now.models[n]))
    && (forall n | n != name ::
        (n in back.aliases <==> n in now.aliases) && (n in now.aliases ==> back.aliases[n] == now.aliases[n]))
    && (forall tag <- Touched(cfg0.policies, name) :: tag in back.policies && back.policies[tag] == cfg0.policies[tag])
    && (forall tag | tag !in Touched(cfg0.policies, name) ::
          (tag in back.policies <==> tag in now.policies) && (tag in now.policies ==> back.policies[tag] == now.policies[tag]))
    && back.settings == now.settings
  }

  /** The policies the promotion took the name out of have not been edited since. */
  predicate StillStripped(cfg0: Config, name: string, now: Config) {
    forall tag <- Touched(cfg0.policies, name) :: tag in now.policies && now.policies[tag] == Stripped(cfg0.policies[tag], name)
  }

  /**
   Whatever was edited since the promotion, a rollback is accepted exactly when the name is
   still the target's alias and no model, the touched policies are as the promotion left
   them, and it left none of them with an empty allow list. Such a list refuses every rollback.
   */
  lemma RollbackAcceptedExactly(cfg0: Config, name: string, target: string, lossy: bool, now: Config, file: Config)
    requires name in cfg0.models && target != "" && now == Clone(now) && SameNamespace(now, file)
    ensures RollbackError(now, file, Some(Fetched(ArchiveOf(cfg0, name, target), lossy)), name, target) == None <==>
            && name !in now.models && name in now.aliases && now.aliases[name] == target
            && StillStripped(cfg0, name, now) && !EmptiesTag(cfg0, name)
  {
    var a := Fetched(ArchiveOf(cfg0, name, target), lossy);
    forall tag <- Touched(cfg0.policies, name)
      ensures a.after[tag] == Stripped(cfg0.policies[tag], name)
      ensures PolicyAt(now, tag) == a.after[tag] <==>
              && tag in now.policies && now.policies[tag] == Stripped(cfg0.policies[tag], name)
              && Without(Items(cfg0.policies[tag].allowed), name) != []
    {
      assert tag in now.policies ==> now.policies[tag] == ClonePolicy(now.policies[tag]);
    }
  }

  /** An accepted rollback restores the promoted name, and nothing but that. */
  lemma RollbackRestores(cfg0: Config, name: string, target: string, lossy: bool, now: Config, file: Config)
    requires cfg0 == Clone(cfg0) && name in cfg0.models && name !in cfg0.aliases && target != "" && now == Clone(now)
    requires SameNamespace(now, file)
    requires RollbackError(now, file, Some(Fetched(ArchiveOf(cfg0, name, target), lossy)), name, target) == None
    ensures var back := Clone(RolledBack(now, Fetched(ArchiveOf(cfg0, name, target), lossy)));
            && (forall c :: Restored(cfg0, name, now, c) <==> c == back)
            && (back == cfg0 <==> now == Clone(Promoted(cfg0, name, target)))
  {
    var a := Fetched(ArchiveOf(cfg0, name, target), lossy);
    var rolled := RolledBack(now, a);
    RollbackAcceptedExactly(cfg0, name, target, lossy, now, file);
    assert Clone(rolled) == rolled by {
      CopiesStay(now, cfg0, name);
    }
    assert Restored(cfg0, name, now, rolled);
    forall c | Restored(cfg0, name, now, c) ensures c == rolled {
      RestoredOnce(cfg0, name, now, c, rolled);
    }
    if rolled == cfg0 {
      NothingElseChanged(cfg0, name, target, now);
    }
    if now == Clone(Promoted(cfg0, name, target)) {
      PromoteThenRollback(cfg0, name, target, lossy);
    }
  }

  lemma CopiesStay(now: Config, cfg0: Config, name: string)
    requires cfg0 == Clone(cfg0) && now == Clone(now)
    ensures var policies := now.policies + BeforePolicies(cfg0.policies, name);
            policies == map tag | tag in policies :: ClonePolicy(policies[tag])
  {
    assert forall tag <- now.policies :: now.policies[tag] == Clone(now).policies[tag] == ClonePolicy(now.policies[tag]);
    assert forall tag <- cfg0.policies :: cfg0.policies[tag] == Clone(cfg0).policies[tag] == ClonePolicy(cfg0.policies[tag]);
  }

  lemma RestoredOnce(cfg0: Config, name: string, now: Config, a: Config, b: Config)
    requires name in cfg0.models && Restored(cfg0, name, now, a) && Restored(cfg0, name, now, b)
    ensures a == b
  {
    assert a.models == b.models;
    assert a.aliases == b.aliases;
    assert a.policies == b.policies;
  }

  lemma NothingElseChanged(cfg0: Config, name: string, target: string, now: Config)
    requires cfg0 == Clone(cfg0) && now == Clone(now) && name in cfg0.models && name !in cfg0.aliases
    requires Restored(cfg0, name, now, cfg0) && StillStripped(cfg0, name, now)
    requires name !in now.models && name in now.aliases && now.aliases[name] == target
    ensures now == Clone(Promoted(cfg0, name, target))
  {
    var p := Promoted(cfg0, name, target);
    assert now.models == p.models;
    assert now.aliases == p.aliases;
    assert now.policies.Keys == p.policies.Keys;
    forall tag <- now.policies ensures now.policies[tag] == p.policies[tag] {
      if tag !in Touched(cfg0.policies, name) {
        assert now.policies[tag] == cfg0.policies[tag];
      }
    }
    hide Promoted, Restored, StillStripped, Touched;
    assert now.policies == p.policies;
    assert now == p;
  }

  lemma PoliciesComeBack(policies: map<string, TagPolicy>, name: string)
    requires forall tag <- policies :: policies[tag] == ClonePolicy(policies[tag])
    ensures var live := map tag | tag in policies + AfterPolicies(policies, name) ::
        ClonePolicy((policies + AfterPolicies(policies, name))[tag]);
            live + BeforePolicies(policies, name) == policies
  {
  }

  /** With no edit in between, promoting and rolling back gives the configuration itself. */
  lemma PromoteThenRollback(cfg: Config, name: string, target: string, lossy: bool)
    requires cfg == Clone(cfg) && name in cfg.models && name !in cfg.aliases
    ensures Clone(RolledBack(Clone(Promoted(cfg, name, target)), Fetched(ArchiveOf(cfg, name, target), lossy))) == cfg
  {
    var back := RolledBack(Clone(Promoted(cfg, name, target)), Fetched(ArchiveOf(cfg, name, target), lossy));
    assert back.policies == cfg.policies by {
      assert forall tag <- cfg.policies :: Clone(cfg).policies[tag] == ClonePolicy(cfg.policies[tag]);
      PoliciesComeBack(cfg.policies, name);
    }
    assert back.models == cfg.models;
    assert back.aliases == cfg.aliases;
    assert back == cfg;
  }

  /** A touched tag that allowed nothing but the service name, or nothing at all and only warmed it when idle. */
  predicate EmptiesTag(cfg: Config, name: string) {
    exists tag <- Touched(cfg.policies, name) :: Without(Items(cfg.policies[tag].allowed), name) == []
  }

  /**
   Right after a promotion the rollback is refused exactly when the promotion left a touched
   tag with an empty allow list: the archive then holds an empty list, the live copy a nil
   one, and the two do not compare equal, in the memory and the file archive alike.
   */
  lemma RollbackRefusedExactly(cfg: Config, file: Config, name: string, target: string, lossy: bool)
    requires cfg == Clone(cfg) && name in cfg.models && name != target && target != ""
    requires SameNamespace(Clone(Promoted(cfg, name, target)), file)
    ensures RollbackError(Clone(Promoted(cfg, name, target)), file, Some(Fetched(ArchiveOf(cfg, name, target), lossy)), name, target)
            == if EmptiesTag(cfg, name) then Some(PolicyChanged) else None
  {
    var live := Clone(Promoted(cfg, name, target));
    var a := Fetched(ArchiveOf(cfg, name, target), lossy);
    assert a.after == AfterPolicies(cfg.policies, name);
    forall tag <- a.after
      ensures PolicyAt(live, tag) == a.after[tag] <==> Without(Items(cfg.policies[tag].allowed), name) != []
    {
      assert PolicyAt(live, tag) == ClonePolicy(Stripped(cfg.policies[tag], name));
    }
    assert name !in live.models && live.aliases[name] == target;
  }

  /** A tag that allows one model, and that model promoted away. */
  lemma EmptiedTagExample(m: Model, t: Model, settings: Settings)
    requires m.disabled && !t.disabled
    ensures var cfg := Config(map["chat" := m, "chat-v2" := t], map[], map["gpu" := TagPolicy(Names(["chat"]), "", "")], settings);
            && PromotionError(cfg, cfg, "chat", "chat-v2") == None
            && RollbackError(Clone(Promoted(cfg, "chat", "chat-v2")), Clone(Promoted(cfg, "chat", "chat-v2")),
                             Some(ArchiveOf(cfg, "chat", "chat-v2")), "chat", "chat-v2") == Some(PolicyChanged)
  {
    var cfg := Config(map["chat" := m, "chat-v2" := t], map[], map["gpu" := TagPolicy(Names(["chat"]), "", "")], settings);
    assert Clone(cfg).policies == cfg.policies;
    assert "gpu" in Touched(cfg.policies, "chat");
    assert Without(["chat"], "chat") == [] + Without([], "chat");
    assert EmptiesTag(cfg, "chat");
    RollbackRefusedExactly(cfg, Clone(Promoted(cfg, "chat", "chat-v2")), "chat", "chat-v2", false);
  }

  /** The file configuration keeps the runtime namespace when each automatic max_loaded is 0. */
  lemma ReloadKeepsNamespace(file: Config, runtime: Config)
    requires forall n <- runtime.models :: var m := runtime.models[n]; if m.maxLoadedSet then true else m.maxLoaded == 0
    ensures SameNamespace(Clone(Reload(WithNamespace(file, Clone(runtime)))), Clone(runtime))
  {
    CloneTwice(runtime);
    var f := WithNamespace(file, Clone(runtime));
    assert Reload(f).models == f.models;
    assert Clone(Reload(f)).policies == Clone(Clone(runtime)).policies;
  }

  /** The two transactions end to end: the second one brings back the first one's start. */
  method PromoteAndRollback(m: ConfigManager, name: string, target: string, id: string)
    requires m.Valid() && m.store.revision < MAX_INT64 - 1
    requires PromotionError(m.cfg, m.fileCfg, name, target) == None && !EmptiesTag(m.cfg, name)
    requires forall n <- m.cfg.models :: m.cfg.models[n].maxLoadedSet || m.cfg.models[n].maxLoaded == 0
    requires m.isValid(m.fileCfg) && m.isValid(Reload(WithNamespace(m.fileCfg, Clone(Promoted(m.cfg, name, target)))))
    modifies m, m.store
    ensures m.Valid() && m.cfg == old(m.cfg) && SameNamespace(m.fileCfg, old(m.fileCfg))
    ensures m.version == old(m.store.revision) + 2
  {
    ghost var cfg0, file0 := m.cfg, m.fileCfg;
    var promoted := m.PromoteServiceName(name, target, AllGood(Some(id)));
    assert promoted.Done?;
    ghost var live := Clone(Promoted(cfg0, name, target));
    ReloadKeepsNamespace(file0, Promoted(cfg0, name, target));
    RollbackRefusedExactly(cfg0, m.fileCfg, name, target, m.lossyArchives);
    PromoteThenRollback(cfg0, name, target, m.lossyArchives);
    ReloadKeepsNamespace(m.fileCfg, cfg0);
    ghost var a := Fetched(ArchiveOf(cfg0, name, target), m.lossyArchives);
    CloneTwice(RolledBack(live, a));
    ghost var fileNext := WithNamespace(m.fileCfg, Clone(RolledBack(live, a)));
    assert Reload(fileNext) == file0 by {
      assert fileNext == WithNamespace(m.fileCfg, cfg0);
      assert Reload(fileNext).models == cfg0.models;
      assert m.fileCfg.settings == file0.settings;
    }
    var back := m.RollbackServiceName(promoted.archiveId, name, target, AllGood(None));
    assert back.Done?;
  }

  /**
   A promotion, an edit of the configuration file, a rollback. `live` is the configuration the
   rollback meets; an edit that needs a gateway restart leaves the promoted one.
   */
  method PromoteEditRollback(m: ConfigManager, name: string, target: string, id: string, edit: Config)
    returns (back: Reply, ghost live: Config)
    requires m.Valid() && m.store.revision < MAX_INT64 - 2
    requires PromotionError(m.cfg, m.fileCfg, name, target) == None
    requires m.isValid(Reload(WithNamespace(m.fileCfg, Clone(Promoted(m.cfg, name, target)))))
    modifies m, m.store
    ensures m.Valid()
    ensures live == if old(m.NeedsGatewayRestart(edit)) then Clone(Promoted(old(m.cfg), name, target)) else Clone(m.RuntimePinned(edit))
    ensures back.Done? ==> AcceptedOver(old(m.cfg), name, target, live, edit) && Restored(old(m.cfg), name, live, m.cfg)
    ensures back.Failed? ==> m.cfg == live
    ensures AcceptedOver(old(m.cfg), name, target, live, edit) && ValidRestored(old(m.cfg), name, live, edit, m.isValid) ==> back.Done?
  {
    ghost var cfg0 := m.cfg;
    var promoted := m.PromoteServiceName(name, target, AllGood(Some(id)));
    assert promoted.Done?;
    ghost var a := Fetched(ArchiveOf(cfg0, name, target), m.lossyArchives);
    assert FetchedFrom(m.archives, m.lossyArchives, promoted.archiveId) == Some(a);
    var ok := m.Apply(Some(edit), AllGood(None));
    live := m.cfg;
    if SameNamespace(live, m.fileCfg) {
      RollbackOver(cfg0, name, target, m.lossyArchives, live, edit, m.isValid);
    }
    assert AcceptedOver(cfg0, name, target, live, edit) ==> SameNamespace(live, m.fileCfg);
    hide AcceptedOver, ValidRestored, Restored, RolledBack, Fetched, ArchiveOf, Promoted, WithNamespace, Reload, RollbackError;
    back := m.RollbackServiceName(promoted.archiveId, name, target, AllGood(None));
  }

  lemma RollbackOver(cfg0: Config, name: string, target: string, lossy: bool, live: Config, edit: Config,
                     isValid: Config -> bool)
    requires cfg0 == Clone(cfg0) && name in cfg0.models && name !in cfg0.aliases && target != "" && live == Clone(live)
    requires SameNamespace(live, Clone(edit))
    ensures var a := Fetched(ArchiveOf(cfg0, name, target), lossy);
            && (RollbackError(live, Clone(edit), Some(a), name, target) == None <==> AcceptedOver(cfg0, name, target, live, edit))
            && (AcceptedOver(cfg0, name, target, live, edit) ==>
                  && Restored(cfg0, name, live, Clone(RolledBack(live, a)))
                  && (ValidRestored(cfg0, name, live, edit, isValid) ==>
                        isValid(Reload(WithNamespace(Clone(edit), Clone(RolledBack(live, a)))))))
  {
    RollbackAcceptedExactly(cfg0, name, target, lossy, live, Clone(edit));
    if AcceptedOver(cfg0, name, target, live, edit) {
      RollbackRestores(cfg0, name, target, lossy, live, Clone(edit));
      assert Restored(cfg0, name, live, Clone(RolledBack(live, Fetched(ArchiveOf(cfg0, name, target), lossy))));
    }
  }

  /** What the rollback would write passes validation. */
  ghost predicate ValidRestored(cfg0: Config, name: string, live: Config, edit: Config, isValid: Config -> bool)
    requires name in cfg0.models
  {
    forall c :: Restored(cfg0, name, live, c) ==> isValid(Reload(WithNamespace(Clone(edit), c)))
  }

  /** When a rollback is accepted over an edited configuration. */
  predicate AcceptedOver(cfg0: Config, name: string, target: string, live: Config, edit: Config)
    requires name in cfg0.models
  {
    && SameNamespace(live, Clone(edit)) && name !in live.models && name in live.aliases && live.aliases[name] == target
    && StillStripped(cfg0, name, live) && !EmptiesTag(cfg0, name)
  }
}
