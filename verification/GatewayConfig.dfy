/**
 The gateway configuration as far as other modules look at it (`internal/config/config.go`,
 `internal/gateway/active_config.go`). Fields nothing here depends on are folded into
 `settings`.
 */
module GatewayConfig {

  import opened Basics
  import opened ArtifactFences

  /** A Go slice of names: nil and empty are different to reflect.DeepEqual. */
  datatype Names = NilNames | Names(items: seq<string>)

  function Items(n: Names): seq<string> {
    if n.NilNames? then [] else n.items
  }

  datatype Model = Model(
    disabled: bool, modelDir: string, artifact: Artifact, maxLoaded: int, maxLoadedSet: bool, settings: string)

  datatype TagPolicy = TagPolicy(allowed: Names, warmWhenIdle: string, settings: string)

  /** What a missing map entry reads as. */
  const ZERO_POLICY := TagPolicy(NilNames, "", "")

  /** `pinned`: tokens and listen address; `stores`: fields that need a restart to change. */
  datatype Settings = Settings(pinned: string, stores: string, proxyAttempts: int, other: string)

  datatype Config = Config(
    models: map<string, Model>, aliases: map<string, string>, policies: map<string, TagPolicy>, settings: Settings)

  function PolicyAt(cfg: Config, tag: string): TagPolicy {
    if tag in cfg.policies then cfg.policies[tag] else ZERO_POLICY
  }

  /** Copying appends to a nil slice, so an empty list comes out nil. */
  function CloneNames(n: Names): Names {
    if Items(n) == [] then NilNames else n
  }

  function ClonePolicy(p: TagPolicy): TagPolicy {
    p.(allowed := CloneNames(p.allowed))
  }

  function Clone(cfg: Config): Config {
    cfg.(policies := map tag | tag in cfg.policies :: ClonePolicy(cfg.policies[tag]))
  }

  lemma CloneTwice(cfg: Config)
    ensures Clone(Clone(cfg)) == Clone(cfg)
  {
    assert Clone(Clone(cfg)).policies == Clone(cfg).policies;
  }

  /** The models an agent may be told about. */
  function ActiveModels(cfg: Config): map<string, Model> {
    map name | name in cfg.models && !cfg.models[name].disabled :: cfg.models[name]
  }

  function Keep(names: seq<string>, models: map<string, Model>): seq<string> {
    if names == [] then [] else (if names[0] in models then [names[0]] else []) + Keep(names[1..], models)
  }

  lemma {:induction false} KeepKeeps(names: seq<string>, models: map<string, Model>)
    ensures forall n :: n in Keep(names, models) <==> n in names && n in models
  {
    if names != [] {
      KeepKeeps(names[1..], models);
      assert forall n :: n in names <==> n == names[0] || n in names[1..];
    }
  }

  function ActivePolicy(p: TagPolicy, models: map<string, Model>): TagPolicy {
    p.(allowed := if Items(p.allowed) != [] then Names(Keep(Items(p.allowed), models)) else NilNames,
       warmWhenIdle := if p.warmWhenIdle in models then p.warmWhenIdle else "")
  }

  /** The configuration without disabled models, and without what refers to them. */
  function Active(cfg: Config): Config {
    var models := ActiveModels(cfg);
    cfg.(models := models,
         aliases := map alias | alias in cfg.aliases && cfg.aliases[alias] in models :: cfg.aliases[alias],
         policies := map tag | tag in cfg.policies :: ActivePolicy(cfg.policies[tag], models))
  }

  function ResolvedModelDir(name: string, model: Model): string {
    var dir := TrimSpace(model.modelDir);
    if dir != "" then dir else name
  }
}
