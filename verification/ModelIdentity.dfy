/**
 When two model directories are the same one (`internal/config/model_identity.go`).

 The answer depends on the operating system of whoever asks: Windows takes both slashes and
 ignores case. Lower-casing beyond ASCII is a parameter.
 */
module ModelIdentities {

  import opened Basics
  import opened GatewayConfig

  datatype Platform = Platform(windows: bool, lowerOther: char -> char)

  // ----- Path cleaning -----

  function Elements(s: string): (es: seq<string>)
    ensures es != []
  {
    if s == "" then [""]
    else
      var rest := Elements(s[1..]);
      if s[0] == '/' then [""] + rest else [[s[0]] + rest[0]] + rest[1..]
  }

  function Walk(stack: seq<string>, es: seq<string>, rooted: bool): seq<string>
    decreases |es|
  {
    if es == [] then stack
    else if es[0] == "" || es[0] == "." then Walk(stack, es[1..], rooted)
    else if es[0] != ".." then Walk(stack + [es[0]], es[1..], rooted)
    else if stack != [] && stack[|stack| - 1] != ".." then Walk(stack[..|stack| - 1], es[1..], rooted)
    else Walk(if rooted then stack else stack + [".."], es[1..], rooted)
  }

  function Joined(es: seq<string>): string {
    if es == [] then "" else if |es| == 1 then es[0] else es[0] + "/" + Joined(es[1..])
  }

  /** The shortest equivalent path, as path.Clean gives it. */
  function CleanPath(p: string): string {
    if p == "" then "."
    else
      var rooted := p[0] == '/';
      var stack := Walk([], Elements(p), rooted);
      if rooted then "/" + Joined(stack) else if stack == [] then "." else Joined(stack)
  }

  function WithoutTrailingSlashes(p: string): string {
    if p != "" && p[|p| - 1] == '/' then WithoutTrailingSlashes(p[..|p| - 1]) else p
  }

  /** The last element, as path.Base gives it. */
  function PathBase(p: string): string {
    var q := WithoutTrailingSlashes(p);
    var es := Elements(q);
    if p == "" then "." else if q == "" then "/" else es[|es| - 1]
  }

  // ----- Identity -----

  function LowerChar(c: char, p: Platform): char {
    if 'A' <= c <= 'Z' then (c as int + 32) as char else if c < '\U{0080}' then c else p.lowerOther(c)
  }

  function Lower(s: string, p: Platform): string {
    seq(|s|, i requires 0 <= i < |s| => LowerChar(s[i], p))
  }

  function Slashed(s: string): string {
    seq(|s|, i requires 0 <= i < |s| => if s[i] == '\\' then '/' else s[i])
  }

  function DirIdentity(dir: string, p: Platform): string {
    if p.windows then Lower(CleanPath(Slashed(dir)), p) else CleanPath(dir)
  }

  /** The identity as a function of the directory; what follows holds for any such function. */
  function IdentityOn(p: Platform): string -> string {
    dir => DirIdentity(dir, p)
  }

  function ModelIdentity(cfg: Config, name: string, id: string -> string): string
    requires name in cfg.models
  {
    id(ResolvedModelDir(name, cfg.models[name]))
  }

  predicate SafeChar(c: char) {
    'a' <= c <= 'z' || 'A' <= c <= 'Z' || '0' <= c <= '9' || c == '.' || c == '_' || c == '-'
  }

  predicate SafeDirName(dir: string) {
    dir != "" && dir != "." && dir != ".." && forall c <- dir :: SafeChar(c)
  }

  // ----- Validation -----

  function SourceBasenames(cfg: Config): set<string> {
    set name | name in cfg.models :: SourceBasename(cfg.models[name])
  }

  predicate ModelDirOk(cfg: Config, name: string, id: string -> string)
    requires name in cfg.models
  {
    var dir := ResolvedModelDir(name, cfg.models[name]);
    && (cfg.models[name].modelDir != "" ==> dir == cfg.models[name].modelDir && SafeDirName(dir) && dir !in SourceBasenames(cfg))
    && id(dir) != id(".locks")
  }

  /** No directory is claimed by two models. */
  ghost predicate DistinctDirs(cfg: Config, names: set<string>, id: string -> string)
    requires names <= cfg.models.Keys
  {
    forall a <- names, b <- names :: ModelIdentity(cfg, a, id) == ModelIdentity(cfg, b, id) ==> a == b
  }

  predicate AliasOk(cfg: Config, alias: string)
    requires alias in cfg.aliases
  {
    var target := cfg.aliases[alias];
    && alias != "" && alias == TrimSpace(alias) && TrimSpace(target) != "" && TrimSpace(target) == target
    && alias !in cfg.models && target in cfg.models
  }

  ghost predicate IdentitiesValid(cfg: Config, id: string -> string) {
    && (forall name <- cfg.models :: ModelDirOk(cfg, name, id))
    && DistinctDirs(cfg, cfg.models.Keys, id)
    && (forall alias <- cfg.aliases :: AliasOk(cfg, alias))
  }

  function SourceBasename(model: Model): string {
    PathBase(TrimSpace(model.artifact.object_))
  }

  method CollectBasenames(cfg: Config) returns (basenames: set<string>)
    ensures basenames == SourceBasenames(cfg)
  {
    basenames := {};
    var todo := cfg.models.Keys;
    while todo != {}
      invariant todo <= cfg.models.Keys
      invariant basenames == set name | name in cfg.models.Keys - todo :: SourceBasename(cfg.models[name])
    {
      var name :| name in todo;
      todo := todo - {name};
      basenames := basenames + {SourceBasename(cfg.models[name])};
    }
  }

  method CheckModelDir(cfg: Config, name: string, id: string -> string, basenames: set<string>) returns (ok: bool)
    requires name in cfg.models && basenames == SourceBasenames(cfg)
    ensures ok == ModelDirOk(cfg, name, id)
  {
    var model := cfg.models[name];
    var dir := ResolvedModelDir(name, model);
    if model.modelDir != "" {
      if dir != model.modelDir || !SafeDirName(dir) {
        return false;
      }
      if dir in basenames {
        return false;
      }
    }
    return id(dir) != id(".locks");
  }

  method CheckAliases(cfg: Config) returns (ok: bool)
    ensures ok == forall alias <- cfg.aliases :: AliasOk(cfg, alias)
  {
    var todo := cfg.aliases.Keys;
    while todo != {}
      invariant todo <= cfg.aliases.Keys
      invariant forall alias <- cfg.aliases.Keys - todo :: AliasOk(cfg, alias)
    {
      var alias :| alias in todo;
      todo := todo - {alias};
      var rawTarget := cfg.aliases[alias];
      var target := TrimSpace(rawTarget);
      if alias == "" || alias != TrimSpace(alias) || target == "" || target != rawTarget
          || alias in cfg.models || target !in cfg.models {
        assert !AliasOk(cfg, alias);
        return false;
      }
    }
    return true;
  }

  /** The source visits names in order, which only decides the error that is reported. */
  method ValidateModelIdentities(cfg: Config, id: string -> string) returns (ok: bool)
    ensures ok == IdentitiesValid(cfg, id)
  {
    hide ModelDirOk, AliasOk, ResolvedModelDir;
    var basenames := CollectBasenames(cfg);
    var dirs: map<string, string> := map[];
    var todo := cfg.models.Keys;
    while todo != {}
      invariant todo <= cfg.models.Keys
      invariant forall name <- cfg.models.Keys - todo :: ModelDirOk(cfg, name, id)
      invariant dirs.Keys == set name | name in cfg.models.Keys - todo :: ModelIdentity(cfg, name, id)
      invariant DistinctDirs(cfg, cfg.models.Keys - todo, id)
    {
      var name :| name in todo;
      var dirOk := CheckModelDir(cfg, name, id, basenames);
      if !dirOk {
        return false;
      }
      var identity := ModelIdentity(cfg, name, id);
      if identity in dirs {
        assert exists previous :: previous in cfg.models.Keys - todo && ModelIdentity(cfg, previous, id) == identity;
        return false;
      }
      dirs := dirs[identity := name];
      todo := todo - {name};
    }
    ok := CheckAliases(cfg);
  }

  // ----- The directories the gateway wants -----

  /** The directory of each model. */
  function DirOf(cfg: Config): string -> string {
    name => if name in cfg.models then ResolvedModelDir(name, cfg.models[name]) else name
  }

  function Known(names: seq<string>, models: set<string>): set<string> {
    set name | name in names && name in models
  }

  function AllowedIn(cfg: Config, tags: set<string>): set<string> {
    set tag, name | tag in tags && name in Items(PolicyAt(cfg, tag).allowed) && name in cfg.models :: name
  }

  /** The models some tag may use. */
  function DesiredNames(cfg: Config): set<string> {
    AllowedIn(cfg, cfg.policies.Keys)
  }

  ghost predicate ListsOnly<N, D>(names: set<N>, dirOf: N -> D, dirs: seq<D>) {
    forall d <- dirs :: exists name <- names :: dirOf(name) == d
  }

  ghost predicate ListsAll<N, D, I(!new)>(names: set<N>, dirOf: N -> D, id: D -> I, dirs: seq<D>) {
    forall name <- names :: exists d <- dirs :: id(d) == id(dirOf(name))
  }

  ghost predicate Apart<D, I(!new)>(id: D -> I, dirs: seq<D>) {
    forall i, j :: 0 <= i < j < |dirs| ==> id(dirs[i]) != id(dirs[j])
  }

  /** Directories of the named models only, one for each identity among them. */
  ghost predicate Lists<N, D, I(!new)>(names: set<N>, dirOf: N -> D, id: D -> I, dirs: seq<D>) {
    ListsOnly(names, dirOf, dirs) && ListsAll(names, dirOf, id, dirs) && Apart(id, dirs)
  }

  ghost predicate Indexed(names: set<string>, dirOf: string -> string, id: string -> string,
                          dirs: map<string, string>) {
    && (forall name <- names :: id(dirOf(name)) in dirs)
    && (forall identity <- dirs :: id(dirs[identity]) == identity && exists name <- names :: dirOf(name) == dirs[identity])
  }

  /** One allow list: the first directory of an identity stays. */
  method IndexAllowed(models: set<string>, allowed: seq<string>, dirOf: string -> string, id: string -> string,
                      start: map<string, string>, ghost names: set<string>)
    returns (dirs: map<string, string>)
    requires Indexed(names, dirOf, id, start)
    ensures Indexed(names + Known(allowed, models), dirOf, id, dirs)
  {
    dirs := start;
    ghost var seen: set<string> := names;
    for i := 0 to |allowed|
      invariant seen == names + Known(allowed[..i], models)
      invariant Indexed(seen, dirOf, id, dirs)
    {
      assert allowed[..i + 1] == allowed[..i] + [allowed[i]];
      var name := allowed[i];
      if name !in models {
        continue;
      }
      seen := seen + {name};
      var identity := id(dirOf(name));
      if identity !in dirs {
        dirs := dirs[identity := dirOf(name)];
      }
    }
    assert allowed[..|allowed|] == allowed;
  }

  method ListIndexed(index: map<string, string>, ghost names: set<string>, ghost dirOf: string -> string,
                     id: string -> string)
    returns (dirs: seq<string>)
    requires Indexed(names, dirOf, id, index)
    ensures Lists(names, dirOf, id, dirs)
  {
    dirs := [];
    var todo := index.Keys;
    while todo != {}
      invariant todo <= index.Keys
      invariant forall d <- dirs :: id(d) in index.Keys - todo && index[id(d)] == d
      invariant forall identity <- index.Keys - todo :: index[identity] in dirs
      invariant forall i, j :: 0 <= i < j < |dirs| ==> id(dirs[i]) != id(dirs[j])
    {
      var identity :| identity in todo;
      todo := todo - {identity};
      assert forall k :: 0 <= k < |dirs| ==> dirs[k] in dirs;
      dirs := dirs + [index[identity]];
    }
    forall name <- names ensures exists d <- dirs :: id(d) == id(dirOf(name)) {
      assert index[id(dirOf(name))] in dirs;
    }
  }

  /** The source sorts the result, which nothing depends on. */
  method DesiredModelDirs(cfg: Config, id: string -> string) returns (dirs: seq<string>)
    ensures Lists(DesiredNames(cfg), DirOf(cfg), id, dirs)
  {
    var byIdentity: map<string, string> := map[];
    var tags := cfg.policies.Keys;
    while tags != {}
      invariant tags <= cfg.policies.Keys
      invariant Indexed(AllowedIn(cfg, cfg.policies.Keys - tags), DirOf(cfg), id, byIdentity)
    {
      var tag :| tag in tags;
      ghost var names := AllowedIn(cfg, cfg.policies.Keys - tags);
      var allowed := Items(cfg.policies[tag].allowed);
      byIdentity := IndexAllowed(cfg.models.Keys, allowed, DirOf(cfg), id, byIdentity, names);
      assert cfg.policies.Keys - (tags - {tag}) - {tag} == cfg.policies.Keys - tags;
      tags := tags - {tag};
      OneTagMore(cfg, cfg.policies.Keys - tags, tag);
    }
    dirs := ListIndexed(byIdentity, DesiredNames(cfg), DirOf(cfg), id);
  }

  lemma OneTagMore(cfg: Config, tags: set<string>, tag: string)
    requires tag in tags && tag in cfg.policies
    ensures AllowedIn(cfg, tags) == AllowedIn(cfg, tags - {tag}) + Known(Items(cfg.policies[tag].allowed), cfg.models.Keys)
  {
  }

  // ----- Platforms compared -----

  lemma {:induction false} OneElement(s: string)
    requires '/' !in s
    ensures Elements(s) == [s]
    decreases |s|
  {
    if s != "" {
      OneElement(s[1..]);
      assert [s[0]] + s[1..] == s;
    }
  }

  /** A safe name is its own identity, up to case on Windows. */
  lemma SafeNameIdentity(dir: string, p: Platform)
    requires SafeDirName(dir)
    ensures DirIdentity(dir, p) == if p.windows then Lower(dir, p) else dir
  {
    OneElement(dir);
    forall c <- dir ensures c != '/' && c != '\\' {
      assert SafeChar(c);
    }
    forall i | 0 <= i < |dir| ensures Slashed(dir)[i] == dir[i] {
      assert dir[i] in dir;
    }
    assert Slashed(dir) == dir;
    assert [dir][1..] == [] && [] + [dir] == [dir];
    assert Walk([], [dir], false) == Walk([dir], [], false);
  }

  /** A validated configuration lists the directory of every desired model, whoever reads it. */
  lemma ListsEveryDir<N, D(!new), I(!new)>(names: set<N>, dirOf: N -> D, id: D -> I, dirs: seq<D>)
    requires Lists(names, dirOf, id, dirs)
    requires forall a <- names, b <- names :: id(dirOf(a)) == id(dirOf(b)) ==> a == b
    ensures forall d :: d in dirs <==> exists name <- names :: dirOf(name) == d
  {
    forall name <- names ensures dirOf(name) in dirs {
      var d :| d in dirs && id(d) == id(dirOf(name));
      var other :| other in names && dirOf(other) == d;
    }
  }

  /**
   Models with safe names and directories of their own are accepted exactly when no name is
   that of the lock directory, on Windows no two differ in case only, and every alias is a
   trimmed name of none of them for one of them.
   */
  lemma SafeNamesValidExactly(cfg: Config, p: Platform)
    requires forall name <- cfg.models :: SafeDirName(name) && cfg.models[name].modelDir == ""
    ensures IdentitiesValid(cfg, IdentityOn(p)) <==>
            && (forall name <- cfg.models :: if p.windows then Lower(name, p) != Lower(".locks", p) else name != ".locks")
            && (p.windows ==> forall a <- cfg.models, b <- cfg.models :: Lower(a, p) == Lower(b, p) ==> a == b)
            && (forall alias <- cfg.aliases ::
                  && alias != "" && TrimSpace(alias) == alias && alias !in cfg.models
                  && TrimSpace(cfg.aliases[alias]) == cfg.aliases[alias] != "" && cfg.aliases[alias] in cfg.models)
  {
    forall name <- cfg.models
      ensures ModelIdentity(cfg, name, IdentityOn(p)) == if p.windows then Lower(name, p) else name
      ensures ModelDirOk(cfg, name, IdentityOn(p)) <==> if p.windows then Lower(name, p) != Lower(".locks", p) else name != ".locks"
    {
      SafeNameDir(cfg, name, p);
    }
    hide Lower, TrimSpace, SafeDirName, ModelDirOk, ModelIdentity, IdentityOn;
  }

  lemma SafeNameDir(cfg: Config, name: string, p: Platform)
    requires name in cfg.models && SafeDirName(name) && cfg.models[name].modelDir == ""
    ensures ModelIdentity(cfg, name, IdentityOn(p)) == if p.windows then Lower(name, p) else name
    ensures ModelDirOk(cfg, name, IdentityOn(p)) <==> if p.windows then Lower(name, p) != Lower(".locks", p) else name != ".locks"
  {
    assert SafeDirName(".locks") && TrimSpace("") == "";
    SafeNameIdentity(".locks", p);
    SafeNameIdentity(name, p);
    hide DirIdentity, Lower, TrimSpace, SafeDirName;
  }
}
