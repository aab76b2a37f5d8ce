/**
 The project file a migration runs with, and its pre-apply drift check: the
 policy's check is added for the running env unless a global one covers it.
 */
module MigrationDrift {
  import opened Wrappers
  import opened Hcl
  import opened HclAlgebra
  import opened HclPaths
  import opened HclText
  import opened HclNormal

  const MIGRATE_APPLY := "migrate_apply"
  const FAIL := "FAIL"

  datatype DriftPolicy = DriftPolicy(onError: string, exclude: seq<string>)

  /** Cloud settings; an empty string is an unset one. */
  datatype CloudSettings = CloudSettings(token: string, url: string, repo: string)

  datatype RemoteDir = RemoteDir(name: string, tag: string)

  /** What the file is rendered from; an empty string is an unset field. */
  datatype MigrationData = MigrationData(
    envName: string,
    url: Option<string>,
    devURL: string,
    remote: Option<RemoteDir>,
    cloud: Option<CloudSettings>,
    execOrder: string,
    baseline: string,
    revisionsSchema: string,
    drift: Option<DriftPolicy>,
    config: Option<Body>)

  // ---- The operator's own blocks -----------------------------------------------

  predicate IsCheck(b: Block) {
    b.typ == Check && b.labels == [MIGRATE_APPLY]
  }

  predicate IsGlobalDrift(b: Block) {
    IsCheck(b) && Search(b.body.blocks, Drift, []).Some?
  }

  predicate HasGlobalDrift(config: Option<Body>) {
    config.Some? && exists b :: b in config.value.blocks && IsGlobalDrift(b)
  }

  /** Every top-level block is looked at, since check blocks may repeat. */
  method HasGlobalDriftCheck(config: Option<Body>) returns (found: bool)
    ensures found <==> HasGlobalDrift(config)
  {
    if config.None? {
      return false;
    }
    var blocks := config.value.blocks;
    for i := 0 to |blocks|
      invariant forall j :: 0 <= j < i ==> !IsGlobalDrift(blocks[j])
    {
      if IsGlobalDrift(blocks[i]) {
        assert blocks[i] in config.value.blocks;
        return true;
      }
    }
    return false;
  }

  function Setting(name: Name, value: string): map<Name, Expr> {
    if value == "" then map[] else map[name := Str(value)]
  }

  function PolicyAttrs(p: DriftPolicy): map<Name, Expr> {
    map[OnError := Ident(if p.onError == "" then FAIL else p.onError)]
    + if p.exclude == [] then map[] else map[Exclude := Strs(p.exclude)]
  }

  function DriftBlock(p: DriftPolicy): Block {
    Block(Check, [MIGRATE_APPLY], Body(map[], [Block(Drift, [], Body(PolicyAttrs(p), []))]))
  }

  predicate HasRemoteDir(d: MigrationData) {
    d.remote.Some? && d.remote.value.name != ""
  }

  const SCHEME := "atlas://"
  const TAG := "?tag="

  function RemoteURL(r: RemoteDir): string {
    SCHEME + r.name + TAG + r.tag
  }

  function DirURL(d: MigrationData): string {
    if HasRemoteDir(d) then RemoteURL(d.remote.value) else "file://migrations"
  }

  function CloudAttrs(c: CloudSettings): map<Name, Expr> {
    Setting(Token, c.token) + Setting(Url, c.url) + Setting(Project, c.repo)
  }

  function CloudBlock(c: CloudSettings): Block {
    Block(Atlas, [], Body(map[], [Block(Cloud, [], Body(CloudAttrs(c), []))]))
  }

  function MigrationBlock(d: MigrationData): Block {
    var attrs := Setting(ExecOrder, d.execOrder) + Setting(Baseline, d.baseline) + Setting(RevisionsSchema, d.revisionsSchema);
    Block(Migration, [], Body(map[Dir := Str(DirURL(d))] + attrs, []))
  }

  function EnvAttrs(d: MigrationData): map<Name, Expr> {
    (if d.url.Some? then map[Url := Str(d.url.value)] else map[]) + Setting(Dev, d.devURL)
  }

  predicate AddsDrift(d: MigrationData) {
    d.drift.Some? && !HasGlobalDrift(d.config)
  }

  function EnvBlock(d: MigrationData): Block {
    Block(Env, [d.envName],
          Body(EnvAttrs(d), [MigrationBlock(d)] + if AddsDrift(d) then [DriftBlock(d.drift.value)] else []))
  }

  function OwnBlocks(d: MigrationData): seq<Block> {
    (if d.cloud.Some? then [CloudBlock(d.cloud.value)] else []) + [EnvBlock(d)]
  }

  method AsBlocks(d: MigrationData) returns (blocks: seq<Block>)
    ensures blocks == OwnBlocks(d)
  {
    blocks := [];
    if d.cloud.Some? {
      blocks := blocks + [CloudBlock(d.cloud.value)];
    }
    var envBlocks := [MigrationBlock(d)];
    if d.drift.Some? {
      var global := HasGlobalDriftCheck(d.config);
      if !global {
        envBlocks := envBlocks + [DriftBlock(d.drift.value)];
      }
    }
    assert envBlocks == EnvBlock(d).body.blocks;
    blocks := blocks + [Block(Env, [d.envName], Body(EnvAttrs(d), envBlocks))];
  }

  // ---- The rendered file --------------------------------------------------------

  function Merged(d: MigrationData): Body {
    var own := Body(map[], OwnBlocks(d));
    if d.config.None? then own else MergeFile(own, d.config.value, d.envName)
  }

  /** The config's blocks once its unlabelled env blocks named after the running env take its label. */
  function ConfigBlocks(d: MigrationData): seq<Block> {
    if d.config.None? then [] else EvalEnv(d.config.value.blocks, d.envName)
  }

  function EnvKey(d: MigrationData): Key {
    Key(Env, [d.envName])
  }

  const MIGRATION := Key(Migration, [])
  const CHECK := Key(Check, [MIGRATE_APPLY])
  const DRIFT := Key(Drift, [])
  const ATLAS := Key(Atlas, [])
  const CLOUD := Key(Cloud, [])

  lemma OwnBlocksEvaluated(d: MigrationData)
    ensures EvalEnv(OwnBlocks(d), d.envName) == OwnBlocks(d)
  {
  }

  lemma MergedBlocks(d: MigrationData)
    ensures Merged(d).blocks == MergeBlocks(OwnBlocks(d), ConfigBlocks(d))
  {
    OwnBlocksEvaluated(d);
  }

  lemma OwnEnv(d: MigrationData) returns (i: nat)
    ensures Sole(OwnBlocks(d), EnvKey(d), i) && OwnBlocks(d)[i] == EnvBlock(d)
  {
    i := |OwnBlocks(d)| - 1;
  }

  lemma OwnPaths(d: MigrationData)
    ensures var own := OwnBlocks(d);
            && Once(own, [EnvKey(d)]) && Gathered(own, [EnvKey(d)]) == EnvAttrs(d)
            && Once(own, [EnvKey(d), MIGRATION]) && Gathered(own, [EnvKey(d), MIGRATION]) == MigrationBlock(d).body.attrs
  {
    var own := OwnBlocks(d);
    var i := OwnEnv(d);
    assert Sole(EnvBlock(d).body.blocks, MIGRATION, 0);
    OnceOne(own, EnvKey(d), i);
    OnceTwo(own, EnvKey(d), i, MIGRATION, 0);
  }

  lemma OwnDriftPath(d: MigrationData)
    requires AddsDrift(d)
    ensures var own, path := OwnBlocks(d), [EnvKey(d), CHECK, DRIFT];
            Once(own, path) && Gathered(own, path) == PolicyAttrs(d.drift.value)
  {
    var own := OwnBlocks(d);
    var i := OwnEnv(d);
    assert Sole(EnvBlock(d).body.blocks, CHECK, 1);
    assert Sole(DriftBlock(d.drift.value).body.blocks, DRIFT, 0);
    OnceThree(own, EnvKey(d), i, CHECK, 1, DRIFT, 0);
  }

  // ---- The drift check, once ----------------------------------------------------

  lemma FindsDrift(bs: seq<Block>)
    ensures Search(bs, Drift, []).Some? <==> Chain(bs, [DRIFT])
  {
  }

  lemma GlobalIsChain(config: Body)
    ensures HasGlobalDrift(Some(config)) <==> Chain(config.blocks, [CHECK, DRIFT])
  {
    assert [CHECK, DRIFT][1..] == [DRIFT];
    forall b | b in config.blocks && KeyOf(b) == CHECK
      ensures IsGlobalDrift(b) <==> Chain(b.body.blocks, [DRIFT])
    {
      FindsDrift(b.body.blocks);
    }
    if HasGlobalDrift(Some(config)) {
      var b :| b in config.blocks && IsGlobalDrift(b);
      assert KeyOf(b) == CHECK;
    }
  }

  lemma EvaluationKeepsChecks(bs: seq<Block>, env: string)
    ensures Chain(EvalEnv(bs, env), [CHECK, DRIFT]) <==> Chain(bs, [CHECK, DRIFT])
  {
  }

  lemma OwnHasNoGlobal(d: MigrationData)
    ensures !Chain(OwnBlocks(d), [CHECK, DRIFT])
  {
    forall b | b in OwnBlocks(d) ensures KeyOf(b) != CHECK {
      assert b.typ == Atlas || b.typ == Env;
    }
  }

  /** The rendered file has a global drift check exactly when the config has one. */
  lemma GlobalDriftIsTheConfigs(d: MigrationData)
    ensures HasGlobalDrift(Some(Merged(d))) <==> HasGlobalDrift(d.config)
  {
    MergedBlocks(d);
    OwnHasNoGlobal(d);
    ChainProvenance(OwnBlocks(d), ConfigBlocks(d), [CHECK, DRIFT]);
    GlobalIsChain(Merged(d));
    if d.config.Some? {
      GlobalIsChain(d.config.value);
      EvaluationKeepsChecks(d.config.value.blocks, d.envName);
    }
  }

  /** The running env has a drift check exactly when the operator adds it or the config's env has one. */
  lemma EnvDriftOrigin(d: MigrationData)
    ensures var path := [EnvKey(d), CHECK, DRIFT];
            Chain(Merged(d).blocks, path) <==> AddsDrift(d) || Chain(ConfigBlocks(d), path)
  {
    var own := OwnBlocks(d);
    var i := OwnEnv(d);
    var path := [EnvKey(d), CHECK, DRIFT];
    assert path[1..] == [CHECK, DRIFT];
    MergedBlocks(d);
    assert HasKey(own[i], Env, [d.envName]);
    LabelledChain(own, ConfigBlocks(d), path);
    EnvBlockDrift(d);
    if Chain(own, path) {
      var b :| b in own && KeyOf(b) == path[0] && Chain(b.body.blocks, path[1..]);
      assert b == EnvBlock(d);
    }
    assert own[i] in own;
  }

  lemma EnvBlockDrift(d: MigrationData)
    ensures Chain(EnvBlock(d).body.blocks, [CHECK, DRIFT]) <==> AddsDrift(d)
  {
    assert [CHECK, DRIFT][1..] == [DRIFT];
    if AddsDrift(d) {
      var check := DriftBlock(d.drift.value);
      assert check.body.blocks[0] in check.body.blocks && Chain(check.body.blocks[0].body.blocks, [DRIFT][1..]);
      assert check in EnvBlock(d).body.blocks && Chain(check.body.blocks, [DRIFT]);
    }
  }

  lemma DriftPathMerged(d: MigrationData)
    requires AddsDrift(d)
    ensures var path := [EnvKey(d), CHECK, DRIFT];
            && Once(Merged(d).blocks, path)
            && Attrs(Merged(d), path) == PolicyAttrs(d.drift.value) + Gathered(ConfigBlocks(d), path)
  {
    OwnDriftPath(d);
    MergedBlocks(d);
    MergeAlongThree(OwnBlocks(d), ConfigBlocks(d), EnvKey(d), CHECK, DRIFT);
  }

  /**
   With a drift policy and no global check, the file has exactly one drift check
   for the running env: one env, one check, one drift block in it, with the
   policy's attributes overridden by the config's; and no global check.
   */
  lemma DriftCheckAddedOnce(d: MigrationData)
    requires AddsDrift(d)
    ensures var path := [EnvKey(d), CHECK, DRIFT];
            && Once(Merged(d).blocks, path)
            && Attrs(Merged(d), path) == PolicyAttrs(d.drift.value) + Gathered(ConfigBlocks(d), path)
    ensures !HasGlobalDrift(Some(Merged(d)))
  {
    DriftPathMerged(d);
    GlobalDriftIsTheConfigs(d);
  }

  // ---- The values the file is written with ----------------------------------------

  /** An empty field sets no attribute. */
  function Unless(s: string): Option<Expr> {
    if s == "" then None else Some(Str(s))
  }

  lemma FilePath(d: MigrationData, path: seq<Key>)
    requires path != [] && Once(OwnBlocks(d), path) && Firm(path)
    ensures Once(Merged(d).blocks, path)
    ensures Attrs(Merged(d), path) == Gathered(OwnBlocks(d), path) + Gathered(ConfigBlocks(d), path)
  {
    MergedBlocks(d);
    MergeAlongPath(OwnBlocks(d), ConfigBlocks(d), path);
  }

  lemma EnvFilePaths(d: MigrationData)
    ensures var path := [EnvKey(d)];
            && Once(Merged(d).blocks, path)
            && Attrs(Merged(d), path) == EnvAttrs(d) + Gathered(ConfigBlocks(d), path)
    ensures var path := [EnvKey(d), MIGRATION];
            && Once(Merged(d).blocks, path)
            && Attrs(Merged(d), path) == MigrationBlock(d).body.attrs + Gathered(ConfigBlocks(d), path)
  {
    OwnPaths(d);
    FilePath(d, [EnvKey(d)]);
    FilePath(d, [EnvKey(d), MIGRATION]);
  }

  lemma EnvOwn(d: MigrationData, a: Name)
    ensures a == Url ==> Holds(EnvAttrs(d), a, if d.url.Some? then Some(Str(d.url.value)) else None, map[])
    ensures a == Dev ==> Holds(EnvAttrs(d), a, Unless(d.devURL), map[])
    ensures a !in {Url, Dev} ==> Holds(EnvAttrs(d), a, None, map[])
  {
  }

  /** The running env's database URLs: the target's and the dev database's, unless the config sets its own. */
  lemma EnvValues(d: MigrationData, a: Name)
    ensures var path := [Key(Env, [d.envName])];
            var attrs, over := Attrs(Merged(d), path), Gathered(ConfigBlocks(d), path);
            && Once(Merged(d).blocks, path)
            && (a == Url ==> Holds(attrs, a, if d.url.Some? then Some(Str(d.url.value)) else None, over))
            && (a == Dev ==> Holds(attrs, a, Unless(d.devURL), over))
            && (a !in {Url, Dev} ==> Holds(attrs, a, None, over))
  {
    EnvFilePaths(d);
    EnvOwn(d, a);
    var own := EnvAttrs(d);
    HoldsOver(own, Gathered(ConfigBlocks(d), [EnvKey(d)]), a, if a in own then Some(own[a]) else None);
  }

  lemma MigrationOwn(d: MigrationData, a: Name)
    ensures var own := MigrationBlock(d).body.attrs;
            && (a == Dir ==> Holds(own, a, Some(Str(DirURL(d))), map[]))
            && (a == ExecOrder ==> Holds(own, a, Unless(d.execOrder), map[]))
            && (a == Baseline ==> Holds(own, a, Unless(d.baseline), map[]))
            && (a == RevisionsSchema ==> Holds(own, a, Unless(d.revisionsSchema), map[]))
            && (a !in {Dir, ExecOrder, Baseline, RevisionsSchema} ==> Holds(own, a, None, map[]))
  {
  }

  /** The running env's migration block: the directory, remote or local, and the three optional settings. */
  lemma MigrationValues(d: MigrationData, a: Name)
    ensures var path := [Key(Env, [d.envName]), Key(Migration, [])];
            var attrs, over := Attrs(Merged(d), path), Gathered(ConfigBlocks(d), path);
            && Once(Merged(d).blocks, path)
            && (a == Dir ==> Holds(attrs, a, Some(Str(DirURL(d))), over))
            && (a == ExecOrder ==> Holds(attrs, a, Unless(d.execOrder), over))
            && (a == Baseline ==> Holds(attrs, a, Unless(d.baseline), over))
            && (a == RevisionsSchema ==> Holds(attrs, a, Unless(d.revisionsSchema), over))
            && (a !in {Dir, ExecOrder, Baseline, RevisionsSchema} ==> Holds(attrs, a, None, over))
    ensures d.remote.Some? && d.remote.value.name != "" ==>
              DirURL(d) == "atlas://" + d.remote.value.name + "?tag=" + d.remote.value.tag
    ensures d.remote.None? || d.remote.value.name == "" ==> DirURL(d) == "file://migrations"
  {
    EnvFilePaths(d);
    MigrationOwn(d, a);
    var own := MigrationBlock(d).body.attrs;
    HoldsOver(own, Gathered(ConfigBlocks(d), [EnvKey(d), MIGRATION]), a, if a in own then Some(own[a]) else None);
  }

  lemma PolicyOwn(p: DriftPolicy, a: Name)
    ensures a == OnError && p.onError == "" ==> Holds(PolicyAttrs(p), a, Some(Ident("FAIL")), map[])
    ensures a == OnError && p.onError != "" ==> Holds(PolicyAttrs(p), a, Some(Ident(p.onError)), map[])
    ensures a == Exclude ==> Holds(PolicyAttrs(p), a, if p.exclude == [] then None else Some(Strs(p.exclude)), map[])
    ensures a !in {OnError, Exclude} ==> Holds(PolicyAttrs(p), a, None, map[])
  {
  }

  /**
   The drift block added for a policy when the config has no global one: the failure
   action, FAIL by default, and the exclusions.
   */
  lemma DriftValues(d: MigrationData, a: Name)
    requires d.drift.Some?
    requires d.config.Some? ==> !Chain(d.config.value.blocks, [Key(Check, ["migrate_apply"]), Key(Drift, [])])
    ensures var path := [Key(Env, [d.envName]), Key(Check, ["migrate_apply"]), Key(Drift, [])];
            var attrs, over, p := Attrs(Merged(d), path), Gathered(ConfigBlocks(d), path), d.drift.value;
            && Once(Merged(d).blocks, path)
            && (a == OnError && p.onError == "" ==> Holds(attrs, a, Some(Ident("FAIL")), over))
            && (a == OnError && p.onError != "" ==> Holds(attrs, a, Some(Ident(p.onError)), over))
            && (a == Exclude ==> Holds(attrs, a, if p.exclude == [] then None else Some(Strs(p.exclude)), over))
            && (a !in {OnError, Exclude} ==> Holds(attrs, a, None, over))
  {
    if d.config.Some? {
      GlobalIsChain(d.config.value);
    }
    DriftPathMerged(d);
    PolicyOwn(d.drift.value, a);
    var own := PolicyAttrs(d.drift.value);
    HoldsOver(own, Gathered(ConfigBlocks(d), [EnvKey(d), CHECK, DRIFT]), a, if a in own then Some(own[a]) else None);
  }

  lemma CloudFilePath(d: MigrationData)
    requires d.cloud.Some?
    ensures var path := [ATLAS, CLOUD];
            && Once(Merged(d).blocks, path)
            && Attrs(Merged(d), path) == CloudAttrs(d.cloud.value) + Gathered(ConfigBlocks(d), path)
  {
    var own := OwnBlocks(d);
    assert Sole(own, ATLAS, 0) && Sole(own[0].body.blocks, CLOUD, 0);
    OnceTwo(own, ATLAS, 0, CLOUD, 0);
    FilePath(d, [ATLAS, CLOUD]);
  }

  lemma CloudOwn(c: CloudSettings, a: Name)
    ensures a == Token ==> Holds(CloudAttrs(c), a, Unless(c.token), map[])
    ensures a == Url ==> Holds(CloudAttrs(c), a, Unless(c.url), map[])
    ensures a == Project ==> Holds(CloudAttrs(c), a, Unless(c.repo), map[])
    ensures a !in {Token, Url, Project} ==> Holds(CloudAttrs(c), a, None, map[])
  {
  }

  /** The cloud block of an operator with cloud settings: the token, the URL and the project, each when set. */
  lemma CloudValues(d: MigrationData, a: Name)
    requires d.cloud.Some?
    ensures var path := [Key(Atlas, []), Key(Cloud, [])];
            var attrs, over, c := Attrs(Merged(d), path), Gathered(ConfigBlocks(d), path), d.cloud.value;
            && Once(Merged(d).blocks, path)
            && (a == Token ==> Holds(attrs, a, Unless(c.token), over))
            && (a == Url ==> Holds(attrs, a, Unless(c.url), over))
            && (a == Project ==> Holds(attrs, a, Unless(c.repo), over))
            && (a !in {Token, Url, Project} ==> Holds(attrs, a, None, over))
  {
    CloudFilePath(d);
    CloudOwn(d.cloud.value, a);
    var own := CloudAttrs(d.cloud.value);
    HoldsOver(own, Gathered(ConfigBlocks(d), [ATLAS, CLOUD]), a, if a in own then Some(own[a]) else None);
  }

  lemma OwnCloudChain(d: MigrationData)
    ensures Chain(OwnBlocks(d), [ATLAS, CLOUD]) <==> d.cloud.Some?
  {
    assert [ATLAS, CLOUD][1..] == [CLOUD] && [CLOUD][1..] == [];
    if d.cloud.Some? {
      var atlas := CloudBlock(d.cloud.value);
      assert atlas.body.blocks[0] in atlas.body.blocks && KeyOf(atlas.body.blocks[0]) == CLOUD;
      assert Chain(atlas.body.blocks, [CLOUD]);
      assert OwnBlocks(d)[0] == atlas && KeyOf(atlas) == ATLAS;
    } else {
      assert OwnBlocks(d) == [EnvBlock(d)];
    }
  }

  /** The file has a cloud block exactly when there are cloud settings or the config has one. */
  lemma CloudOrigin(d: MigrationData)
    ensures var path := [Key(Atlas, []), Key(Cloud, [])];
            Chain(Merged(d).blocks, path) <==> d.cloud.Some? || Chain(ConfigBlocks(d), path)
  {
    OwnCloudChain(d);
    MergedBlocks(d);
    ChainProvenance(OwnBlocks(d), ConfigBlocks(d), [ATLAS, CLOUD]);
  }

  // ---- What rendering refuses ---------------------------------------------------

  datatype Rendering = NoEnv | NoURL | NoDir | BothDirs | Written(file: Body)

  method Render(d: MigrationData, table: PrintTable, norm: Normal) returns (r: Rendering)
    ensures r == Rendered(d, table, norm)
  {
    var own := AsBlocks(d);
    var f := Body(map[], own);
    if d.config.Some? {
      f := MergeFile(f, d.config.value, d.envName);
    }
    assert f == Merged(d);
    ghost var i, j := FinalAttributes(d);
    var env := Search(f.blocks, Env, [d.envName]);
    if env.None? {
      return NoEnv;
    }
    var b := f.blocks[env.value].body;
    if Url !in b.attrs {
      return NoURL;
    }
    var migration := Search(b.blocks, Migration, []);
    var dir: Option<Expr> := None;
    if migration.Some? && Dir in b.blocks[migration.value].body.attrs {
      dir := Some(b.blocks[migration.value].body.attrs[Dir]);
    }
    if dir.None? {
      return NoDir;
    }
    if HasRemoteDir(d) && !Contains(Text(table, norm, dir.value), DirURL(d)) {
      return BothDirs;
    }
    r := Written(f);
  }

  /** The attributes the running env, and its migration block, end up with. */
  ghost function FinalEnv(d: MigrationData): map<Name, Expr> {
    EnvAttrs(d) + Gathered(ConfigBlocks(d), [EnvKey(d)])
  }

  ghost function FinalMigration(d: MigrationData): (r: map<Name, Expr>)
    ensures Dir in r
  {
    MigrationBlock(d).body.attrs + Gathered(ConfigBlocks(d), [EnvKey(d), MIGRATION])
  }

  /** A file is refused exactly without a database URL, or when a config's directory is not the spec's remote one. */
  ghost function Rendered(d: MigrationData, table: PrintTable, norm: Normal): Rendering {
    if Url !in FinalEnv(d) then NoURL
    else if HasRemoteDir(d) && !Contains(Text(table, norm, FinalMigration(d)[Dir]), DirURL(d)) then BothDirs
    else Written(Merged(d))
  }

  lemma FinalAttributes(d: MigrationData) returns (i: nat, j: nat)
    ensures i < |Merged(d).blocks| && Search(Merged(d).blocks, Env, [d.envName]) == Some(i)
    ensures var env := Merged(d).blocks[i].body;
            && env.attrs == FinalEnv(d)
            && j < |env.blocks| && Search(env.blocks, Migration, []) == Some(j)
            && env.blocks[j].body.attrs == FinalMigration(d)
  {
    OwnPaths(d);
    MergedBlocks(d);
    i, j := MergedAttributes(OwnBlocks(d), ConfigBlocks(d), EnvKey(d), MIGRATION);
  }

  // ---- Remote directories refused ------------------------------------------------

  /** A character of the name is escaped, or one of the tag that does not belong to a final run of backslashes. */
  ghost predicate NeedsEscaping(table: PrintTable, r: RemoteDir) {
    || (exists i :: 0 <= i < |r.name| && EscapedAt(table, r.name, i))
    || (exists i :: 0 <= i < |r.tag| && EscapedAt(table, r.tag, i) && !Slashes(r.tag[i..]))
  }

  lemma SurvivesBehind(table: PrintTable, pre: string, s: string)
    requires forall i :: 0 <= i < |pre| ==> !EscapedAt(table, pre + s, i)
    ensures Survives(table, pre + s) <==> Survives(table, s)
  {
    var all := pre + s;
    forall i | |pre| <= i < |all|
      ensures EscapedAt(table, all, i) == EscapedAt(table, s, i - |pre|) && all[i..] == s[i - |pre|..]
    {
    }
    if Survives(table, all) {
      forall i | 0 <= i < |s| && EscapedAt(table, s, i) ensures Slashes(s[i..]) {
        assert EscapedAt(table, all, i + |pre|) && all[i + |pre|..] == s[i..];
      }
    }
  }

  /** Before the tag, a character of the URL is escaped exactly when it is one of the name that is. */
  lemma UrlEscapes(table: PrintTable, r: RemoteDir, i: nat)
    requires i < |SCHEME + r.name + TAG|
    ensures EscapedAt(table, RemoteURL(r), i) <==>
            |SCHEME| <= i < |SCHEME| + |r.name| && EscapedAt(table, r.name, i - |SCHEME|)
  {
    var u, n := RemoteURL(r), |SCHEME| + |r.name|;
    if i < |SCHEME| {
      assert u[i] == SCHEME[i];
    } else if i < n {
      assert u[i] == r.name[i - |SCHEME|];
      assert i + 1 == n ==> u[i + 1] == TAG[0];
      assert i + 1 < n ==> u[i + 1] == r.name[i + 1 - |SCHEME|];
    } else {
      assert u[i] == TAG[i - n];
    }
  }

  lemma UrlSurvives(table: PrintTable, r: RemoteDir)
    ensures Survives(table, RemoteURL(r)) <==> !NeedsEscaping(table, r)
  {
    var u, pre := RemoteURL(r), SCHEME + r.name + TAG;
    if i :| 0 <= i < |r.name| && EscapedAt(table, r.name, i) {
      UrlEscapes(table, r, |SCHEME| + i);
      var eq := |pre| - 1 - (|SCHEME| + i);
      assert u[|SCHEME| + i..][eq] == u[|pre| - 1] == TAG[4];
      assert !Slashes(u[|SCHEME| + i..]);
    } else {
      assert u == pre + r.tag;
      forall i | 0 <= i < |pre| ensures !EscapedAt(table, u, i) {
        UrlEscapes(table, r, i);
      }
      SurvivesBehind(table, pre, r.tag);
    }
  }

  lemma UrlIsFound(table: PrintTable, norm: Normal, r: RemoteDir)
    requires Normalises(norm)
    ensures Contains(Quoted(table, norm(RemoteURL(r))), RemoteURL(r)) <==>
            norm(RemoteURL(r)) == RemoteURL(r) && !NeedsEscaping(table, r)
  {
    var u := RemoteURL(r);
    assert u[..8] == SCHEME;
    forall i | 0 <= i < 6 ensures !EscapedAt(table, u, i) {
      UrlEscapes(table, r, i);
    }
    assert u[5] == SCHEME[5] && u[..5] == SCHEME[..5];
    NormalQuotationContains(table, norm, u, 5);
    UrlSurvives(table, r);
  }

  lemma OwnDirIsFinal(d: MigrationData)
    requires Dir !in Gathered(ConfigBlocks(d), [EnvKey(d), MIGRATION])
    ensures FinalMigration(d)[Dir] == Str(DirURL(d))
  {
  }

  /**
   A remote directory the config leaves alone is refused, as if the config had
   overridden it, exactly when its URL is not in normal form, its name holds a
   character that needs escaping, or its tag one that is not part of a final run
   of backslashes.
   */
  lemma OwnDirRefusedIff(d: MigrationData, table: PrintTable, norm: Normal)
    requires Normalises(norm) && HasRemoteDir(d) && Dir !in Gathered(ConfigBlocks(d), [EnvKey(d), MIGRATION])
    ensures Rendered(d, table, norm) == BothDirs <==>
            Url in FinalEnv(d) && (norm(DirURL(d)) != DirURL(d) || NeedsEscaping(table, d.remote.value))
  {
    OwnDirIsFinal(d);
    UrlIsFound(table, norm, d.remote.value);
  }

  /** A migration from the remote directory app at a tag, with no config. */
  function AppAt(tag: string): MigrationData {
    MigrationData("dev", Some("db"), "", Some(RemoteDir("app", tag)), None, "", "", "", None, None)
  }

  /** The tag a"b: refused for using both a remote and a local directory. */
  lemma QuotedTagIsRefused(table: PrintTable, norm: Normal)
    requires Normalises(norm)
    ensures Rendered(AppAt("a\"b"), table, norm) == BothDirs
  {
    var d := AppAt("a\"b");
    var tag := d.remote.value.tag;
    assert tag[1] == '"' && tag[1..][0] == '"';
    assert EscapedAt(table, tag, 1) && !Slashes(tag[1..]);
    assert ConfigBlocks(d) == [];
    OwnDirRefusedIff(d, table, norm);
  }

  /** The tag cafe with a combining acute accent: refused once the normal form composes the two. */
  lemma UncomposedTagIsRefused(table: PrintTable, norm: Normal)
    requires Normalises(norm) && norm([E, ACUTE]) == [E_ACUTE]
    ensures Rendered(AppAt("caf" + [E, ACUTE]), table, norm) == BothDirs
  {
    var d := AppAt("caf" + [E, ACUTE]);
    var u := DirURL(d);
    assert u == RemoteURL(d.remote.value);
    EndIsNormal(norm, SCHEME + "app" + TAG + "caf", [E, ACUTE], u);
    assert ConfigBlocks(d) == [];
    OwnDirRefusedIff(d, table, norm);
  }

  lemma EndIsNormal(norm: Normal, pre: string, end: string, all: string)
    requires Normalises(norm) && all == pre + end && norm(end) != end
    ensures norm(all) != all
  {
    assert all[|pre|..|all|] == end;
  }
}
