/**
 The atlas.hcl a scan runs with, and the check that keeps a custom config from
 deciding what the scan reports. The check reads the config before the merge;
 its soundness is about the file after it.
 */
module ScanPolicyCheck {
  import opened Wrappers
  import opened Hcl
  import opened HclAlgebra
  import opened HclPaths

  // ---- The check ---------------------------------------------------------------

  datatype PolicyPath = SecurityPath | CvePath

  /** The attributes that grade a scan, by the block path they sit in. */
  function PolicyAttrs(path: PolicyPath): seq<Name> {
    match path
    case SecurityPath => [MinSeverity, FailOn]
    case CvePath => [MinSeverity, Ignore]
  }

  function Nested(path: PolicyPath, typ: Name): Option<PolicyPath> {
    if path == SecurityPath && typ == Cve then Some(CvePath) else None
  }

  predicate BlockAllowed(b: Block, path: PolicyPath)
    decreases b
  {
    && (forall a :: a in PolicyAttrs(path) ==> a !in b.body.attrs)
    && (forall n :: n in b.body.blocks && Nested(path, n.typ).Some? ==> BlockAllowed(n, Nested(path, n.typ).value))
  }

  /** An env block the check looks at: the running env by label, or an unlabelled one that may become it. */
  predicate MayRun(b: Block, env: string) {
    b.typ == Env && (b.labels == [] || env in b.labels)
  }

  predicate EnvAllowed(b: Block) {
    && Exclude !in b.body.attrs
    && (forall n :: n in b.body.blocks && n.typ == Security ==> BlockAllowed(n, SecurityPath))
  }

  predicate CheckPolicy(cfg: Body, env: string) {
    forall b :: b in cfg.blocks ==>
      && (b.typ == Security ==> BlockAllowed(b, SecurityPath))
      && (MayRun(b, env) ==> EnvAllowed(b))
  }

  // ---- What the scan runs with -------------------------------------------------

  /** The path of an attribute only spec.policy may set, below a body: a security block's, or its cve block's. */
  predicate Forbidden(path: seq<Name>, a: Name) {
    || (path == [Security] && a in [MinSeverity, FailOn])
    || (path == [Security, Cve] && a in [MinSeverity, Ignore])
  }

  /** Nothing in the file overrides spec.policy for the env that runs. */
  ghost predicate PolicyFree(blocks: seq<Block>, env: string) {
    && !LabelledHas(blocks, Env, [env], [], Exclude)
    && (forall path, a :: Forbidden(path, a) ==> !LabelledHas(blocks, Env, [env], path, a))
    && (forall path, a :: Forbidden(path, a) ==> !AnyHas(blocks, path, a))
  }

  /** The inputs of the rendering: the env name, the cloud token and the database URL, each when set. */
  datatype ScanData = ScanData(env: string, token: Option<string>, url: Option<string>, config: Option<Body>)

  function Base(d: ScanData): Body {
    var cloud := Block(Cloud, [], Body(if d.token.Some? then map[Token := Str(d.token.value)] else map[], []));
    var env := Block(Env, [d.env], Body(if d.url.Some? then map[Url := Str(d.url.value)] else map[], []));
    Body(map[], (if d.token.Some? then [Block(Atlas, [], Body(map[], [cloud]))] else []) + [env])
  }

  function Rendered(d: ScanData): Body {
    if d.config.None? then Base(d) else MergeFile(Base(d), d.config.value, d.env)
  }

  /** The config's blocks once its unlabelled env blocks named after the running env take its label. */
  function ConfigBlocks(d: ScanData): seq<Block> {
    if d.config.None? then [] else EvalEnv(d.config.value.blocks, d.env)
  }

  // ---- Soundness ---------------------------------------------------------------

  lemma AllowedMeansFree(b: Block, path: seq<Name>, a: Name)
    requires Forbidden(path, a)
    requires b.typ == Security && BlockAllowed(b, SecurityPath)
    ensures !OnPath(path, a)(b)
  {
    if path == [Security, Cve] {
      assert path[1..] == [Cve] && [Cve][1..] == [];
    }
  }

  lemma EnvAllowedMeansFree(b: Block, path: seq<Name>, a: Name)
    requires EnvAllowed(b) && Forbidden(path, a)
    ensures !BodyHas(b.body, path, a)
  {
    if BodyHas(b.body, path, a) {
      var n :| n in b.body.blocks && n.typ == path[0] && BodyHas(n.body, path[1..], a);
      AllowedMeansFree(n, path, a);
    }
  }

  /** Relabelling a block for the running env keeps what the policy could be overridden with. */
  lemma EvaluatedBlock(bs: seq<Block>, env: string, b: Block) returns (o: Block)
    requires b in EvalEnv(bs, env)
    ensures o in bs && o.typ == b.typ && o.body.blocks == b.body.blocks
    ensures o.labels == b.labels || (o.labels == [] && b.labels == [env] && b.typ == Env)
    ensures forall a :: a != NameAttr ==> (a in o.body.attrs <==> a in b.body.attrs)
  {
    var i :| 0 <= i < |bs| && EvalEnv(bs, env)[i] == b;
    o := bs[i];
  }

  lemma SamePaths(b: Body, o: Body, path: seq<Name>, a: Name)
    requires o.blocks == b.blocks && a != NameAttr
    requires forall x :: x != NameAttr ==> (x in o.attrs <==> x in b.attrs)
    ensures BodyHas(b, path, a) <==> BodyHas(o, path, a)
  {
  }

  /** Top-level blocks of the evaluated config are as free as the check says. */
  lemma EvaluatedTopLevelFree(cfg: Body, env: string, path: seq<Name>, a: Name)
    requires CheckPolicy(cfg, env) && Forbidden(path, a)
    ensures !AnyHas(EvalEnv(cfg.blocks, env), path, a)
  {
    if AnyHas(EvalEnv(cfg.blocks, env), path, a) {
      var b :| b in EvalEnv(cfg.blocks, env) && OnPath(path, a)(b);
      var o := EvaluatedBlock(cfg.blocks, env, b);
      TopLevelFree(o, b, path, a);
    }
  }

  lemma TopLevelFree(o: Block, b: Block, path: seq<Name>, a: Name)
    requires (o.typ == Security ==> BlockAllowed(o, SecurityPath)) && Forbidden(path, a)
    requires o.typ == b.typ && o.body.blocks == b.body.blocks
    requires forall x :: x != NameAttr ==> (x in o.body.attrs <==> x in b.body.attrs)
    ensures !OnPath(path, a)(b)
  {
    SamePaths(b.body, o.body, path[1..], a);
    if o.typ == Security {
      AllowedMeansFree(o, path, a);
    }
  }

  lemma RunningEnvFree(o: Block, b: Block, env: string, path: seq<Name>, a: Name)
    requires EnvAllowed(o) && (Forbidden(path, a) || (path == [] && a == Exclude))
    requires o.body.blocks == b.body.blocks
    requires forall x :: x != NameAttr ==> (x in o.body.attrs <==> x in b.body.attrs)
    ensures !BodyHas(b.body, path, a)
  {
    if path != [] {
      SamePaths(b.body, o.body, path, a);
      EnvAllowedMeansFree(o, path, a);
    }
  }

  lemma EvaluatedEnvFree(cfg: Body, env: string, path: seq<Name>, a: Name)
    requires CheckPolicy(cfg, env) && (Forbidden(path, a) || (path == [] && a == Exclude))
    ensures !LabelledHas(EvalEnv(cfg.blocks, env), Env, [env], path, a)
  {
    forall b | b in EvalEnv(cfg.blocks, env) && HasKey(b, Env, [env])
      ensures !BodyHas(b.body, path, a)
    {
      var o := EvaluatedBlock(cfg.blocks, env, b);
      assert MayRun(o, env);
      RunningEnvFree(o, b, env, path, a);
    }
  }

  lemma BaseIsFree(d: ScanData, path: seq<Name>, a: Name)
    requires Forbidden(path, a) || (path == [] && a == Exclude)
    ensures !LabelledHas(Base(d).blocks, Env, [d.env], path, a)
    ensures path != [] ==> !AnyHas(Base(d).blocks, path, a)
  {
  }

  lemma BaseHasTheEnv(d: ScanData)
    ensures FindFirst(EvalEnv(Base(d).blocks, d.env), Env, [d.env]).Some?
    ensures EvalEnv(Base(d).blocks, d.env) == Base(d).blocks
  {
  }

  /** Soundness: a config the check accepts leaves nothing in the rendered file that overrides spec.policy for the env that runs. */
  lemma CheckIsSound(d: ScanData)
    requires d.config.Some? ==> CheckPolicy(d.config.value, d.env)
    ensures PolicyFree(Rendered(d).blocks, d.env)
  {
    forall path, a | Forbidden(path, a) || (path == [] && a == Exclude)
      ensures !LabelledHas(Rendered(d).blocks, Env, [d.env], path, a)
    {
      BaseIsFree(d, path, a);
      if d.config.Some? {
        BaseHasTheEnv(d);
        EvaluatedEnvFree(d.config.value, d.env, path, a);
        BlocksLabelled(Base(d).blocks, EvalEnv(d.config.value.blocks, d.env), Env, [d.env], path, a);
      }
    }
    forall path, a | Forbidden(path, a)
      ensures !AnyHas(Rendered(d).blocks, path, a)
    {
      BaseIsFree(d, path, a);
      if d.config.Some? {
        BaseHasTheEnv(d);
        EvaluatedTopLevelFree(d.config.value, d.env, path, a);
        BlocksProvenance(Base(d).blocks, EvalEnv(d.config.value.blocks, d.env), path, a);
      }
    }
  }

  // ---- Precision ---------------------------------------------------------------

  /** A block the check rejects does hold a forbidden attribute. */
  lemma RejectedHolds(b: Block) returns (path: seq<Name>, a: Name)
    requires b.typ == Security && !BlockAllowed(b, SecurityPath)
    ensures Forbidden(path, a) && OnPath(path, a)(b)
  {
    if x :| x in PolicyAttrs(SecurityPath) && x in b.body.attrs {
      path, a := [Security], x;
    } else {
      var n :| n in b.body.blocks && n.typ == Cve && !BlockAllowed(n, CvePath);
      path, a := [Security, Cve], if MinSeverity in n.body.attrs then MinSeverity else Ignore;
      assert BodyHas(n.body, [], a) && path[1..] == [Cve] && [Cve][1..] == [];
      assert BodyHas(b.body, [Cve], a);
    }
  }

  predicate SingleLabelled(blocks: seq<Block>) {
    forall b :: b in blocks && b.typ == Env ==> |b.labels| == 1
  }

  lemma {:induction false} SingleLabelledEvalIsIdentity(bs: seq<Block>, env: string)
    requires SingleLabelled(bs)
    ensures EvalEnv(bs, env) == bs
  {
  }

  lemma RejectedSecurityHolds(d: ScanData, b: Block)
    requires d.config.Some? && EvalEnv(d.config.value.blocks, d.env) == d.config.value.blocks
    requires b in d.config.value.blocks && b.typ == Security && !BlockAllowed(b, SecurityPath)
    ensures !PolicyFree(Rendered(d).blocks, d.env)
  {
    BaseHasTheEnv(d);
    var path, a := RejectedHolds(b);
    assert AnyHas(d.config.value.blocks, path, a);
    BlocksProvenance(Base(d).blocks, d.config.value.blocks, path, a);
  }

  lemma RejectedEnvHolds(d: ScanData, b: Block)
    requires d.config.Some? && EvalEnv(d.config.value.blocks, d.env) == d.config.value.blocks
    requires b in d.config.value.blocks && b.typ == Env && b.labels == [d.env] && !EnvAllowed(b)
    ensures !PolicyFree(Rendered(d).blocks, d.env)
  {
    var blocks := d.config.value.blocks;
    BaseHasTheEnv(d);
    var path, a := [], Exclude;
    if Exclude !in b.body.attrs {
      var n :| n in b.body.blocks && n.typ == Security && !BlockAllowed(n, SecurityPath);
      path, a := RejectedHolds(n);
      assert BodyHas(b.body, path, a);
    }
    assert Carrying(Env, [d.env], path, a)(b);
    assert LabelledHas(blocks, Env, [d.env], path, a);
    BlocksLabelled(Base(d).blocks, blocks, Env, [d.env], path, a);
  }

  predicate Offends(b: Block, env: string) {
    (b.typ == Security && !BlockAllowed(b, SecurityPath)) || (MayRun(b, env) && !EnvAllowed(b))
  }

  lemma RejectedHasOffender(cfg: Body, env: string) returns (b: Block)
    requires !CheckPolicy(cfg, env)
    ensures b in cfg.blocks && Offends(b, env)
  {
    b :| b in cfg.blocks && !((b.typ == Security ==> BlockAllowed(b, SecurityPath)) && (MayRun(b, env) ==> EnvAllowed(b)));
  }

  /** On configs whose env blocks each carry one label, the check accepts exactly those that leave spec.policy in charge. */
  lemma CheckIsExact(d: ScanData)
    requires d.config.Some? && SingleLabelled(d.config.value.blocks)
    ensures CheckPolicy(d.config.value, d.env) <==> PolicyFree(Rendered(d).blocks, d.env)
  {
    if CheckPolicy(d.config.value, d.env) {
      CheckIsSound(d);
    } else {
      SingleLabelledEvalIsIdentity(d.config.value.blocks, d.env);
      var b := RejectedHasOffender(d.config.value, d.env);
      if b.typ == Security {
        RejectedSecurityHolds(d, b);
      } else {
        assert b.labels == [d.env];
        RejectedEnvHolds(d, b);
      }
    }
  }

  // ---- What the check reads ------------------------------------------------------

  /** The attribute is set where only spec.policy may set it: below the body, or as its exclude. */
  ghost predicate SetsPolicy(body: Body) {
    (exists path, a :: Forbidden(path, a) && BodyHas(body, path, a)) || BodyHas(body, [], Exclude)
  }

  lemma EnvAllowedIff(b: Block)
    ensures EnvAllowed(b) <==> !SetsPolicy(b.body)
  {
    if EnvAllowed(b) {
      forall path, a | Forbidden(path, a) ensures !BodyHas(b.body, path, a) {
        EnvAllowedMeansFree(b, path, a);
      }
    } else if Exclude !in b.body.attrs {
      var n :| n in b.body.blocks && n.typ == Security && !BlockAllowed(n, SecurityPath);
      var path, a := RejectedHolds(n);
      assert BodyHas(b.body, path, a);
    }
  }

  /**
   The check refuses exactly a forbidden attribute in a top-level security block,
   and one, or an exclude, in an env block that has no label or has the running
   env among its labels.
   */
  lemma CheckReads(cfg: Body, env: string)
    ensures CheckPolicy(cfg, env) <==>
            && (forall path, a :: Forbidden(path, a) ==> !AnyHas(cfg.blocks, path, a))
            && (forall b :: b in cfg.blocks && b.typ == Env && (b.labels == [] || env in b.labels) ==> !SetsPolicy(b.body))
  {
    if CheckPolicy(cfg, env) {
      forall path, a | Forbidden(path, a) ensures !AnyHas(cfg.blocks, path, a) {
        forall b | b in cfg.blocks && b.typ == Security ensures !OnPath(path, a)(b) {
          AllowedMeansFree(b, path, a);
        }
      }
      forall b | b in cfg.blocks && MayRun(b, env) ensures !SetsPolicy(b.body) {
        EnvAllowedIff(b);
      }
    } else {
      var b := RejectedHasOffender(cfg, env);
      if b.typ == Security {
        var path, a := RejectedHolds(b);
        assert AnyHas(cfg.blocks, path, a);
      } else {
        EnvAllowedIff(b);
      }
    }
  }

  // ---- The values the file is written with ----------------------------------------

  lemma BaseEnv(d: ScanData)
    ensures var path := [Key(Env, [d.env])];
            && Once(Base(d).blocks, path)
            && Gathered(Base(d).blocks, path) == if d.url.Some? then map[Url := Str(d.url.value)] else map[]
  {
    assert Sole(Base(d).blocks, Key(Env, [d.env]), |Base(d).blocks| - 1);
    OnceOne(Base(d).blocks, Key(Env, [d.env]), |Base(d).blocks| - 1);
  }

  lemma BaseCloud(d: ScanData)
    requires d.token.Some?
    ensures var path := [Key(Atlas, []), Key(Cloud, [])];
            && Once(Base(d).blocks, path)
            && Gathered(Base(d).blocks, path) == map[Token := Str(d.token.value)]
  {
    assert Sole(Base(d).blocks, Key(Atlas, []), 0) && Sole(Base(d).blocks[0].body.blocks, Key(Cloud, []), 0);
    OnceTwo(Base(d).blocks, Key(Atlas, []), 0, Key(Cloud, []), 0);
  }

  lemma FilePath(d: ScanData, path: seq<Key>)
    requires path != [] && Once(Base(d).blocks, path) && Firm(path)
    ensures Once(Rendered(d).blocks, path)
    ensures Attrs(Rendered(d), path) == Gathered(Base(d).blocks, path) + Gathered(ConfigBlocks(d), path)
  {
    BaseHasTheEnv(d);
    MergeAlongPath(Base(d).blocks, ConfigBlocks(d), path);
  }

  /** The scan's target: the spec's URL in the one block of the running env, unless the config sets its own. */
  lemma EnvValues(d: ScanData, a: Name)
    ensures var path := [Key(Env, [d.env])];
            && Once(Rendered(d).blocks, path)
            && Holds(Attrs(Rendered(d), path), a, if a == Url && d.url.Some? then Some(Str(d.url.value)) else None,
                     Gathered(ConfigBlocks(d), path))
  {
    BaseEnv(d);
    FilePath(d, [Key(Env, [d.env])]);
  }

  /** The cloud token, when there is one, in the one cloud block of the file, unless the config sets its own. */
  lemma CloudValues(d: ScanData, a: Name)
    requires d.token.Some?
    ensures var path := [Key(Atlas, []), Key(Cloud, [])];
            && Once(Rendered(d).blocks, path)
            && Holds(Attrs(Rendered(d), path), a, if a == Token then Some(Str(d.token.value)) else None,
                     Gathered(ConfigBlocks(d), path))
  {
    BaseCloud(d);
    FilePath(d, [Key(Atlas, []), Key(Cloud, [])]);
  }

  /** The file has a cloud block exactly when there is a token or the config has one. */
  lemma CloudOrigin(d: ScanData)
    ensures var path := [Key(Atlas, []), Key(Cloud, [])];
            Chain(Rendered(d).blocks, path) <==> d.token.Some? || Chain(ConfigBlocks(d), path)
  {
    var base, path := Base(d).blocks, [Key(Atlas, []), Key(Cloud, [])];
    assert path[1..] == [Key(Cloud, [])] && [Key(Cloud, [])][1..] == [];
    BaseHasTheEnv(d);
    ChainProvenance(base, ConfigBlocks(d), path);
    if d.token.Some? {
      var atlas := base[0];
      assert atlas.body.blocks[0] in atlas.body.blocks && KeyOf(atlas.body.blocks[0]) == Key(Cloud, []);
      assert Chain(atlas.body.blocks, [Key(Cloud, [])]);
    }
  }

  // ---- What rendering refuses ----------------------------------------------------

  /** A database URL comes from the spec, or from any env block of the config that becomes the running one. */
  ghost predicate HasURL(d: ScanData) {
    d.url.Some? || Url in Gathered(ConfigBlocks(d), [Key(Env, [d.env])])
  }

  /** The file is refused exactly when neither side sets a database URL for the running env. */
  method Render(d: ScanData) returns (r: Option<Body>)
    ensures r == if HasURL(d) then Some(Rendered(d)) else None
  {
    var f := Base(d);
    var env := |f.blocks| - 1;
    if d.config.Some? {
      f := MergeFile(f, d.config.value, d.env);
    }
    RunningEnvStays(d);
    if Url !in f.blocks[env].body.attrs {
      return None;
    }
    r := Some(f);
  }

  /** The operator's own env block stays in place through the merge, with the config's attributes over its own. */
  lemma RunningEnvStays(d: ScanData)
    ensures var n := |Base(d).blocks| - 1;
            && n < |Rendered(d).blocks| && KeyOf(Rendered(d).blocks[n]) == Key(Env, [d.env])
            && (Url in Rendered(d).blocks[n].body.attrs <==> HasURL(d))
  {
    var base, cfg, k := Base(d).blocks, ConfigBlocks(d), Key(Env, [d.env]);
    var n := |base| - 1;
    BaseHasTheEnv(d);
    assert Sole(base, k, n);
    OnceOne(base, k, n);
    SoleStays(base, cfg, k, n);
    assert Rendered(d).blocks == MergeBlocks(base, cfg);
  }
}
