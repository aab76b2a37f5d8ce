/**
 Project configuration trees and their merge. A body holds attributes and an
 ordered list of typed, labelled blocks; merging a source into a destination
 overrides attributes, merges blocks of the same type and labels, and appends
 the rest.
 */
module Hcl {
  import opened Wrappers

  /** Block types and attribute names: the ones the operator writes or checks, and every other. */
  datatype Name =
    | Env | Security | Cve | Check | Drift | Migration | Atlas | Cloud
    | NameAttr | Url | Dev | Dir | Token | Project | Exclude | MinSeverity | FailOn | Ignore | OnError
    | ExecOrder | Baseline | RevisionsSchema
    | Other(text: string)

  /** Attribute values: the ones the operator writes or recognises, and every other by its source text. */
  datatype Expr = AtlasEnv | Str(value: string) | Strs(values: seq<string>) | Ident(name: string) | Expr(text: string)

  datatype Body = Body(attrs: map<Name, Expr>, blocks: seq<Block>)

  datatype Block = Block(typ: Name, labels: seq<string>, body: Body)

  // ---- Finding and evaluating blocks -------------------------------------------

  predicate HasKey(b: Block, typ: Name, labels: seq<string>) {
    b.typ == typ && b.labels == labels
  }

  function FindFirst(bs: seq<Block>, typ: Name, labels: seq<string>): (r: Option<nat>)
    ensures match r
            case None => forall i :: 0 <= i < |bs| ==> !HasKey(bs[i], typ, labels)
            case Some(k) => k < |bs| && HasKey(bs[k], typ, labels) && forall i :: 0 <= i < k ==> !HasKey(bs[i], typ, labels)
  {
    if bs == [] then None
    else
      var n := |bs| - 1;
      match FindFirst(bs[..n], typ, labels)
      case Some(k) => Some(k)
      case None => if HasKey(bs[n], typ, labels) then Some(n) else None
  }

  /** The block a source block merges into: the first with its type and labels; for an env, else the first unlabelled env. */
  function Search(bs: seq<Block>, typ: Name, labels: seq<string>): (r: Option<nat>)
    ensures r.Some? ==> r.value < |bs| && bs[r.value].typ == typ
    ensures r.None? ==> forall i :: 0 <= i < |bs| ==> !HasKey(bs[i], typ, labels)
    ensures FindFirst(bs, typ, labels).Some? ==> r == FindFirst(bs, typ, labels)
  {
    var exact := FindFirst(bs, typ, labels);
    if exact.None? && typ == Env then FindFirst(bs, Env, []) else exact
  }

  predicate NamesRunningEnv(b: Block) {
    b.typ == Env && b.labels == [] && NameAttr in b.body.attrs && b.body.attrs[NameAttr] == AtlasEnv
  }

  function Relabelled(b: Block, env: string): Block {
    b.(labels := [env], body := b.body.(attrs := b.body.attrs - {NameAttr}))
  }

  /** Unlabelled env blocks named after the running env take its label, up to the first labelled env block. */
  function EvalEnv(bs: seq<Block>, env: string): (r: seq<Block>)
    ensures |r| == |bs|
    ensures forall i :: 0 <= i < |bs| ==> r[i] == bs[i] || (NamesRunningEnv(bs[i]) && r[i] == Relabelled(bs[i], env))
  {
    if bs == [] then []
    else if bs[0].typ == Env && bs[0].labels != [] then bs
    else if NamesRunningEnv(bs[0]) then
      if env == "" then bs else [Relabelled(bs[0], env)] + EvalEnv(bs[1..], env)
    else [bs[0]] + EvalEnv(bs[1..], env)
  }

  /** Below the top level no env name is passed, and evaluation does nothing. */
  lemma {:induction false} NestedEvalIsIdentity(bs: seq<Block>)
    ensures EvalEnv(bs, "") == bs
  {
    if bs != [] {
      NestedEvalIsIdentity(bs[1..]);
      assert bs == [bs[0]] + bs[1..];
    }
  }

  predicate IsLabelledEnv(b: Block) {
    b.typ == Env && b.labels != []
  }

  /**
   Exactly one kind of block is changed: an unlabelled env with name = atlas.env
   that no labelled env stands before. It takes the running env's label and loses
   its name attribute.
   */
  lemma {:induction false} RelabelledIff(bs: seq<Block>, env: string, i: nat)
    requires i < |bs|
    ensures var b, r := bs[i], EvalEnv(bs, env)[i];
            if && env != ""
               && b.typ == Env && b.labels == [] && NameAttr in b.body.attrs && b.body.attrs[NameAttr] == AtlasEnv
               && (forall j :: 0 <= j < i ==> !IsLabelledEnv(bs[j]))
            then r == Block(Env, [env], Body(b.body.attrs - {NameAttr}, b.body.blocks))
            else r == b
  {
    if i > 0 && !IsLabelledEnv(bs[0]) {
      var rest := bs[1..];
      RelabelledIff(rest, env, i - 1);
      assert rest[i - 1] == bs[i] && forall j :: 0 < j < i ==> rest[j - 1] == bs[j];
    }
  }

  // ---- The merge ---------------------------------------------------------------

  /** One source block into a list of destination blocks. */
  function MergeOne(dst: seq<Block>, b: Block): seq<Block>
    decreases b, 1
  {
    match Search(dst, b.typ, b.labels)
    case None => dst + [b]
    case Some(i) => dst[i := MergeBlock(dst[i], b)]
  }

  function MergeBlock(d: Block, s: Block): Block
    decreases s, 0
  {
    d.(body := Body(d.body.attrs + s.body.attrs, MergeBlocks(d.body.blocks, s.body.blocks)))
  }

  function MergeBlocks(dst: seq<Block>, src: seq<Block>): seq<Block>
    decreases src, 0
  {
    if src == [] then dst
    else
      var n := |src| - 1;
      MergeOne(MergeBlocks(dst, src[..n]), src[n])
  }

  /** The merge of a whole file for the running env. */
  function MergeFile(dst: Body, src: Body, env: string): Body {
    dst.(blocks := MergeBlocks(EvalEnv(dst.blocks, env), EvalEnv(src.blocks, env)))
  }

  // ---- Blocks with a property --------------------------------------------------

  ghost predicate AnyBlock(bs: seq<Block>, p: Block -> bool) {
    exists b :: b in bs && p(b)
  }

  lemma AnySplit(bs: seq<Block>, p: Block -> bool)
    requires bs != []
    ensures AnyBlock(bs, p) <==> AnyBlock(bs[..|bs| - 1], p) || p(bs[|bs| - 1])
  {
  }

  lemma AnyUpdate(bs: seq<Block>, k: nat, now: Block, p: Block -> bool, added: bool)
    requires k < |bs| && (p(now) <==> p(bs[k]) || added)
    ensures AnyBlock(bs[k := now], p) <==> AnyBlock(bs, p) || added
  {
    var after := bs[k := now];
    assert after[k] in after && bs[k] in bs;
    forall b | b in bs ensures b in after || b == bs[k] {
      var i :| 0 <= i < |bs| && bs[i] == b;
      assert i != k ==> after[i] == b;
    }
    forall b | b in after ensures b in bs || b == now {
      var i :| 0 <= i < |after| && after[i] == b;
      assert i != k ==> bs[i] == b;
    }
  }

  /** A property a block has after a merge exactly when one side had it is, of a list, the disjunction of its sides. */
  lemma MergeOneAny(dst: seq<Block>, b: Block, p: Block -> bool)
    requires match Search(dst, b.typ, b.labels)
             case None => true
             case Some(k) => p(MergeBlock(dst[k], b)) <==> p(dst[k]) || p(b)
    ensures AnyBlock(MergeOne(dst, b), p) <==> AnyBlock(dst, p) || p(b)
  {
    match Search(dst, b.typ, b.labels)
    case None =>
      assert (dst + [b])[..|dst|] == dst;
      AnySplit(dst + [b], p);
    case Some(k) =>
      AnyUpdate(dst, k, MergeBlock(dst[k], b), p, p(b));
  }

  // ---- Where attributes come from ----------------------------------------------

  /** The body holds the attribute at the end of a path of block types. */
  ghost predicate BodyHas(body: Body, path: seq<Name>, a: Name)
    decreases |path|
  {
    if path == [] then a in body.attrs
    else exists b :: b in body.blocks && b.typ == path[0] && BodyHas(b.body, path[1..], a)
  }

  /** The blocks of the path's first type that hold the attribute at the end of its rest. */
  ghost function OnPath(path: seq<Name>, a: Name): Block -> bool
    requires path != []
  {
    (b: Block) => b.typ == path[0] && BodyHas(b.body, path[1..], a)
  }

  /** The blocks with the given type and labels that hold the attribute at the end of the path. */
  ghost function Carrying(typ: Name, labels: seq<string>, path: seq<Name>, a: Name): Block -> bool {
    (b: Block) => HasKey(b, typ, labels) && BodyHas(b.body, path, a)
  }

  ghost predicate AnyHas(bs: seq<Block>, path: seq<Name>, a: Name)
    requires path != []
  {
    AnyBlock(bs, OnPath(path, a))
  }

  ghost predicate LabelledHas(bs: seq<Block>, typ: Name, labels: seq<string>, path: seq<Name>, a: Name) {
    AnyBlock(bs, Carrying(typ, labels, path, a))
  }

  /** Merging two blocks holds, on every path, exactly the attributes of either. */
  lemma {:induction false} BlockProvenance(d: Block, s: Block, path: seq<Name>, a: Name)
    ensures BodyHas(MergeBlock(d, s).body, path, a) <==> BodyHas(d.body, path, a) || BodyHas(s.body, path, a)
    decreases s, 0
  {
    if path != [] {
      BlocksProvenance(d.body.blocks, s.body.blocks, path, a);
      BodyHasIsAny(d.body, path, a);
      BodyHasIsAny(s.body, path, a);
      BodyHasIsAny(MergeBlock(d, s).body, path, a);
    }
  }

  lemma BodyHasIsAny(body: Body, path: seq<Name>, a: Name)
    requires path != []
    ensures BodyHas(body, path, a) <==> AnyHas(body.blocks, path, a)
  {
    if AnyHas(body.blocks, path, a) {
      var b :| b in body.blocks && OnPath(path, a)(b);
    }
    if BodyHas(body, path, a) {
      var b :| b in body.blocks && b.typ == path[0] && BodyHas(b.body, path[1..], a);
      assert OnPath(path, a)(b);
    }
  }

  /** Provenance: on every path of block types, a merge holds exactly the attributes of its two sides. */
  lemma {:induction false} BlocksProvenance(dst: seq<Block>, src: seq<Block>, path: seq<Name>, a: Name)
    requires path != []
    ensures AnyHas(MergeBlocks(dst, src), path, a) <==> AnyHas(dst, path, a) || AnyHas(src, path, a)
    decreases src, 0
  {
    if src != [] {
      var n := |src| - 1;
      var before, b := MergeBlocks(dst, src[..n]), src[n];
      BlocksProvenance(dst, src[..n], path, a);
      var k := Search(before, b.typ, b.labels);
      if k.Some? {
        BlockProvenance(before[k.value], b, path[1..], a);
      }
      MergeOneAny(before, b, OnPath(path, a));
      AnySplit(src, OnPath(path, a));
    }
  }

  /** A merge keeps every block of the destination in place, with its type and labels. */
  lemma MergeOneKeepsKeys(dst: seq<Block>, b: Block, typ: Name, labels: seq<string>)
    ensures var after := MergeOne(dst, b);
            && |dst| <= |after|
            && (forall i :: 0 <= i < |dst| ==> after[i].typ == dst[i].typ && after[i].labels == dst[i].labels)
            && (FindFirst(dst, typ, labels).Some? ==> FindFirst(after, typ, labels) == FindFirst(dst, typ, labels))
  {
  }

  /** With the labelled block present, only blocks of its label merge into it. */
  lemma SearchRespectsLabel(dst: seq<Block>, b: Block, k: nat, typ: Name, labels: seq<string>)
    requires FindFirst(dst, typ, labels).Some? && labels != [] && Search(dst, b.typ, b.labels) == Some(k)
    ensures HasKey(dst[k], typ, labels) <==> HasKey(b, typ, labels)
  {
  }

  lemma CarryingMerges(d: Block, b: Block, typ: Name, labels: seq<string>, path: seq<Name>, a: Name)
    requires HasKey(d, typ, labels) <==> HasKey(b, typ, labels)
    ensures var p := Carrying(typ, labels, path, a); p(MergeBlock(d, b)) <==> p(d) || p(b)
  {
    BlockProvenance(d, b, path, a);
  }

  lemma {:induction false} BlocksKeepKeys(dst: seq<Block>, src: seq<Block>, typ: Name, labels: seq<string>)
    requires FindFirst(dst, typ, labels).Some?
    ensures FindFirst(MergeBlocks(dst, src), typ, labels) == FindFirst(dst, typ, labels)
    decreases |src|
  {
    if src != [] {
      var n := |src| - 1;
      BlocksKeepKeys(dst, src[..n], typ, labels);
      MergeOneKeepsKeys(MergeBlocks(dst, src[..n]), src[n], typ, labels);
    }
  }

  lemma MergeOneLabelled(dst: seq<Block>, b: Block, typ: Name, labels: seq<string>, path: seq<Name>, a: Name)
    requires FindFirst(dst, typ, labels).Some? && labels != []
    ensures var p := Carrying(typ, labels, path, a);
            AnyBlock(MergeOne(dst, b), p) <==> AnyBlock(dst, p) || p(b)
  {
    var k := Search(dst, b.typ, b.labels);
    if k.Some? {
      SearchRespectsLabel(dst, b, k.value, typ, labels);
      CarryingMerges(dst[k.value], b, typ, labels, path, a);
    }
    MergeOneAny(dst, b, Carrying(typ, labels, path, a));
  }

  lemma {:induction false} BlocksCarrying(dst: seq<Block>, src: seq<Block>, typ: Name, labels: seq<string>, path: seq<Name>, a: Name)
    requires FindFirst(dst, typ, labels).Some? && labels != []
    ensures var p := Carrying(typ, labels, path, a);
            AnyBlock(MergeBlocks(dst, src), p) <==> AnyBlock(dst, p) || AnyBlock(src, p)
    decreases |src|
  {
    if src != [] {
      var n := |src| - 1;
      BlocksCarrying(dst, src[..n], typ, labels, path, a);
      BlocksKeepKeys(dst, src[..n], typ, labels);
      MergeOneLabelled(MergeBlocks(dst, src[..n]), src[n], typ, labels, path, a);
      AnySplit(src, Carrying(typ, labels, path, a));
    }
  }

  /** A merge into a list that has the labelled block adds to it exactly what carries its label. */
  lemma BlocksLabelled(dst: seq<Block>, src: seq<Block>, typ: Name, labels: seq<string>, path: seq<Name>, a: Name)
    requires FindFirst(dst, typ, labels).Some? && labels != []
    ensures LabelledHas(MergeBlocks(dst, src), typ, labels, path, a) <==>
            LabelledHas(dst, typ, labels, path, a) || LabelledHas(src, typ, labels, path, a)
  {
    BlocksCarrying(dst, src, typ, labels, path, a);
  }
}
