/**
 The merge as it works on a parsed file: blocks are objects, a destination is
 changed in place, and an appended source block becomes part of it.
 */
module HclNodes {
  import opened Wrappers
  import opened Hcl
  import opened HclAlgebra

  /** A block together with its body; a whole file is the node of its top-level body. */
  class Node {
    const typ: Name
    var labels: seq<string>
    var attrs: map<Name, Expr>
    var blocks: seq<Node>
    ghost var Repr: set<Node>
    ghost var Model: Block

    /** The nodes below form a tree, and Model is its value. */
    ghost predicate Valid()
      reads this, Repr
      ensures Valid() ==> this in Repr
      decreases Repr
    {
      && this in Repr
      && (forall b :: b in blocks ==> b in Repr && b.Repr < Repr && this !in b.Repr && b.Valid())
      && (forall i, j :: 0 <= i < j < |blocks| ==> blocks[i].Repr !! blocks[j].Repr)
      && Model.typ == typ && Model.labels == labels && Model.body.attrs == attrs
      && |Model.body.blocks| == |blocks|
      && (forall i :: 0 <= i < |blocks| ==> Model.body.blocks[i] == blocks[i].Model)
    }

    constructor (typ: Name, labels: seq<string>)
      ensures Valid() && fresh(Repr) && Model == Block(typ, labels, Body(map[], []))
    {
      this.typ, this.labels, attrs, blocks := typ, labels, map[], [];
      Repr, Model := {this}, Block(typ, labels, Body(map[], []));
    }

    /** The first block of the type with the labels, and for an env else the first without. */
    method Find(typ: Name, labels: seq<string>) returns (r: Option<nat>)
      requires Valid()
      ensures r == Search(Model.body.blocks, typ, labels)
    {
      r := FindExact(typ, labels);
      if r.None? && typ == Env {
        r := FindExact(Env, []);
      }
    }

    method FindExact(typ: Name, labels: seq<string>) returns (r: Option<nat>)
      requires Valid()
      ensures r == FindFirst(Model.body.blocks, typ, labels)
    {
      ChildKeys();
      r := FirstWith(blocks, Model.body.blocks, typ, labels);
    }

    static method FirstWith(list: seq<Node>, ghost bs: seq<Block>, typ: Name, labels: seq<string>) returns (r: Option<nat>)
      requires |bs| == |list|
      requires forall j :: 0 <= j < |list| ==> bs[j].typ == list[j].typ && bs[j].labels == list[j].labels
      ensures r == FindFirst(bs, typ, labels)
    {
      for i := 0 to |list|
        invariant forall j :: 0 <= j < i ==> !HasKey(bs[j], typ, labels)
      {
        if list[i].typ == typ && list[i].labels == labels {
          FirstIs(bs, typ, labels, Some(i));
          return Some(i);
        }
      }
      FirstIs(bs, typ, labels, None);
      return None;
    }

    lemma ChildKeys()
      requires Valid()
      ensures |Model.body.blocks| == |blocks|
      ensures forall j :: 0 <= j < |blocks| ==>
                var b := Model.body.blocks[j];
                b.typ == blocks[j].typ && b.labels == blocks[j].labels && b.body.attrs == blocks[j].attrs
    {
      forall j | 0 <= j < |blocks|
        ensures var b := Model.body.blocks[j];
                b.typ == blocks[j].typ && b.labels == blocks[j].labels && b.body.attrs == blocks[j].attrs
      {
        assert blocks[j] in blocks;
      }
    }

    /** Every child is a tree of its own; the i-th has changed since Model and Repr were written. */
    ghost predicate ValidBut(i: nat)
      reads this, blocks, set b: Node, n: Node | b in blocks && n in b.Repr :: n
    {
      && i < |blocks| && this in Repr
      && (forall b :: b in blocks ==> this !in b.Repr && b.Valid())
      && (forall j, k :: 0 <= j < k < |blocks| ==> blocks[j].Repr !! blocks[k].Repr)
      && Model.typ == typ && Model.labels == labels && Model.body.attrs == attrs
      && |Model.body.blocks| == |blocks|
      && (forall j :: 0 <= j < |blocks| && j != i ==> Model.body.blocks[j] == blocks[j].Model && blocks[j].Repr <= Repr)
    }

    ghost method Refresh(i: nat)
      requires ValidBut(i)
      modifies this`Repr, this`Model
      ensures Valid() && Repr == old(Repr) + blocks[i].Repr
      ensures Model == WithChild(old(Model), i, blocks[i].Model)
    {
      Repr := Repr + blocks[i].Repr;
      Model := WithChild(Model, i, blocks[i].Model);
    }

    method TakeLabel(env: string)
      requires Valid()
      modifies this
      ensures Valid() && Repr == old(Repr) && blocks == old(blocks) && Model == Relabelled(old(Model), env)
    {
      labels := [env];
      attrs := attrs - {NameAttr};
      Model := Relabelled(Model, env);
    }

    /** A child takes the env's label in place of its name attribute. */
    method RelabelChild(i: nat, env: string)
      requires Valid() && i < |blocks|
      modifies Repr
      ensures Valid() && Repr == old(Repr) && blocks == old(blocks)
      ensures Model == WithChild(old(Model), i, Relabelled(old(Model).body.blocks[i], env))
    {
      assert blocks[i] in blocks;
      blocks[i].TakeLabel(env);
      Refresh(i);
    }

    /** One child in turn; a labelled env ends the evaluation, and so does a named one without an env to run. */
    method EvaluateChild(i: nat, env: string) returns (last: bool)
      requires Valid() && i < |blocks|
      modifies Repr
      ensures Valid() && Repr == old(Repr) && blocks == old(blocks)
      ensures var b := old(Model).body.blocks[i];
              && (last <==> b.typ == Env && (b.labels != [] || (NamesRunningEnv(b) && env == "")))
              && Model == (if NamesRunningEnv(b) && !last then WithChild(old(Model), i, Relabelled(b, env)) else old(Model))
              && (!NamesRunningEnv(b) ==> forall n :: n in Repr ==> unchanged(n))
    {
      ChildKeys();
      last := false;
      if blocks[i].typ == Env {
        if blocks[i].labels != [] {
          return true;
        }
        if NameAttr in blocks[i].attrs && blocks[i].attrs[NameAttr] == AtlasEnv {
          if env == "" {
            return true;
          }
          RelabelChild(i, env);
        }
      }
    }

    /** Unlabelled env blocks named after the running env take its label. */
    method EvaluateEnvBlock(env: string)
      requires Valid()
      modifies Repr
      ensures Valid() && Repr == old(Repr) && blocks == old(blocks)
      ensures Model == WithBlocks(old(Model), EvalEnv(old(Model).body.blocks, env))
      ensures NoneNamed(old(Model).body.blocks) ==> forall n :: n in Repr ==> unchanged(n)
    {
      ghost var was := Model;
      for i := 0 to |blocks|
        invariant Valid() && Repr == old(Repr) && blocks == old(blocks)
        invariant Evaluating(was, Model, i, env)
        invariant NoneNamed(was.body.blocks) ==> Model == was && forall n :: n in Repr ==> unchanged(n)
      {
        EvalStep(was, Model, i, env);
        var last := EvaluateChild(i, env);
        if last {
          return;
        }
      }
    }

    /** The block becomes the last of this body. */
    method Append(b: Node)
      requires Valid() && b.Valid() && Repr !! b.Repr
      modifies this
      ensures Valid() && Repr == old(Repr) + b.Repr && blocks == old(blocks) + [b]
      ensures Model == WithBlocks(old(Model), old(Model).body.blocks + [b.Model])
    {
      blocks := blocks + [b];
      Repr := Repr + b.Repr;
      Model := WithBlocks(Model, Model.body.blocks + [b.Model]);
    }

    /** A source block merges into its match, or becomes the last block. */
    method MergeChild(b: Node)
      requires Valid() && b.Valid() && Repr !! b.Repr
      modifies Repr, b.Repr
      ensures Valid() && Repr <= old(Repr) + old(b.Repr)
      ensures Model == WithBlocks(old(Model), MergeOne(old(Model).body.blocks, old(b.Model)))
      ensures match Search(old(Model).body.blocks, b.typ, old(b.labels))
              case None =>
                && Reprs() == old(Reprs()) + [old(b.Repr)]
                && forall n :: n in old(Repr) + old(b.Repr) && n != this ==> unchanged(n)
              case Some(k) =>
                && |Reprs()| == |old(Reprs())| && (forall j :: 0 <= j < |Reprs()| && j != k ==> Reprs()[j] == old(Reprs())[j])
                && (forall n :: n in old(Repr) && n != this && n !in old(Reprs())[k] ==> unchanged(n))
                && (Apart(old(Model).body.blocks[k], old(b.Model)) ==> forall n :: n in old(b.Repr) ==> unchanged(n))
      decreases b.Repr, 5
    {
      var found := Find(b.typ, b.labels);
      if found.None? {
        Append(b);
        return;
      }
      MergeAt(found.value, b);
    }

    method MergeAt(i: nat, b: Node)
      requires Valid() && i < |blocks| && b.Valid() && Repr !! b.Repr
      modifies this, blocks[i].Repr, b.Repr
      ensures Valid() && Repr <= old(Repr) + old(b.Repr) && blocks == old(blocks)
      ensures Model == WithChild(old(Model), i, MergeBlock(old(Model).body.blocks[i], old(b.Model)))
      ensures Apart(old(Model).body.blocks[i], old(b.Model)) ==> forall n :: n in old(b.Repr) ==> unchanged(n)
      decreases b.Repr, 4
    {
      assert blocks[i] in blocks;
      blocks[i].Merge(b);
      forall j | 0 <= j < |blocks| && j != i
        ensures blocks[j].Valid() && blocks[j].Repr == old(blocks[j].Repr) && blocks[j].Model == old(blocks[j].Model)
      {
        assert blocks[j].Repr == old(blocks[j].Repr);
      }
      Refresh(i);
    }

    /** The source's attributes override, and its blocks merge. */
    method Merge(src: Node)
      requires Valid() && src.Valid() && Repr !! src.Repr
      modifies Repr, src.Repr
      ensures Valid() && Repr <= old(Repr) + old(src.Repr) && labels == old(labels)
      ensures Model == MergeBlock(old(Model), old(src.Model))
      ensures Apart(old(Model), old(src.Model)) ==> forall n :: n in old(src.Repr) ==> unchanged(n)
      decreases src.Repr, 3
    {
      attrs := attrs + src.attrs;
      Model := Model.(body := Model.body.(attrs := attrs));
      MergeBody(src, "");
      NestedEvalIsIdentity(old(Model).body.blocks);
      NestedEvalIsIdentity(old(src.Model).body.blocks);
    }

    method EvaluateBoth(src: Node, env: string)
      requires Valid() && src.Valid() && Repr !! src.Repr
      modifies Repr, src.Repr
      ensures Valid() && Repr == old(Repr) && labels == old(labels)
      ensures src.Valid() && src.Repr == old(src.Repr)
      ensures Model == Evaluated(old(Model), env) && src.Model == Evaluated(old(src.Model), env)
      ensures Keyed(old(src.Model).body.blocks) ==> forall n :: n in src.Repr ==> unchanged(n)
    {
      KeyedHasNoneNamed(src.Model.body.blocks);
      EvaluateEnvBlock(env);
      src.EvaluateEnvBlock(env);
    }

    /** Both sides are evaluated for the env, and the source's blocks merge in one by one. */
    method MergeBody(src: Node, env: string)
      requires Valid() && src.Valid() && Repr !! src.Repr
      modifies Repr, src.Repr
      ensures Valid() && Repr <= old(Repr) + old(src.Repr) && labels == old(labels)
      ensures Model == WithBlocks(old(Model),
                MergeBlocks(EvalEnv(old(Model).body.blocks, env), EvalEnv(old(src.Model).body.blocks, env)))
      ensures Apart(old(Model), old(src.Model)) ==> forall n :: n in old(src.Repr) ==> unchanged(n)
      ensures Apart(Evaluated(old(Model), env), Evaluated(old(src.Model), env)) ==>
                src.Valid() && src.Repr == old(src.Repr) && src.Model == Evaluated(old(src.Model), env)
      decreases src.Repr, 2
    {
      EvaluateBoth(src, env);
      KeyedIsEvaluated(old(Model).body.blocks, env);
      KeyedIsEvaluated(old(src.Model).body.blocks, env);
      MergeList(src.blocks, src.Model.body.blocks, src.Repr);
    }

    /** The source's blocks one by one. Those of keyed trees are appended or read, and never changed. */
    method MergeList(list: seq<Node>, ghost s: seq<Block>, ghost all: set<Node>)
      requires Valid() && Waiting(list, s, 0, all) && Repr !! all
      modifies Repr, all
      ensures Valid() && Repr <= old(Repr) + all && labels == old(labels)
      ensures Model == WithBlocks(old(Model), MergeBlocks(old(Model).body.blocks, s))
      ensures Keyed(old(Model).body.blocks) && Keyed(s) ==> forall n :: n in all ==> unchanged(n)
      decreases all, 1
    {
      ghost var d, own := Model, Repr;
      for i := 0 to |list|
        invariant Valid() && Repr <= own + all && labels == old(labels)
        invariant i <= |s| && Model == MergedSoFar(d, s, i)
        invariant Waiting(list, s, i, all) && forall j :: i <= j < |list| ==> list[j].Repr !! Repr
        invariant Keyed(d.body.blocks) && Keyed(s) ==> Mine(d, s, i, Reprs(), own) && forall n :: n in all ==> unchanged(n)
      {
        MergeStep(d, s, i);
        MergeNext(list, s, i, all, d, own);
      }
      assert s[..|list|] == s;
    }

    ghost function Reprs(): (r: seq<set<Node>>)
      reads this, blocks
      ensures |r| == |blocks|
    {
      seq(|blocks|, i requires 0 <= i < |blocks| reads this, blocks => blocks[i].Repr)
    }

    method MergeNext(list: seq<Node>, ghost s: seq<Block>, i: nat, ghost all: set<Node>, ghost d: Block, ghost own: set<Node>)
      requires i < |list| && Valid() && Waiting(list, s, i, all) && forall j :: i <= j < |list| ==> list[j].Repr !! Repr
      requires Model == MergedSoFar(d, s, i) && own !! all && this in own
      modifies Repr, all
      ensures Valid() && Repr <= old(Repr) + all && labels == old(labels)
      ensures Model == WithBlocks(old(Model), MergeOne(old(Model).body.blocks, s[i]))
      ensures Waiting(list, s, i + 1, all) && forall j :: i < j < |list| ==> list[j].Repr !! Repr
      ensures Keyed(d.body.blocks) && Keyed(s) && Mine(d, s, i, old(Reprs()), own) ==>
                Mine(d, s, i + 1, Reprs(), own) && forall n :: n in all ==> unchanged(n)
      decreases all, 0
    {
      ghost var reprs := Reprs();
      MergeChild(list[i]);
      forall j | i < j < |list|
        ensures list[j].Valid() && list[j].Repr == old(list[j].Repr) && list[j].Model == s[j] && list[j].Repr !! Repr
      {
        assert list[j].Repr == old(list[j].Repr);
      }
      if Keyed(d.body.blocks) && Keyed(s) && Mine(d, s, i, reprs, own) {
        MineAfter(d, s, i, reprs, Reprs(), own);
      }
    }
  }

  /** The children that no source block has merged into yet are the destination's own, as they were. */
  ghost predicate Mine(d: Block, s: seq<Block>, i: nat, reprs: seq<set<Node>>, own: set<Node>)
    requires i <= |s|
  {
    var m := MergedSoFar(d, s, i).body.blocks;
    && |d.body.blocks| <= |reprs| && |reprs| == |m|
    && forall k :: 0 <= k < |d.body.blocks| && KeyOf(d.body.blocks[k]) !in Keys(s[..i]) ==>
         reprs[k] <= own && m[k] == d.body.blocks[k]
  }

  lemma MineStep(d: Block, s: seq<Block>, i: nat, was: seq<set<Node>>, now: seq<set<Node>>, own: set<Node>)
    requires i < |s| && Mine(d, s, i, was, own)
    requires var m := MergedSoFar(d, s, i).body.blocks;
             match Search(m, s[i].typ, s[i].labels)
             case None => |now| == |was| + 1 && forall j :: 0 <= j < |was| ==> now[j] == was[j]
             case Some(k) =>
               && |now| == |was| && KeyOf(m[k]) == KeyOf(s[i]) && (forall j :: 0 <= j < |was| && j != k ==> now[j] == was[j])
               && (k < |d.body.blocks| ==> KeyOf(d.body.blocks[k]) == KeyOf(s[i]))
    ensures Mine(d, s, i + 1, now, own)
  {
    MergeStep(d, s, i);
    var m, n := MergedSoFar(d, s, i).body.blocks, MergedSoFar(d, s, i + 1).body.blocks;
    assert Keys(s[..i + 1]) == Keys(s[..i]) + [KeyOf(s[i])];
    forall k | 0 <= k < |d.body.blocks| && KeyOf(d.body.blocks[k]) !in Keys(s[..i + 1])
      ensures now[k] <= own && n[k] == d.body.blocks[k]
    {
      assert KeyOf(d.body.blocks[k]) !in Keys(s[..i]);
      assert Search(m, s[i].typ, s[i].labels) != Some(k);
    }
  }

  /** What the merge of one source block needs to know, and keeps. */
  lemma MineAfter(d: Block, s: seq<Block>, i: nat, was: seq<set<Node>>, now: seq<set<Node>>, own: set<Node>)
    requires i < |s| && Keyed(d.body.blocks) && Keyed(s) && Mine(d, s, i, was, own)
    requires match Search(MergedSoFar(d, s, i).body.blocks, s[i].typ, s[i].labels)
             case None => |now| == |was| + 1 && forall j :: 0 <= j < |was| ==> now[j] == was[j]
             case Some(k) => |now| == |was| && forall j :: 0 <= j < |was| && j != k ==> now[j] == was[j]
    ensures Mine(d, s, i + 1, now, own)
    ensures var m := MergedSoFar(d, s, i).body.blocks;
            var found := Search(m, s[i].typ, s[i].labels);
            found.Some? ==> found.value < |was| && was[found.value] <= own && Apart(m[found.value], s[i])
  {
    MatchIsMine(d, s, i);
    var found := Search(MergedSoFar(d, s, i).body.blocks, s[i].typ, s[i].labels);
    if found.Some? {
      assert d.body.blocks[found.value] in d.body.blocks;
    }
    MineStep(d, s, i, was, now, own);
  }

  lemma KeyedIsEvaluated(bs: seq<Block>, env: string)
    ensures Keyed(bs) ==> EvalEnv(bs, env) == bs
  {
    if Keyed(bs) {
      EnvsLabelled(bs);
      NothingToEvaluate(bs, env);
    }
  }

  /**
   Two files rendered one after the other from one config, as for the status and
   the apply of a migration: but for the evaluation of its env blocks, the first
   merge leaves a config that is keyed then as it was, so the second file is what
   it would be from a config parsed afresh.
   */
  method RenderTwice(first: Node, second: Node, config: Node, env: string)
    requires first.Valid() && second.Valid() && config.Valid()
    requires first.Repr !! config.Repr && second.Repr !! config.Repr && first.Repr !! second.Repr
    requires Apart(Evaluated(first.Model, env), Evaluated(config.Model, env))
    requires Apart(Evaluated(second.Model, env), Evaluated(config.Model, env))
    modifies first.Repr, second.Repr, config.Repr
    ensures config.Valid() && config.Model == Evaluated(old(config.Model), env)
    ensures first.Model.body == MergeFile(old(first.Model).body, old(config.Model).body, env)
    ensures second.Valid() && second.Model.body == MergeFile(old(second.Model).body, old(config.Model).body, env)
  {
    KeyedIsEvaluated(EvalEnv(config.Model.body.blocks, env), env);
    first.MergeBody(config, env);
    second.MergeBody(config, env);
  }

  lemma KeyedHasNoneNamed(bs: seq<Block>)
    ensures Keyed(bs) ==> NoneNamed(bs)
  {
    if Keyed(bs) {
      EnvsLabelled(bs);
    }
  }

  lemma UnionTail(a: seq<Key>, b: seq<Key>)
    ensures forall k :: |a| <= k < |Union(a, b)| ==> Union(a, b)[k] in b
  {
    forall k | |a| <= k < |Union(a, b)| ensures Union(a, b)[k] in b {
      assert Union(a, b)[k] == Minus(b, a)[k - |a|];
      assert Minus(b, a)[k - |a|] in Minus(b, a);
    }
  }

  /** On keyed trees, what a source block merges into is a block of the destination's own that none has merged into. */
  lemma MatchIsMine(d: Block, s: seq<Block>, i: nat)
    requires Keyed(d.body.blocks) && Keyed(s) && i < |s|
    ensures var m := MergedSoFar(d, s, i).body.blocks;
            var found := Search(m, s[i].typ, s[i].labels);
            && |d.body.blocks| <= |m|
            && (found.Some? ==> found.value < |d.body.blocks| && KeyOf(d.body.blocks[found.value]) == KeyOf(s[i]))
            && KeyOf(s[i]) !in Keys(s[..i]) && Keyed(s[i].body.blocks)
            && forall b :: b in d.body.blocks ==> Keyed(b.body.blocks)
  {
    var ks := Keys(s);
    assert Keys(s[..i]) == ks[..i];
    assert GoodKeys(Keys(s[..i])) by {
      assert forall k :: k in ks[..i] ==> k in ks;
    }
    forall k | 0 <= k < i ensures Keys(s[..i])[k] != KeyOf(s[i]) {
      assert ks[k] != ks[i];
    }
    MergeByKey(d.body.blocks, s[..i]);
    var m := MergedSoFar(d, s, i).body.blocks;
    SearchByKey(m, KeyOf(s[i]));
    var found := Search(m, s[i].typ, s[i].labels);
    if found.Some? {
      assert Keys(m)[found.value] == KeyOf(s[i]);
      UnionTail(Keys(d.body.blocks), Keys(s[..i]));
      assert found.value < |d.body.blocks|;
      assert Keys(d.body.blocks)[found.value] == Keys(m)[found.value];
    }
    assert s[i] in s;
  }

  /** Two trees that no merge of the one into the other can tie together: keyed at every depth. */
  ghost predicate Apart(d: Block, s: Block) {
    Keyed(d.body.blocks) && Keyed(s.body.blocks)
  }

  /** A file once its unlabelled env blocks named after the running env take its label. */
  function Evaluated(b: Block, env: string): Block {
    WithBlocks(b, EvalEnv(b.body.blocks, env))
  }

  predicate NoneNamed(bs: seq<Block>) {
    forall b :: b in bs ==> !NamesRunningEnv(b)
  }

  ghost function MergedSoFar(d: Block, s: seq<Block>, i: nat): Block
    requires i <= |s|
  {
    WithBlocks(d, MergeBlocks(d.body.blocks, s[..i]))
  }

  lemma MergeStep(d: Block, s: seq<Block>, i: nat)
    requires i < |s|
    ensures MergedSoFar(d, s, i + 1) == WithBlocks(MergedSoFar(d, s, i), MergeOne(MergedSoFar(d, s, i).body.blocks, s[i]))
  {
    assert s[..i + 1][..i] == s[..i];
  }

  /** From the i-th on, the source's blocks are trees of their own below it, with the given values. */
  ghost predicate Waiting(list: seq<Node>, s: seq<Block>, i: nat, all: set<Node>)
    reads all
  {
    && |s| == |list|
    && (forall j :: i <= j < |list| ==> list[j] in all && list[j].Repr < all && list[j].Valid() && list[j].Model == s[j])
    && (forall j, k :: i <= j < k < |list| ==> list[j].Repr !! list[k].Repr)
  }

  lemma FirstIs(bs: seq<Block>, typ: Name, labels: seq<string>, r: Option<nat>)
    requires match r
             case None => forall j :: 0 <= j < |bs| ==> !HasKey(bs[j], typ, labels)
             case Some(i) => i < |bs| && HasKey(bs[i], typ, labels) && forall j :: 0 <= j < i ==> !HasKey(bs[j], typ, labels)
    ensures FindFirst(bs, typ, labels) == r
  {
  }

  /** The first i blocks are evaluated, the others are as they were. */
  ghost predicate Evaluating(was: Block, now: Block, i: nat, env: string) {
    var bs, cs := was.body.blocks, now.body.blocks;
    && now == WithBlocks(was, cs) && i <= |bs| == |cs| && cs[i..] == bs[i..]
    && EvalEnv(bs, env) == cs[..i] + EvalEnv(bs[i..], env)
  }

  lemma EvalStep(was: Block, now: Block, i: nat, env: string)
    requires Evaluating(was, now, i, env) && i < |was.body.blocks|
    ensures var b := now.body.blocks[i];
            if (b.typ == Env && b.labels != []) || (NamesRunningEnv(b) && env == "") then
              now == WithBlocks(was, EvalEnv(was.body.blocks, env))
            else if NamesRunningEnv(b) then Evaluating(was, WithChild(now, i, Relabelled(b, env)), i + 1, env)
            else Evaluating(was, now, i + 1, env)
  {
    var bs, cs := was.body.blocks, now.body.blocks;
    assert cs[i] == cs[i..][0] == bs[i..][0] == bs[i];
    assert cs[i + 1..] == cs[i..][1..] == bs[i..][1..] == bs[i + 1..];
    EvalSuffix(bs, i, env);
    var b, rest := cs[i], EvalEnv(bs[i + 1..], env);
    if (b.typ == Env && b.labels != []) || (NamesRunningEnv(b) && env == "") {
      assert cs == cs[..i] + cs[i..];
    } else if NamesRunningEnv(b) {
      Glue(cs, i, Relabelled(b, env), rest);
    } else {
      Glue(cs, i, b, rest);
      assert cs[i := b] == cs;
    }
  }

  lemma EvalSuffix(bs: seq<Block>, i: nat, env: string)
    requires i < |bs|
    ensures EvalEnv(bs[i..], env) ==
            if bs[i].typ == Env && bs[i].labels != [] then bs[i..]
            else if NamesRunningEnv(bs[i]) then
              if env == "" then bs[i..] else [Relabelled(bs[i], env)] + EvalEnv(bs[i + 1..], env)
            else [bs[i]] + EvalEnv(bs[i + 1..], env)
  {
  }

  lemma Glue(cs: seq<Block>, i: nat, b: Block, rest: seq<Block>)
    requires i < |cs|
    ensures cs[..i] + ([b] + rest) == cs[i := b][..i + 1] + rest && cs[i := b][i + 1..] == cs[i + 1..]
  {
  }

  function WithBlocks(b: Block, blocks: seq<Block>): Block {
    b.(body := b.body.(blocks := blocks))
  }

  function WithChild(b: Block, i: nat, now: Block): Block
    requires i < |b.body.blocks|
  {
    b.(body := b.body.(blocks := b.body.blocks[i := now]))
  }
}
