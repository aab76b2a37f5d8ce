/**
 What a merge does below a path of keys the destination has exactly once, for
 any source: repeated source blocks all land in the one destination block.
 */
module HclPaths {
  import opened Wrappers
  import opened Hcl
  import opened HclAlgebra

  /** No step of the path is an unlabelled env block, which others may fall back to. */
  ghost predicate Firm(path: seq<Key>) {
    forall k :: k in path ==> k != Key(Env, [])
  }

  /** The one block of a list with the given key. */
  ghost predicate Sole(bs: seq<Block>, k: Key, i: nat) {
    i < |bs| && KeyOf(bs[i]) == k && forall j :: 0 <= j < |bs| && j != i ==> KeyOf(bs[j]) != k
  }

  /** Exactly one block on every step of the path. */
  ghost predicate Once(bs: seq<Block>, path: seq<Key>)
    decreases |path|
  {
    path == [] || exists i: nat :: Sole(bs, path[0], i) && Once(bs[i].body.blocks, path[1..])
  }

  /** The attributes set at the end of a path; where blocks repeat, later ones override. */
  ghost function Attrs(body: Body, path: seq<Key>): map<Name, Expr>
    decreases |path|, |body.blocks| + 1
  {
    if path == [] then body.attrs else Gathered(body.blocks, path)
  }

  ghost function Gathered(bs: seq<Block>, path: seq<Key>): map<Name, Expr>
    requires path != []
    decreases |path|, |bs|
  {
    if bs == [] then map[]
    else
      var n := |bs| - 1;
      Gathered(bs[..n], path) + if KeyOf(bs[n]) == path[0] then Attrs(bs[n].body, path[1..]) else map[]
  }

  /** The attribute has the overriding value where there is one, else its own, and is absent without either. */
  ghost predicate Holds(attrs: map<Name, Expr>, a: Name, own: Option<Expr>, over: map<Name, Expr>) {
    if a in over then a in attrs && attrs[a] == over[a]
    else if own.Some? then a in attrs && attrs[a] == own.value
    else a !in attrs
  }

  lemma HoldsOver(own: map<Name, Expr>, over: map<Name, Expr>, a: Name, v: Option<Expr>)
    requires Holds(own, a, v, map[])
    ensures Holds(own + over, a, v, over)
  {
  }

  lemma {:induction false} GatheredNowhere(bs: seq<Block>, path: seq<Key>)
    requires path != [] && forall j :: 0 <= j < |bs| ==> KeyOf(bs[j]) != path[0]
    ensures Gathered(bs, path) == map[]
  {
    if bs != [] {
      GatheredNowhere(bs[..|bs| - 1], path);
    }
  }

  lemma {:induction false} GatheredOnce(bs: seq<Block>, path: seq<Key>, i: nat)
    requires path != [] && Sole(bs, path[0], i)
    ensures Gathered(bs, path) == Attrs(bs[i].body, path[1..])
  {
    var n := |bs| - 1;
    if i == n {
      GatheredNowhere(bs[..n], path);
    } else {
      GatheredOnce(bs[..n], path, i);
    }
  }

  /** Sole blocks one below the other make paths of one, two and three steps. */
  lemma OnceOne(bs: seq<Block>, k: Key, i: nat)
    requires Sole(bs, k, i)
    ensures Once(bs, [k]) && Gathered(bs, [k]) == bs[i].body.attrs
  {
    assert [k][1..] == [];
    OnceFrom(bs, [k], i);
  }

  lemma OnceTwo(bs: seq<Block>, k: Key, i: nat, l: Key, j: nat)
    requires Sole(bs, k, i) && Sole(bs[i].body.blocks, l, j)
    ensures Once(bs, [k, l]) && Gathered(bs, [k, l]) == bs[i].body.blocks[j].body.attrs
  {
    OnceOne(bs[i].body.blocks, l, j);
    assert [k, l][1..] == [l];
    OnceFrom(bs, [k, l], i);
  }

  lemma OnceThree(bs: seq<Block>, k: Key, i: nat, l: Key, j: nat, m: Key, h: nat)
    requires Sole(bs, k, i) && Sole(bs[i].body.blocks, l, j) && Sole(bs[i].body.blocks[j].body.blocks, m, h)
    ensures Once(bs, [k, l, m]) && Gathered(bs, [k, l, m]) == bs[i].body.blocks[j].body.blocks[h].body.attrs
  {
    OnceTwo(bs[i].body.blocks, l, j, m, h);
    assert [k, l, m][1..] == [l, m];
    OnceFrom(bs, [k, l, m], i);
  }

  /** A search finds the one block on the first step of a path. */
  lemma FirstStep(bs: seq<Block>, path: seq<Key>) returns (i: nat)
    requires path != [] && Once(bs, path)
    ensures i < |bs| && Search(bs, path[0].typ, path[0].labels) == Some(i)
    ensures Once(bs[i].body.blocks, path[1..]) && Gathered(bs, path) == Attrs(bs[i].body, path[1..])
  {
    i :| Sole(bs, path[0], i) && Once(bs[i].body.blocks, path[1..]);
    assert HasKey(bs[i], path[0].typ, path[0].labels);
    GatheredOnce(bs, path, i);
  }

  /** A source block merges into the sole block of its key, and leaves the sole blocks of other keys alone. */
  lemma MergeOneIntoSole(dst: seq<Block>, b: Block, k: Key, i: nat)
    requires Sole(dst, k, i) && k != Key(Env, [])
    ensures Sole(MergeOne(dst, b), k, i)
    ensures MergeOne(dst, b)[i] == if KeyOf(b) == k then MergeBlock(dst[i], b) else dst[i]
  {
  }

  lemma BlockAlongPath(d: Block, s: Block, path: seq<Key>)
    requires Once(d.body.blocks, path) && Firm(path)
    ensures Once(MergeBlock(d, s).body.blocks, path)
    ensures Attrs(MergeBlock(d, s).body, path) == Attrs(d.body, path) + Attrs(s.body, path)
    decreases s, 0
  {
    if path != [] {
      MergeAlongPath(d.body.blocks, s.body.blocks, path);
    }
  }

  lemma MergeOneAlongPath(dst: seq<Block>, b: Block, path: seq<Key>)
    requires path != [] && Once(dst, path) && Firm(path)
    ensures Once(MergeOne(dst, b), path)
    ensures Gathered(MergeOne(dst, b), path) ==
            Gathered(dst, path) + if KeyOf(b) == path[0] then Attrs(b.body, path[1..]) else map[]
    decreases b, 1
  {
    var i: nat :| Sole(dst, path[0], i) && Once(dst[i].body.blocks, path[1..]);
    assert path[0] in path && forall k :: k in path[1..] ==> k in path;
    MergeOneIntoSole(dst, b, path[0], i);
    GatheredOnce(dst, path, i);
    if KeyOf(b) == path[0] {
      BlockAlongPath(dst[i], b, path[1..]);
    }
    SoleChild(MergeOne(dst, b), dst, b, path, i);
  }

  lemma SoleChild(after: seq<Block>, dst: seq<Block>, b: Block, path: seq<Key>, i: nat)
    requires path != [] && Sole(after, path[0], i) && i < |dst|
    requires after[i] == if KeyOf(b) == path[0] then MergeBlock(dst[i], b) else dst[i]
    requires Once(after[i].body.blocks, path[1..])
    requires KeyOf(b) == path[0] ==> Attrs(after[i].body, path[1..]) == Attrs(dst[i].body, path[1..]) + Attrs(b.body, path[1..])
    ensures Once(after, path)
    ensures Gathered(after, path) ==
            Attrs(dst[i].body, path[1..]) + if KeyOf(b) == path[0] then Attrs(b.body, path[1..]) else map[]
  {
    OnceFrom(after, path, i);
  }

  lemma OnceFrom(bs: seq<Block>, path: seq<Key>, i: nat)
    requires path != [] && Sole(bs, path[0], i) && Once(bs[i].body.blocks, path[1..])
    ensures Once(bs, path) && Gathered(bs, path) == Attrs(bs[i].body, path[1..])
  {
    GatheredOnce(bs, path, i);
  }

  /** Along a path the destination has once, any merge keeps it once, and the source's attributes override there. */
  lemma {:induction false} MergeAlongPath(dst: seq<Block>, src: seq<Block>, path: seq<Key>)
    requires path != [] && Once(dst, path) && Firm(path)
    ensures Once(MergeBlocks(dst, src), path)
    ensures Gathered(MergeBlocks(dst, src), path) == Gathered(dst, path) + Gathered(src, path)
    decreases src, 0
  {
    if src != [] {
      var n := |src| - 1;
      var before, b := MergeBlocks(dst, src[..n]), src[n];
      MergeAlongPath(dst, src[..n], path);
      MergeOneAlongPath(before, b, path);
      assert MergeBlocks(dst, src) == MergeOne(before, b);
      AttrsAssociative(Gathered(dst, path), Gathered(src[..n], path),
                       if KeyOf(b) == path[0] then Attrs(b.body, path[1..]) else map[]);
    }
  }

  /** The sole block of a key stays where it is, with the source's attributes over its own. */
  lemma SoleStays(dst: seq<Block>, src: seq<Block>, k: Key, i: nat)
    requires Sole(dst, k, i) && k != Key(Env, [])
    ensures var m := MergeBlocks(dst, src);
            i < |m| && KeyOf(m[i]) == k && m[i].body.attrs == dst[i].body.attrs + Gathered(src, [k])
  {
    OnceOne(dst, k, i);
    MergeAlongPath(dst, src, [k]);
    var m := MergeBlocks(dst, src);
    var j := FirstStep(m, [k]);
    assert [k][1..] == [];
    assert HasKey(dst[i], k.typ, k.labels);
    BlocksKeepKeys(dst, src, k.typ, k.labels);
  }

  lemma MergeAlongThree(dst: seq<Block>, src: seq<Block>, k: Key, l: Key, m: Key)
    requires Once(dst, [k, l, m]) && Key(Env, []) !in {k, l, m}
    ensures Once(MergeBlocks(dst, src), [k, l, m])
    ensures Gathered(MergeBlocks(dst, src), [k, l, m]) == Gathered(dst, [k, l, m]) + Gathered(src, [k, l, m])
  {
    MergeAlongPath(dst, src, [k, l, m]);
  }

  /** The attributes a merge leaves on a path's first and second step, as searches find them. */
  lemma MergedAttributes(dst: seq<Block>, src: seq<Block>, k: Key, l: Key) returns (i: nat, j: nat)
    requires Once(dst, [k]) && Once(dst, [k, l]) && Firm([k, l])
    ensures var m := MergeBlocks(dst, src);
            && i < |m| && Search(m, k.typ, k.labels) == Some(i)
            && m[i].body.attrs == Gathered(dst, [k]) + Gathered(src, [k])
            && j < |m[i].body.blocks| && Search(m[i].body.blocks, l.typ, l.labels) == Some(j)
            && m[i].body.blocks[j].body.attrs == Gathered(dst, [k, l]) + Gathered(src, [k, l])
  {
    assert k in [k, l] && l in [k, l];
    MergeAlongPath(dst, src, [k]);
    MergeAlongPath(dst, src, [k, l]);
    var m := MergeBlocks(dst, src);
    i := FirstStep(m, [k, l]);
    var first := FirstStep(m, [k]);
    assert first == i;
    assert [k][1..] == [] && [k, l][1..] == [l] && [l][1..] == [];
    j := FirstStep(m[i].body.blocks, [l]);
  }

  // ---- Chains of blocks ---------------------------------------------------------

  /** The body has a chain of blocks with these keys. */
  ghost predicate Chain(bs: seq<Block>, path: seq<Key>)
    decreases |path|
  {
    path == [] || exists b :: b in bs && KeyOf(b) == path[0] && Chain(b.body.blocks, path[1..])
  }

  ghost function StartsChain(path: seq<Key>): Block -> bool
    requires path != []
  {
    (b: Block) => KeyOf(b) == path[0] && Chain(b.body.blocks, path[1..])
  }

  lemma ChainIsAny(bs: seq<Block>, path: seq<Key>)
    requires path != []
    ensures Chain(bs, path) <==> AnyBlock(bs, StartsChain(path))
  {
  }

  ghost predicate NoEnvs(path: seq<Key>) {
    forall k :: k in path ==> k.typ != Env
  }

  /** Below the top level, a chain is in a merge exactly when it is in one of its sides. */
  lemma {:induction false} ChainProvenance(dst: seq<Block>, src: seq<Block>, path: seq<Key>)
    requires NoEnvs(path)
    ensures Chain(MergeBlocks(dst, src), path) <==> Chain(dst, path) || Chain(src, path)
    decreases src
  {
    if path != [] && src != [] {
      var n := |src| - 1;
      ChainProvenance(dst, src[..n], path);
      MergeOneChain(MergeBlocks(dst, src[..n]), src[n], path);
      AnySplit(src, StartsChain(path));
      ChainIsAny(src, path);
      ChainIsAny(src[..n], path);
    }
  }

  lemma MergeOneChain(dst: seq<Block>, b: Block, path: seq<Key>)
    requires NoEnvs(path) && path != []
    ensures Chain(MergeOne(dst, b), path) <==> Chain(dst, path) || StartsChain(path)(b)
    decreases b
  {
    var k := Search(dst, b.typ, b.labels);
    if k.Some? {
      ChainProvenance(dst[k.value].body.blocks, b.body.blocks, path[1..]);
    }
    MergeOneAny(dst, b, StartsChain(path));
    ChainIsAny(dst, path);
    ChainIsAny(MergeOne(dst, b), path);
  }

  /** Into a list that has the labelled block, exactly the chains below its label come in. */
  lemma {:induction false} LabelledChain(dst: seq<Block>, src: seq<Block>, path: seq<Key>)
    requires path != [] && path[0].labels != [] && NoEnvs(path[1..])
    requires FindFirst(dst, path[0].typ, path[0].labels).Some?
    ensures Chain(MergeBlocks(dst, src), path) <==> Chain(dst, path) || Chain(src, path)
    decreases |src|
  {
    if src != [] {
      var n := |src| - 1;
      var before, b := MergeBlocks(dst, src[..n]), src[n];
      LabelledChain(dst, src[..n], path);
      BlocksKeepKeys(dst, src[..n], path[0].typ, path[0].labels);
      MergeOneLabelledChain(before, b, path);
      AnySplit(src, StartsChain(path));
      ChainIsAny(src, path);
      ChainIsAny(src[..n], path);
    }
  }

  lemma MergeOneLabelledChain(dst: seq<Block>, b: Block, path: seq<Key>)
    requires path != [] && path[0].labels != [] && NoEnvs(path[1..])
    requires FindFirst(dst, path[0].typ, path[0].labels).Some?
    ensures Chain(MergeOne(dst, b), path) <==> Chain(dst, path) || StartsChain(path)(b)
  {
    var k := Search(dst, b.typ, b.labels);
    if k.Some? {
      SearchRespectsLabel(dst, b, k.value, path[0].typ, path[0].labels);
      ChainProvenance(dst[k.value].body.blocks, b.body.blocks, path[1..]);
    }
    MergeOneAny(dst, b, StartsChain(path));
    ChainIsAny(dst, path);
    ChainIsAny(MergeOne(dst, b), path);
  }
}
