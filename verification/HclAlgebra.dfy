/**
 The algebra of the merge, on trees where each type and label list occurs once
 per body and every env block is labelled: a lookup in a merge is decided by
 the lookups in its sides, merging is associative down to the order of blocks,
 and merging the same source again changes nothing.
 */
module HclAlgebra {
  import opened Wrappers
  import opened Hcl

  datatype Key = Key(typ: Name, labels: seq<string>)

  function KeyOf(b: Block): Key {
    Key(b.typ, b.labels)
  }

  function Keys(bs: seq<Block>): seq<Key> {
    seq(|bs|, i requires 0 <= i < |bs| => KeyOf(bs[i]))
  }

  ghost predicate GoodKeys(ks: seq<Key>) {
    && (forall i, j :: 0 <= i < j < |ks| ==> ks[i] != ks[j])
    && (forall k :: k in ks ==> k != Key(Env, []))
  }

  /** Every body, at every depth, has distinct keys and no unlabelled env. */
  ghost predicate Keyed(bs: seq<Block>)
    decreases bs
  {
    GoodKeys(Keys(bs)) && forall b :: b in bs ==> Keyed(b.body.blocks)
  }

  /** The block of a list with the given key. */
  function Get(bs: seq<Block>, k: Key): (r: Option<Block>)
    ensures r.None? <==> k !in Keys(bs)
    ensures r.Some? ==> r.value in bs && KeyOf(r.value) == k
  {
    match FindFirst(bs, k.typ, k.labels)
    case None =>
      KeyAbsent(bs, k);
      None
    case Some(i) =>
      assert Keys(bs)[i] == k;
      Some(bs[i])
  }

  lemma KeyAbsent(bs: seq<Block>, k: Key)
    requires FindFirst(bs, k.typ, k.labels).None?
    ensures k !in Keys(bs)
  {
  }

  lemma GetAt(bs: seq<Block>, i: nat)
    requires GoodKeys(Keys(bs)) && i < |bs|
    ensures FindFirst(bs, bs[i].typ, bs[i].labels) == Some(i) && Get(bs, KeyOf(bs[i])) == Some(bs[i])
  {
    assert HasKey(bs[i], bs[i].typ, bs[i].labels);
    var j := FindFirst(bs, bs[i].typ, bs[i].labels).value;
    assert Keys(bs)[j] == Keys(bs)[i];
  }

  /** Two lists with the same keys in the same order and the same blocks under them are equal. */
  lemma EqualByKeys(x: seq<Block>, y: seq<Block>)
    requires Keys(x) == Keys(y) && GoodKeys(Keys(x))
    requires forall k :: k in Keys(x) ==> Get(x, k) == Get(y, k)
    ensures x == y
  {
    assert |Keys(x)| == |x| && |Keys(y)| == |y|;
    forall i | 0 <= i < |x| ensures x[i] == y[i] {
      assert KeyOf(x[i]) == Keys(x)[i] == Keys(y)[i] == KeyOf(y[i]);
      GetAt(x, i);
      GetAt(y, i);
    }
  }

  // ---- What a merge does to keys and lookups ------------------------------------

  /** The keys of one list that another lacks, in order. */
  ghost function Minus(ks: seq<Key>, gone: seq<Key>): (r: seq<Key>)
    ensures forall k :: k in r <==> k in ks && k !in gone
  {
    if ks == [] then []
    else
      var n := |ks| - 1;
      assert ks == ks[..n] + [ks[n]];
      Minus(ks[..n], gone) + if ks[n] in gone then [] else [ks[n]]
  }

  ghost function Union(a: seq<Key>, b: seq<Key>): seq<Key> {
    a + Minus(b, a)
  }

  ghost function Combine(d: Option<Block>, s: Option<Block>): Option<Block> {
    if d.None? then s else if s.None? then d else Some(MergeBlock(d.value, s.value))
  }

  lemma GetAppend(bs: seq<Block>, b: Block, k: Key)
    ensures Keys(bs + [b]) == Keys(bs) + [KeyOf(b)]
    ensures Get(bs + [b], k) == if k in Keys(bs) then Get(bs, k) else if KeyOf(b) == k then Some(b) else None
  {
    assert (bs + [b])[..|bs|] == bs;
    assert FindFirst(bs, k.typ, k.labels).Some? <==> k in Keys(bs) by {
      assert Get(bs, k).Some? <==> k in Keys(bs);
    }
  }

  lemma GetUpdate(bs: seq<Block>, i: nat, now: Block, k: Key)
    requires GoodKeys(Keys(bs)) && i < |bs| && KeyOf(now) == KeyOf(bs[i])
    ensures Keys(bs[i := now]) == Keys(bs)
    ensures Get(bs[i := now], k) == if k == KeyOf(now) then Some(now) else Get(bs, k)
  {
    assert Keys(bs[i := now]) == Keys(bs) && Keys(bs)[i] == KeyOf(now);
    if k in Keys(bs) {
      var j: nat :| j < |bs| && Keys(bs)[j] == k;
      GetAt(bs, j);
      GetAt(bs[i := now], j);
      assert KeyOf(bs[j]) == KeyOf(bs[i := now][j]) == k;
      assert k == KeyOf(now) <==> i == j;
    }
  }

  /** Without unlabelled envs, the search is by key alone. */
  lemma SearchByKey(bs: seq<Block>, k: Key)
    requires GoodKeys(Keys(bs))
    ensures Search(bs, k.typ, k.labels) == FindFirst(bs, k.typ, k.labels)
  {
    assert Get(bs, Key(Env, [])).None?;
    assert FindFirst(bs, Env, []).None?;
  }

  /** Merging one block into distinct keys: it merges into its match in place, or comes last. */
  lemma MergeOneByKey(dst: seq<Block>, b: Block)
    requires GoodKeys(Keys(dst))
    ensures Keys(MergeOne(dst, b)) == Keys(dst) + if KeyOf(b) in Keys(dst) then [] else [KeyOf(b)]
    ensures forall k :: Get(MergeOne(dst, b), k) == if k == KeyOf(b) then Combine(Get(dst, k), Some(b)) else Get(dst, k)
  {
    SearchByKey(dst, KeyOf(b));
    forall k
      ensures Get(MergeOne(dst, b), k) == if k == KeyOf(b) then Combine(Get(dst, k), Some(b)) else Get(dst, k)
    {
      match FindFirst(dst, b.typ, b.labels)
      case None => GetAppend(dst, b, k);
      case Some(i) => GetUpdate(dst, i, MergeBlock(dst[i], b), k);
    }
    match FindFirst(dst, b.typ, b.labels)
    case None => GetAppend(dst, b, KeyOf(b));
    case Some(i) => GetUpdate(dst, i, MergeBlock(dst[i], b), KeyOf(b));
  }

  lemma UnionOneMore(a: seq<Key>, b: seq<Key>, k: Key)
    requires k !in b
    ensures Union(a, b + [k]) == Union(a, b) + if k in Union(a, b) then [] else [k]
    ensures GoodKeys(Union(a, b)) && k != Key(Env, []) ==> GoodKeys(Union(a, b + [k]))
  {
  }

  lemma KeysPrefix(bs: seq<Block>)
    requires bs != [] && GoodKeys(Keys(bs))
    ensures var n := |bs| - 1;
            && GoodKeys(Keys(bs[..n]))
            && Keys(bs) == Keys(bs[..n]) + [KeyOf(bs[n])]
            && KeyOf(bs[n]) !in Keys(bs[..n])
            && bs == bs[..n] + [bs[n]]
  {
    var n := |bs| - 1;
    assert Keys(bs)[..n] == Keys(bs[..n]);
    assert bs == bs[..n] + [bs[n]];
    assert forall k :: k in Keys(bs)[..n] ==> k in Keys(bs);
    forall i | 0 <= i < n ensures Keys(bs[..n])[i] != KeyOf(bs[n]) {
      assert Keys(bs)[i] != Keys(bs)[n];
    }
  }

  /** The keys of a merge are the destination's followed by the source's new ones; a lookup combines the two lookups. */
  lemma {:induction false} MergeByKey(dst: seq<Block>, src: seq<Block>)
    requires GoodKeys(Keys(dst)) && GoodKeys(Keys(src))
    ensures Keys(MergeBlocks(dst, src)) == Union(Keys(dst), Keys(src)) && GoodKeys(Keys(MergeBlocks(dst, src)))
    ensures forall k :: Get(MergeBlocks(dst, src), k) == Combine(Get(dst, k), Get(src, k))
    decreases |src|
  {
    if src == [] {
      assert Keys(src) == [];
    } else {
      var n := |src| - 1;
      KeysPrefix(src);
      MergeByKey(dst, src[..n]);
      var before := MergeBlocks(dst, src[..n]);
      MergeOneByKey(before, src[n]);
      UnionOneMore(Keys(dst), Keys(src[..n]), KeyOf(src[n]));
      forall k ensures Get(src, k) == if k == KeyOf(src[n]) then Some(src[n]) else Get(src[..n], k) {
        GetAppend(src[..n], src[n], k);
      }
    }
  }

  // ---- Path lookup --------------------------------------------------------------

  function Lookup(body: Body, path: seq<Key>, a: Name): Option<Expr>
    decreases |path|
  {
    if path == [] then
      if a in body.attrs then Some(body.attrs[a]) else None
    else
      match Get(body.blocks, path[0])
      case None => None
      case Some(b) => Lookup(b.body, path[1..], a)
  }

  /** A lookup along any path in a merge finds the source's value if it has one, else the destination's. */
  lemma {:induction false} MergedLookup(d: Block, s: Block, path: seq<Key>, a: Name)
    requires Keyed(d.body.blocks) && Keyed(s.body.blocks)
    ensures Lookup(MergeBlock(d, s).body, path, a) ==
            if Lookup(s.body, path, a).Some? then Lookup(s.body, path, a) else Lookup(d.body, path, a)
    decreases |path|
  {
    if path != [] {
      MergeByKey(d.body.blocks, s.body.blocks);
      var x, y := Get(d.body.blocks, path[0]), Get(s.body.blocks, path[0]);
      if x.Some? && y.Some? {
        MergedLookup(x.value, y.value, path[1..], a);
      }
    }
  }

  // ---- Key lists ----------------------------------------------------------------

  lemma {:induction false} MinusAppend(a: seq<Key>, b: seq<Key>, gone: seq<Key>)
    ensures Minus(a + b, gone) == Minus(a, gone) + Minus(b, gone)
  {
    if b == [] {
      assert a + b == a;
    } else {
      var n := |b| - 1;
      assert (a + b)[..|a + b| - 1] == a + b[..n];
      MinusAppend(a, b[..n], gone);
    }
  }

  lemma {:induction false} MinusTwice(c: seq<Key>, b: seq<Key>, a: seq<Key>)
    ensures Minus(Minus(c, b), a) == Minus(c, Union(a, b))
  {
    if c != [] {
      var n := |c| - 1;
      MinusTwice(c[..n], b, a);
      MinusAppend(Minus(c[..n], b), if c[n] in b then [] else [c[n]], a);
      assert Minus([c[n]], a) == if c[n] in a then [] else [c[n]];
    }
  }

  lemma UnionAssociative(a: seq<Key>, b: seq<Key>, c: seq<Key>)
    ensures Union(Union(a, b), c) == Union(a, Union(b, c))
  {
    MinusAppend(b, Minus(c, b), a);
    MinusTwice(c, b, a);
  }

  lemma {:induction false} MinusAll(a: seq<Key>, gone: seq<Key>)
    requires forall k :: k in a ==> k in gone
    ensures Minus(a, gone) == []
  {
    if a != [] {
      assert a == a[..|a| - 1] + [a[|a| - 1]];
      MinusAll(a[..|a| - 1], gone);
    }
  }

  // ---- The laws -----------------------------------------------------------------

  /** A merge of keyed lists is keyed at every depth. */
  lemma {:induction false} MergeKeepsKeyed(d: seq<Block>, s: seq<Block>)
    requires Keyed(d) && Keyed(s)
    ensures Keyed(MergeBlocks(d, s))
    decreases s
  {
    MergeByKey(d, s);
    var m := MergeBlocks(d, s);
    forall b | b in m ensures Keyed(b.body.blocks) {
      var i: nat :| i < |m| && m[i] == b;
      GetAt(m, i);
      var x, y := Get(d, KeyOf(b)), Get(s, KeyOf(b));
      if x.Some? && y.Some? {
        MergeKeepsKeyed(x.value.body.blocks, y.value.body.blocks);
      }
    }
  }

  /** Merging is associative, blocks, attributes and order alike. */
  lemma {:induction false} MergeAssociative(a: seq<Block>, b: seq<Block>, c: seq<Block>)
    requires Keyed(a) && Keyed(b) && Keyed(c)
    ensures MergeBlocks(MergeBlocks(a, b), c) == MergeBlocks(a, MergeBlocks(b, c))
    decreases c
  {
    MergeByKey(a, b);
    MergeByKey(MergeBlocks(a, b), c);
    MergeByKey(b, c);
    MergeByKey(a, MergeBlocks(b, c));
    UnionAssociative(Keys(a), Keys(b), Keys(c));
    var left, right := MergeBlocks(MergeBlocks(a, b), c), MergeBlocks(a, MergeBlocks(b, c));
    forall k | k in Keys(left) ensures Get(left, k) == Get(right, k) {
      var x, y, z := Get(a, k), Get(b, k), Get(c, k);
      if x.Some? && y.Some? && z.Some? {
        BlockAssociative(x.value, y.value, z.value);
      }
    }
    EqualByKeys(left, right);
  }

  lemma BlockAssociative(x: Block, y: Block, z: Block)
    requires Keyed(x.body.blocks) && Keyed(y.body.blocks) && Keyed(z.body.blocks)
    ensures MergeBlock(MergeBlock(x, y), z) == MergeBlock(x, MergeBlock(y, z))
    decreases z
  {
    MergeAssociative(x.body.blocks, y.body.blocks, z.body.blocks);
    AttrsAssociative(x.body.attrs, y.body.attrs, z.body.attrs);
  }

  lemma AttrsAssociative(x: map<Name, Expr>, y: map<Name, Expr>, z: map<Name, Expr>)
    ensures (x + y) + z == x + (y + z)
  {
  }

  /** A list merged into itself is unchanged. */
  lemma {:induction false} MergeWithSelf(s: seq<Block>)
    requires Keyed(s)
    ensures MergeBlocks(s, s) == s
    decreases s
  {
    MergeByKey(s, s);
    MinusAll(Keys(s), Keys(s));
    forall k | k in Keys(s) ensures Get(MergeBlocks(s, s), k) == Get(s, k) {
      BlockWithSelf(Get(s, k).value);
    }
    EqualByKeys(MergeBlocks(s, s), s);
  }

  lemma BlockWithSelf(b: Block)
    requires Keyed(b.body.blocks)
    ensures MergeBlock(b, b) == b
    decreases b
  {
    MergeWithSelf(b.body.blocks);
    assert b.body.attrs + b.body.attrs == b.body.attrs;
  }

  /** Merging the same source a second time changes nothing. */
  lemma MergeTwice(d: seq<Block>, s: seq<Block>)
    requires Keyed(d) && Keyed(s)
    ensures MergeBlocks(MergeBlocks(d, s), s) == MergeBlocks(d, s)
  {
    MergeAssociative(d, s, s);
    MergeWithSelf(s);
  }

  lemma {:induction false} NothingToEvaluate(bs: seq<Block>, env: string)
    requires forall b :: b in bs && b.typ == Env ==> b.labels != []
    ensures EvalEnv(bs, env) == bs
  {
  }

  lemma EnvsLabelled(bs: seq<Block>)
    requires Keyed(bs)
    ensures forall b :: b in bs && b.typ == Env ==> b.labels != []
  {
    forall i | 0 <= i < |bs| ensures KeyOf(bs[i]) != Key(Env, []) {
      assert Keys(bs)[i] in Keys(bs);
    }
  }

  lemma MergeFileOfKeyed(d: Body, s: Body, env: string)
    requires Keyed(d.blocks) && Keyed(s.blocks)
    ensures MergeFile(d, s, env) == d.(blocks := MergeBlocks(d.blocks, s.blocks))
    ensures Keyed(MergeFile(d, s, env).blocks)
  {
    EnvsLabelled(d.blocks);
    EnvsLabelled(s.blocks);
    NothingToEvaluate(d.blocks, env);
    NothingToEvaluate(s.blocks, env);
    MergeKeepsKeyed(d.blocks, s.blocks);
  }

  /** On whole files, for any running env: associative, and a repeated merge changes nothing. */
  lemma FileLaws(a: Body, b: Body, c: Body, env: string)
    requires Keyed(a.blocks) && Keyed(b.blocks) && Keyed(c.blocks)
    ensures MergeFile(MergeFile(a, b, env), c, env) == MergeFile(a, MergeFile(b, c, env), env)
    ensures MergeFile(MergeFile(a, b, env), b, env) == MergeFile(a, b, env)
  {
    MergeFileOfKeyed(a, b, env);
    MergeFileOfKeyed(b, c, env);
    MergeFileOfKeyed(MergeFile(a, b, env), c, env);
    MergeFileOfKeyed(MergeFile(a, b, env), b, env);
    MergeFileOfKeyed(a, MergeFile(b, c, env), env);
    MergeAssociative(a.blocks, b.blocks, c.blocks);
    MergeTwice(a.blocks, b.blocks);
  }

  /** Why envs must be labelled: an unlabelled one takes in every env that has no block of its own yet. */
  lemma UnlabelledEnvAbsorbs(x: Body, y: Body, name: string)
    ensures var bare, named := Block(Env, [], x), Block(Env, [name], y);
            MergeBlocks([], [bare, named]) == [MergeBlock(bare, named)]
  {
    var bare, named := Block(Env, [], x), Block(Env, [name], y);
    MergeIntoNone(bare);
    var src := [bare, named];
    assert src[..1] == [bare] && |src| == 2;
    assert MergeBlocks([], src) == MergeOne([bare], named);
    FallsBack(bare, named);
  }

  lemma MergeIntoNone(b: Block)
    ensures MergeBlocks([], [b]) == [b]
  {
    assert [b][..0] == [];
  }

  lemma FallsBack(bare: Block, named: Block)
    requires KeyOf(bare) == Key(Env, []) && named.typ == Env
    ensures MergeOne([bare], named) == [MergeBlock(bare, named)]
  {
    assert [bare][..0] == [];
    assert Search([bare], named.typ, named.labels) == Some(0);
  }
}
