/**
 The merge where blocks may be shared: a store of blocks by address, with no
 claim that they form trees. Enough to follow a config with repeated siblings
 through the two files a migration renders from it.
 */
module HclShared {
  import opened Wrappers
  import opened Hcl

  datatype Cell = Cell(typ: Name, attrs: map<Name, Expr>, kids: seq<nat>)

  type Store = map<nat, Cell>

  function At(st: Store, id: nat): Cell {
    if id in st then st[id] else Cell(Other(""), map[], [])
  }

  /** What a search sees of the blocks at some addresses; none of them is labelled. */
  function Heads(st: Store, kids: seq<nat>): seq<Block> {
    seq(|kids|, i requires 0 <= i < |kids| => Block(At(st, kids[i]).typ, [], Body(map[], [])))
  }

  /** The source blocks of a list, in order, into the block at d; fuel bounds the depth. */
  function MergeKids(st: Store, d: nat, list: seq<nat>, fuel: nat): Store
    decreases fuel, |list| + 1
  {
    if list == [] then st else MergeKids(MergeKid(st, d, list[0], fuel), d, list[1..], fuel)
  }

  function MergeKid(st: Store, d: nat, b: nat, fuel: nat): Store
    decreases fuel, 0
  {
    var kids := At(st, d).kids;
    match Search(Heads(st, kids), At(st, b).typ, [])
    case None => st[d := At(st, d).(kids := kids + [b])]
    case Some(k) => if fuel == 0 then st else MergeCell(st, kids[k], b, fuel - 1)
  }

  function MergeCell(st: Store, d: nat, b: nat, fuel: nat): Store
    decreases fuel, |At(st, b).kids| + 2
  {
    MergeKids(st[d := At(st, d).(attrs := At(st, d).attrs + At(st, b).attrs)], d, At(st, b).kids, fuel)
  }

  /** The search among kids by type: the first of them with it. */
  lemma Finds(st: Store, kids: seq<nat>, typ: Name, r: Option<nat>)
    requires typ != Env
    requires match r
             case None => forall i :: 0 <= i < |kids| ==> At(st, kids[i]).typ != typ
             case Some(k) => k < |kids| && At(st, kids[k]).typ == typ && forall i :: 0 <= i < k ==> At(st, kids[i]).typ != typ
    ensures Search(Heads(st, kids), typ, []) == r
  {
    var hs := Heads(st, kids);
    forall i | 0 <= i < |kids| ensures HasKey(hs[i], typ, []) <==> At(st, kids[i]).typ == typ {
    }
  }

  lemma KidAppended(st: Store, d: nat, b: nat, fuel: nat)
    requires At(st, b).typ != Env && forall i :: 0 <= i < |At(st, d).kids| ==> At(st, At(st, d).kids[i]).typ != At(st, b).typ
    ensures MergeKid(st, d, b, fuel) == st[d := At(st, d).(kids := At(st, d).kids + [b])]
  {
    Finds(st, At(st, d).kids, At(st, b).typ, None);
  }

  lemma KidMerged(st: Store, d: nat, b: nat, fuel: nat)
    requires At(st, b).typ != Env && At(st, d).kids != [] && At(st, At(st, d).kids[0]).typ == At(st, b).typ && fuel > 0
    ensures MergeKid(st, d, b, fuel) == MergeCell(st, At(st, d).kids[0], b, fuel - 1)
  {
    Finds(st, At(st, d).kids, At(st, b).typ, Some(0));
  }

  lemma OneKid(st: Store, d: nat, b: nat, fuel: nat)
    ensures MergeKids(st, d, [b], fuel) == MergeKid(st, d, b, fuel)
  {
    assert [b][1..] == [];
  }

  lemma TwoKids(st: Store, d: nat, a: nat, b: nat, fuel: nat)
    ensures MergeKids(st, d, [a, b], fuel) == MergeKid(MergeKid(st, d, a, fuel), d, b, fuel)
  {
    assert [a, b][1..] == [b];
    OneKid(MergeKid(st, d, a, fuel), d, b, fuel);
  }

  // ---- A config with repeated siblings, rendered twice -----------------------------

  function Rule(value: string): Cell {
    Cell(Check, map[Exclude := Ident(value)], [])
  }

  /**
   Two security blocks, the first empty, the second with a cve block of two checks;
   at 10 and 11, the files of the first and the second rendering.
   */
  function Config(): Store {
    map[1 := Cell(Security, map[], []), 2 := Cell(Security, map[], [3]), 3 := Cell(Cve, map[], [4, 5]),
        4 := Rule("1"), 5 := Rule("2"), 10 := Cell(Atlas, map[], []), 11 := Cell(Atlas, map[], [])]
  }

  function First(): Store {
    MergeKids(Config(), 10, [1, 2], 3)
  }

  function Second(): Store {
    MergeKids(First(), 11, [1, 2], 3)
  }

  /** With no attributes on the source, only its kids count. */
  lemma NoAttrs(st: Store, d: nat, b: nat, fuel: nat)
    requires d in st && At(st, b).attrs == map[]
    ensures MergeCell(st, d, b, fuel) == MergeKids(st, d, At(st, b).kids, fuel)
  {
    assert At(st, d).attrs + At(st, b).attrs == At(st, d).attrs;
    assert st[d := At(st, d).(attrs := At(st, d).attrs)] == st;
  }

  lemma NoKids(st: Store, d: nat, b: nat, fuel: nat)
    requires At(st, b).kids == []
    ensures MergeCell(st, d, b, fuel) == st[d := At(st, d).(attrs := At(st, d).attrs + At(st, b).attrs)]
  {
  }

  /** The first security block is shared with the file, and then shares its cve block with the second. */
  lemma FirstMerges(st: Store)
    requires At(st, 10) == Cell(Atlas, map[], []) && 1 in st && At(st, 1) == Cell(Security, map[], [])
    requires At(st, 2) == Cell(Security, map[], [3]) && At(st, 3).typ == Cve
    ensures MergeKids(st, 10, [1, 2], 3) == st[10 := Cell(Atlas, map[], [1])][1 := Cell(Security, map[], [3])]
  {
    TwoKids(st, 10, 1, 2, 3);
    KidAppended(st, 10, 1, 3);
    var st1 := st[10 := Cell(Atlas, map[], [1])];
    assert [] + [1] == [1];
    assert MergeKid(st, 10, 1, 3) == st1;
    KidMerged(st1, 10, 2, 3);
    NoAttrs(st1, 1, 2, 2);
    OneKid(st1, 1, 3, 2);
    KidAppended(st1, 1, 3, 2);
    assert [] + [3] == [3];
  }

  lemma AfterFirst()
    ensures First() == Config()[10 := Cell(Atlas, map[], [1])][1 := Cell(Security, map[], [3])]
  {
    FirstMerges(Config());
  }

  ghost predicate TwoChecks(st: Store) {
    && At(st, 3) == Cell(Cve, map[], [4, 5]) && At(st, 4) == Rule("1") && At(st, 5) == Rule("2")
    && 3 in st && 4 in st
  }

  lemma FirstCheckStays(st: Store)
    requires TwoChecks(st)
    ensures MergeKid(st, 3, 4, 1) == st
  {
    KidMerged(st, 3, 4, 1);
    NoKids(st, 4, 4, 0);
    assert At(st, 4).attrs + At(st, 4).attrs == At(st, 4).attrs;
    assert st[4 := At(st, 4)] == st;
  }

  lemma SecondCheckOverrides(st: Store)
    requires TwoChecks(st)
    ensures MergeKid(st, 3, 5, 1) == st[4 := Rule("2")]
  {
    KidMerged(st, 3, 5, 1);
    NoKids(st, 4, 5, 0);
    assert Rule("1").attrs + Rule("2").attrs == Rule("2").attrs;
  }

  /** A cve block merged into itself merges its second check into its first. */
  lemma SelfMerge(st: Store)
    requires TwoChecks(st)
    ensures MergeCell(st, 3, 3, 1) == st[4 := Rule("2")]
  {
    NoAttrs(st, 3, 3, 1);
    TwoKids(st, 3, 4, 5, 1);
    FirstCheckStays(st);
    SecondCheckOverrides(st);
  }

  /** Both security blocks have the one cve block. */
  lemma SharedCveMerges(st: Store)
    requires TwoChecks(st) && 1 in st && At(st, 1) == Cell(Security, map[], [3]) && At(st, 2) == Cell(Security, map[], [3])
    ensures MergeCell(st, 1, 2, 2) == st[4 := Rule("2")]
  {
    NoAttrs(st, 1, 2, 2);
    OneKid(st, 1, 3, 2);
    KidMerged(st, 1, 3, 2);
    SelfMerge(st);
  }

  lemma SecondMerges(st: Store)
    requires At(st, 11) == Cell(Atlas, map[], []) && TwoChecks(st)
    requires 1 in st && At(st, 1) == Cell(Security, map[], [3]) && At(st, 2) == Cell(Security, map[], [3])
    ensures MergeKids(st, 11, [1, 2], 3) == st[11 := Cell(Atlas, map[], [1])][4 := Rule("2")]
  {
    TwoKids(st, 11, 1, 2, 3);
    KidAppended(st, 11, 1, 3);
    var st1 := st[11 := Cell(Atlas, map[], [1])];
    assert [] + [1] == [1];
    assert MergeKid(st, 11, 1, 3) == st1;
    KidMerged(st1, 11, 2, 3);
    SharedCveMerges(st1);
  }

  lemma AfterSecond()
    ensures Second() == First()[11 := Cell(Atlas, map[], [1])][4 := Rule("2")]
  {
    AfterFirst();
    SecondMerges(First());
  }

  /** Rendered twice from one config: the first file has both checks, the second has the last of them twice. */
  lemma RepeatedSiblingsChange()
    ensures At(First(), 10).kids == [1] && At(First(), 1).kids == [3] && At(First(), 3).kids == [4, 5]
    ensures At(Second(), 11).kids == [1] && At(Second(), 1).kids == [3] && At(Second(), 3).kids == [4, 5]
    ensures At(First(), 4) == Rule("1") && At(First(), 5) == Rule("2")
    ensures At(Second(), 4) == Rule("2") && At(Second(), 5) == Rule("2")
  {
    AfterFirst();
    AfterSecond();
  }
}
