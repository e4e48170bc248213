/**
 * What organizeBlocksIntoTree returns, for any input (block-utils.ts:7-60):
 * every node is the working copy kept for its id, its children are the
 * blocks attached to that id in flattened input order, stably sorted by
 * position, and the roots are the blocks with no resolvable parent.
 */
module OrganizeShape {
  import opened Options
  import opened Blocks
  import opened StableSort
  import opened Organize

  /** The ids the second pass pushes for `flat` with one more block at the end. */
  lemma {:induction false} KidIdsSnoc(s: seq<Block>, idx: map<int, Block>, p: int)
    requires s != []
    ensures KidIds(s, idx, p) == KidIds(s[..|s| - 1], idx, p) +
              (if ParentIn(s[|s| - 1], idx) == Some(p) then [s[|s| - 1].id] else [])
  {
    if |s| > 1 {
      var t := s[1..];
      KidIdsSnoc(t, idx, p);
      assert t[..|t| - 1] == s[..|s| - 1][1..];
      assert t[|t| - 1] == s[|s| - 1];
      assert s[..|s| - 1][0] == s[0];
      var h := if ParentIn(s[0], idx) == Some(p) then [s[0].id] else [];
      assert KidIds(s, idx, p) == h + KidIds(t, idx, p);
      assert KidIds(s[..|s| - 1], idx, p) == h + KidIds(s[..|s| - 1][1..], idx, p);
    } else {
      assert s[..0] == [];
      assert s[1..] == [];
    }
  }

  lemma {:induction false} RootIdsSnoc(s: seq<Block>, idx: map<int, Block>)
    requires s != []
    ensures RootIds(s, idx) == RootIds(s[..|s| - 1], idx) +
              (if ParentIn(s[|s| - 1], idx).None? then [s[|s| - 1].id] else [])
  {
    if |s| > 1 {
      var t := s[1..];
      RootIdsSnoc(t, idx);
      assert t[..|t| - 1] == s[..|s| - 1][1..];
      assert t[|t| - 1] == s[|s| - 1];
      assert s[..|s| - 1][0] == s[0];
      var h := if ParentIn(s[0], idx).None? then [s[0].id] else [];
      assert RootIds(s, idx) == h + RootIds(t, idx);
      assert RootIds(s[..|s| - 1], idx) == h + RootIds(s[..|s| - 1][1..], idx);
    } else {
      assert s[..0] == [];
      assert s[1..] == [];
    }
  }

  /** The link tables are, parent by parent, the filters KidIds and RootIds. */
  lemma {:induction false} LinkIsFilter(flat: seq<Block>, idx: map<int, Block>)
    ensures LinkPass(flat, idx).roots == RootIds(flat, idx)
    ensures forall p :: p in idx ==> p in LinkPass(flat, idx).kids && LinkPass(flat, idx).kids[p] == KidIds(flat, idx, p)
  {
    if flat != [] {
      var n := |flat| - 1;
      LinkIsFilter(flat[..n], idx);
      forall p | p in idx
        ensures p in LinkPass(flat, idx).kids && LinkPass(flat, idx).kids[p] == KidIds(flat, idx, p)
      {
        KidIdsSnoc(flat, idx, p);
      }
      RootIdsSnoc(flat, idx);
    }
  }

  /** Every working copy carries its own id and an empty children array. */
  predicate IndexOK(idx: map<int, Block>) {
    forall id :: id in idx ==> idx[id].id == id && idx[id].children == []
  }

  lemma {:induction false} DetachedChildless(s: seq<Block>)
    ensures forall b :: b in Detached(s) ==> b.children == []
    ensures |Detached(s)| == |s|
    ensures forall i :: 0 <= i < |s| ==> Detached(s)[i] == Detach(s[i])
  {
    if s != [] {
      DetachedChildless(s[1..]);
    }
  }

  lemma FlattenedIndexOK(blocks: seq<Block>)
    ensures IndexOK(Index(Flattened(blocks)))
  {
    DetachedChildless(PreOrder(blocks));
    IndexKeys(Flattened(blocks));
  }

  /** A built node: the working copy for its id, children attached to that id, sorted. */
  predicate NodeOK(idx: map<int, Block>, kids: map<int, seq<int>>, x: Block) {
    && x.id in idx && Detach(x) == idx[x.id]
    && Ids(x.children) == SortBy(ChildIds(kids, x.id), PosOf(idx))
    && Sorted(x.children, Pos)
  }

  lemma InForestCons(x: Block, b: Block, bs: seq<Block>)
    ensures InForest(x, [b] + bs) <==> x == b || InForest(x, b.children) || InForest(x, bs)
  {
    var s := [b] + bs;
    assert s[0] == b;
    if InForest(x, bs) {
      var i :| 0 <= i < |bs| && (bs[i] == x || InForest(x, bs[i].children));
      assert s[i + 1] == bs[i];
    }
    if InForest(x, s) {
      var i :| 0 <= i < |s| && (s[i] == x || InForest(x, s[i].children));
      if i > 0 { assert bs[i - 1] == s[i]; }
    }
  }

  lemma InForestSameElements(x: Block, a: seq<Block>, b: seq<Block>)
    requires multiset(a) == multiset(b)
    ensures InForest(x, a) <==> InForest(x, b)
  {
    if InForest(x, a) {
      var i :| 0 <= i < |a| && (a[i] == x || InForest(x, a[i].children));
      assert a[i] in multiset(b);
      var j :| 0 <= j < |b| && b[j] == a[i];
    }
    if InForest(x, b) {
      var i :| 0 <= i < |b| && (b[i] == x || InForest(x, b[i].children));
      assert b[i] in multiset(a);
      var j :| 0 <= j < |a| && a[j] == b[i];
    }
  }

  lemma {:induction false} BuildShape(idx: map<int, Block>, kids: map<int, seq<int>>, id: int, path: set<int>)
    requires id in idx && Closed(idx, kids) && IndexOK(idx)
    requires Build(idx, kids, id, path).Some?
    ensures Build(idx, kids, id, path).value.id == id
    ensures NodeOK(idx, kids, Build(idx, kids, id, path).value)
    ensures forall x :: InForest(x, Build(idx, kids, id, path).value.children) ==> NodeOK(idx, kids, x)
    decreases idx.Keys - path, 0
  {
    var cs := BuildAll(idx, kids, ChildIds(kids, id), path + {id}).value;
    BuildAllShape(idx, kids, ChildIds(kids, id), path + {id});
    var n := Build(idx, kids, id, path).value;
    assert n == idx[id].(children := SortBy(cs, Pos));
    forall x | x in cs ensures PosOf(idx)(Id(x)) == Pos(x) {
      assert x == cs[0] || InForest(x, cs) by {
        var i :| 0 <= i < |cs| && cs[i] == x;
      }
      assert NodeOK(idx, kids, x);
    }
    SortByMap(cs, Id, Pos, PosOf(idx));
    forall x | InForest(x, n.children) ensures NodeOK(idx, kids, x) {
      InForestSameElements(x, n.children, cs);
    }
  }

  lemma {:induction false} BuildAllShape(idx: map<int, Block>, kids: map<int, seq<int>>, ids: seq<int>, path: set<int>)
    requires Closed(idx, kids) && IndexOK(idx) && forall c :: c in ids ==> c in idx
    requires BuildAll(idx, kids, ids, path).Some?
    ensures Ids(BuildAll(idx, kids, ids, path).value) == ids
    ensures forall x :: InForest(x, BuildAll(idx, kids, ids, path).value) ==> NodeOK(idx, kids, x)
    decreases idx.Keys - path, |ids| + 1
  {
    if ids != [] {
      BuildShape(idx, kids, ids[0], path);
      BuildAllShape(idx, kids, ids[1..], path);
      var b := Build(idx, kids, ids[0], path).value;
      var bs := BuildAll(idx, kids, ids[1..], path).value;
      assert BuildAll(idx, kids, ids, path).value == [b] + bs;
      assert Ids([b] + bs) == [b.id] + Ids(bs);
      forall x | InForest(x, [b] + bs) ensures NodeOK(idx, kids, x) {
        InForestCons(x, b, bs);
      }
    }
  }

  /**
   * The index keeps the LAST copy of every id: a block that no later block
   * shares its id with is the copy stored for that id.
   */
  lemma {:induction false} IndexLastWins(flat: seq<Block>, i: int)
    requires 0 <= i < |flat|
    requires forall j :: i < j < |flat| ==> flat[j].id != flat[i].id
    ensures flat[i].id in Index(flat) && Index(flat)[flat[i].id] == flat[i]
  {
    var n := |flat| - 1;
    if i < n {
      assert flat[..n][i] == flat[i];
      IndexLastWins(flat[..n], i);
    }
  }

  /**
   * organizeBlocksIntoTree, whenever it returns: the roots are the ids
   * RootIds pushes onto `rootBlocks`, and every node is the copy stored in
   * `blockMap` for its id, whose children are the ids KidIds pushes for it;
   * both lists stably sorted by position.
   */
  lemma OrganizeResult(blocks: seq<Block>)
    requires OrganizeTree(blocks).Some?
    ensures var flat := Flattened(blocks); var idx := Index(flat); var t := OrganizeTree(blocks).value;
      && Ids(t) == SortBy(RootIds(flat, idx), PosOf(idx))
      && Sorted(t, Pos)
      && forall x :: InForest(x, t) ==>
           && x.id in idx && Detach(x) == idx[x.id]
           && Ids(x.children) == SortBy(KidIds(flat, idx, x.id), PosOf(idx))
           && Sorted(x.children, Pos)
  {
    var flat := Flattened(blocks);
    var idx := Index(flat);
    IndexKeys(flat);
    LinkClosed(flat, idx);
    LinkIsFilter(flat, idx);
    FlattenedIndexOK(blocks);
    var l := LinkPass(flat, idx);
    var rs := BuildAll(idx, l.kids, l.roots, {}).value;
    BuildAllShape(idx, l.kids, l.roots, {});
    var t := OrganizeTree(blocks).value;
    assert t == SortBy(rs, Pos);
    forall x | x in rs ensures PosOf(idx)(Id(x)) == Pos(x) {
      var i :| 0 <= i < |rs| && rs[i] == x;
      assert InForest(x, rs);
    }
    SortByMap(rs, Id, Pos, PosOf(idx));
    forall x | InForest(x, t)
      ensures x.id in idx && Detach(x) == idx[x.id]
      ensures Ids(x.children) == SortBy(KidIds(flat, idx, x.id), PosOf(idx))
      ensures Sorted(x.children, Pos)
    {
      InForestSameElements(x, t, rs);
      assert NodeOK(idx, l.kids, x);
    }
  }

  predicate UniqueIds(s: seq<Block>) {
    forall i, j :: 0 <= i < j < |s| ==> s[i].id != s[j].id
  }

  /** Some block of the (pre-order of the) input has id `p`. */
  predicate NamesBlock(p: int, blocks: seq<Block>) {
    exists b :: b in PreOrder(blocks) && b.id == p
  }

  /** `block.parentBlockId && blockMap.has(block.parentBlockId)`, in terms of the input. */
  predicate HasParent(b: Block, blocks: seq<Block>) {
    b.parentBlockId.Some? && b.parentBlockId.value != 0 && NamesBlock(b.parentBlockId.value, blocks)
  }

  lemma ParentInIndex(b: Block, blocks: seq<Block>)
    ensures ParentIn(b, Index(Flattened(blocks))).Some? <==> HasParent(b, blocks)
    ensures HasParent(b, blocks) ==> ParentIn(b, Index(Flattened(blocks))) == b.parentBlockId
  {
    var p := PreOrder(blocks);
    DetachedChildless(p);
    IndexKeys(Flattened(blocks));
    if b.parentBlockId.Some? {
      var q := b.parentBlockId.value;
      if NamesBlock(q, blocks) {
        var c :| c in p && c.id == q;
        var i :| 0 <= i < |p| && p[i] == c;
        assert Flattened(blocks)[i].id == q;
      }
      if q in Index(Flattened(blocks)) {
        var i :| 0 <= i < |Flattened(blocks)| && Flattened(blocks)[i].id == q;
        assert p[i] in p;
      }
    }
  }

  /** With unique ids every block of the flattened input is the copy stored for its id. */
  lemma UniqueFlattened(blocks: seq<Block>)
    requires UniqueIds(PreOrder(blocks))
    ensures Stored(Flattened(blocks), Index(Flattened(blocks)))
  {
    var p := PreOrder(blocks);
    var flat := Flattened(blocks);
    DetachedChildless(p);
    forall i | 0 <= i < |flat|
      ensures flat[i].id in Index(flat) && Index(flat)[flat[i].id] == flat[i]
    {
      forall j | i < j < |flat| ensures flat[j].id != flat[i].id {
        assert flat[j].id == p[j].id && flat[i].id == p[i].id;
      }
      IndexLastWins(flat, i);
    }
  }

  lemma {:induction false} KidIdsMember(flat: seq<Block>, idx: map<int, Block>, p: int, c: int)
    ensures c in KidIds(flat, idx, p) <==> exists i :: 0 <= i < |flat| && flat[i].id == c && ParentIn(flat[i], idx) == Some(p)
  {
    if flat != [] {
      KidIdsMember(flat[1..], idx, p, c);
      if exists i :: 0 <= i < |flat| && flat[i].id == c && ParentIn(flat[i], idx) == Some(p) {
        var i :| 0 <= i < |flat| && flat[i].id == c && ParentIn(flat[i], idx) == Some(p);
        if i > 0 { assert flat[1..][i - 1] == flat[i]; }
      }
      if exists i :: 0 <= i < |flat[1..]| && flat[1..][i].id == c && ParentIn(flat[1..][i], idx) == Some(p) {
        var i :| 0 <= i < |flat[1..]| && flat[1..][i].id == c && ParentIn(flat[1..][i], idx) == Some(p);
        assert flat[i + 1] == flat[1..][i];
      }
    }
  }

  lemma {:induction false} RootIdsMember(flat: seq<Block>, idx: map<int, Block>, c: int)
    ensures c in RootIds(flat, idx) <==> exists i :: 0 <= i < |flat| && flat[i].id == c && ParentIn(flat[i], idx).None?
  {
    if flat != [] {
      RootIdsMember(flat[1..], idx, c);
      if exists i :: 0 <= i < |flat| && flat[i].id == c && ParentIn(flat[i], idx).None? {
        var i :| 0 <= i < |flat| && flat[i].id == c && ParentIn(flat[i], idx).None?;
        if i > 0 { assert flat[1..][i - 1] == flat[i]; }
      }
      if exists i :: 0 <= i < |flat[1..]| && flat[1..][i].id == c && ParentIn(flat[1..][i], idx).None? {
        var i :| 0 <= i < |flat[1..]| && flat[1..][i].id == c && ParentIn(flat[1..][i], idx).None?;
        assert flat[i + 1] == flat[1..][i];
      }
    }
  }

  lemma IdsMember(s: seq<Block>, x: Block)
    requires x in s
    ensures x.id in Ids(s)
  {
    var i :| 0 <= i < |s| && s[i] == x;
    assert Ids(s)[i] == x.id;
  }

  lemma IdsHas(s: seq<Block>, c: int) returns (x: Block)
    requires c in Ids(s)
    ensures x in s && x.id == c
  {
    var i :| 0 <= i < |Ids(s)| && Ids(s)[i] == c;
    x := s[i];
  }

  /** `flat` holds no two blocks with the same id, so each is the copy stored for its id. */
  predicate Stored(flat: seq<Block>, idx: map<int, Block>) {
    forall i :: 0 <= i < |flat| ==> flat[i].id in idx && idx[flat[i].id] == flat[i]
  }

  lemma RootNotAttached(flat: seq<Block>, idx: map<int, Block>, t: seq<Block>, r: Block)
    requires Stored(flat, idx)
    requires Ids(t) == SortBy(RootIds(flat, idx), PosOf(idx))
    requires r in t && r.id in idx && Detach(r) == idx[r.id]
    ensures ParentIn(r, idx).None?
  {
    IdsMember(t, r);
    SortByMember(RootIds(flat, idx), PosOf(idx), r.id);
    RootIdsMember(flat, idx, r.id);
    var i :| 0 <= i < |flat| && flat[i].id == r.id && ParentIn(flat[i], idx).None?;
    assert Detach(r) == flat[i];
  }

  lemma ChildAttached(flat: seq<Block>, idx: map<int, Block>, x: Block, c: Block)
    requires Stored(flat, idx)
    requires Ids(x.children) == SortBy(KidIds(flat, idx, x.id), PosOf(idx))
    requires c in x.children && c.id in idx && Detach(c) == idx[c.id]
    ensures ParentIn(c, idx) == Some(x.id)
  {
    IdsMember(x.children, c);
    SortByMember(KidIds(flat, idx, x.id), PosOf(idx), c.id);
    KidIdsMember(flat, idx, x.id, c.id);
    var i :| 0 <= i < |flat| && flat[i].id == c.id && ParentIn(flat[i], idx) == Some(x.id);
    assert Detach(c) == flat[i];
  }

  lemma RootFound(flat: seq<Block>, idx: map<int, Block>, t: seq<Block>, b: Block) returns (r: Block)
    requires Ids(t) == SortBy(RootIds(flat, idx), PosOf(idx))
    requires b in flat && ParentIn(b, idx).None?
    ensures r in t && r.id == b.id
  {
    var i :| 0 <= i < |flat| && flat[i] == b;
    RootIdsMember(flat, idx, b.id);
    SortByMember(RootIds(flat, idx), PosOf(idx), b.id);
    r := IdsHas(t, b.id);
  }

  lemma ChildFound(flat: seq<Block>, idx: map<int, Block>, x: Block, b: Block) returns (c: Block)
    requires Ids(x.children) == SortBy(KidIds(flat, idx, x.id), PosOf(idx))
    requires b in flat && ParentIn(b, idx) == Some(x.id)
    ensures c in x.children && c.id == b.id
  {
    var i :| 0 <= i < |flat| && flat[i] == b;
    KidIdsMember(flat, idx, x.id, b.id);
    SortByMember(KidIds(flat, idx, x.id), PosOf(idx), b.id);
    c := IdsHas(x.children, b.id);
  }

  /**
   * With unique ids a root of the result has no parent id, parent id 0, or
   * a parent id that names no block of the input.
   */
  lemma OrganizeRootsUnique(blocks: seq<Block>)
    requires UniqueIds(PreOrder(blocks))
    requires OrganizeTree(blocks).Some?
    ensures forall r :: r in OrganizeTree(blocks).value ==> !HasParent(r, blocks)
  {
    var flat := Flattened(blocks);
    var idx := Index(flat);
    var t := OrganizeTree(blocks).value;
    OrganizeResult(blocks);
    UniqueFlattened(blocks);
    forall r | r in t ensures !HasParent(r, blocks) {
      assert InForest(r, t) by { var i :| 0 <= i < |t| && t[i] == r; }
      RootNotAttached(flat, idx, t, r);
      ParentInIndex(r, blocks);
    }
  }

  /** With unique ids a child's `parentBlockId` names the node it hangs under. */
  lemma OrganizeChildrenUnique(blocks: seq<Block>)
    requires UniqueIds(PreOrder(blocks))
    requires OrganizeTree(blocks).Some?
    ensures forall x, c :: InForest(x, OrganizeTree(blocks).value) && c in x.children ==>
              x.id != 0 && c.parentBlockId == Some(x.id)
  {
    var flat := Flattened(blocks);
    var idx := Index(flat);
    var t := OrganizeTree(blocks).value;
    OrganizeResult(blocks);
    UniqueFlattened(blocks);
    forall x, c | InForest(x, t) && c in x.children
      ensures x.id != 0 && c.parentBlockId == Some(x.id)
    {
      InForestChild(x, c, t);
      ChildAttached(flat, idx, x, c);
    }
  }

  /**
   * With unique ids nothing attachable is lost: every block of the
   * flattened input with no resolvable parent is (the detached form of) a
   * root, and every block that names a node of the tree as its parent is
   * one of that node's children.
   */
  lemma OrganizeCompleteUnique(blocks: seq<Block>)
    requires UniqueIds(PreOrder(blocks))
    requires OrganizeTree(blocks).Some?
    ensures forall b :: b in Flattened(blocks) && !HasParent(b, blocks) ==>
              exists r :: r in OrganizeTree(blocks).value && Detach(r) == b
    ensures forall x, b ::
              (InForest(x, OrganizeTree(blocks).value) && b in Flattened(blocks) &&
               b.parentBlockId == Some(x.id) && x.id != 0) ==>
              exists c :: c in x.children && Detach(c) == b
  {
    var flat := Flattened(blocks);
    var idx := Index(flat);
    var t := OrganizeTree(blocks).value;
    OrganizeResult(blocks);
    UniqueFlattened(blocks);
    IndexKeys(flat);
    forall b | b in flat && !HasParent(b, blocks) ensures exists r :: r in t && Detach(r) == b {
      ParentInIndex(b, blocks);
      var r := RootFound(flat, idx, t, b);
      assert InForest(r, t) by { var k :| 0 <= k < |t| && t[k] == r; }
      var i :| 0 <= i < |flat| && flat[i] == b;
    }
    forall x, b | InForest(x, t) && b in flat && b.parentBlockId == Some(x.id) && x.id != 0
      ensures exists c :: c in x.children && Detach(c) == b
    {
      assert ParentIn(b, idx) == Some(x.id);
      var c := ChildFound(flat, idx, x, b);
      InForestChild(x, c, t);
      var i :| 0 <= i < |flat| && flat[i] == b;
    }
  }

  /** A child of a node of the forest is a node of the forest. */
  lemma {:induction false} InForestChild(x: Block, c: Block, t: seq<Block>)
    requires InForest(x, t) && c in x.children
    ensures InForest(c, t)
    decreases t
  {
    var i :| 0 <= i < |t| && (t[i] == x || InForest(x, t[i].children));
    if t[i] == x {
      var j :| 0 <= j < |x.children| && x.children[j] == c;
      assert InForest(c, t[i].children);
    } else {
      InForestChild(x, c, t[i].children);
    }
  }
}
