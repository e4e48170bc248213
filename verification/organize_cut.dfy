/**
 * Duplicate ids can make organizeBlocksIntoTree recurse forever. Every
 * occurrence of an id attaches the one working copy stored for that id, so
 * two blocks sharing an id can put that copy under itself: for the input
 * [{id: 5, parentBlockId: null}, {id: 5, parentBlockId: 5}] the copy for id
 * 5 becomes a root AND its own child, and `sortChildren` never returns.
 * BuildCut is the corrected reading: a child whose id is already on the
 * path from the root is left out, so the result is always a finite tree in
 * which no id repeats along a path, and it is exactly the original result
 * whenever the original returns.
 */
module OrganizeCut {
  import opened Options
  import opened Blocks
  import opened StableSort
  import opened Organize

  /** The working copy with id `id`, leaving out children that would close a cycle. */
  function BuildCut(idx: map<int, Block>, kids: map<int, seq<int>>, id: int, path: set<int>): Block
    requires id in idx && id !in path && Closed(idx, kids)
    decreases idx.Keys - path, 0
  {
    idx[id].(children := SortBy(BuildAllCut(idx, kids, ChildIds(kids, id), path + {id}), Pos))
  }

  function BuildAllCut(idx: map<int, Block>, kids: map<int, seq<int>>, ids: seq<int>, path: set<int>): seq<Block>
    requires Closed(idx, kids) && forall c :: c in ids ==> c in idx
    decreases idx.Keys - path, |ids| + 1
  {
    if ids == [] then []
    else if ids[0] in path then BuildAllCut(idx, kids, ids[1..], path)
    else [BuildCut(idx, kids, ids[0], path)] + BuildAllCut(idx, kids, ids[1..], path)
  }

  /** No id occurs twice on any root-to-leaf path, nor in `path`. */
  predicate Acyclic(bs: seq<Block>, path: set<int>)
    decreases bs
  {
    forall x | x in bs :: x.id !in path && Acyclic(x.children, path + {x.id})
  }

  lemma AcyclicSameElements(a: seq<Block>, b: seq<Block>, path: set<int>)
    requires multiset(a) == multiset(b)
    ensures Acyclic(a, path) <==> Acyclic(b, path)
  {
    assert forall x :: x in a <==> x in b by {
      forall x ensures x in a <==> x in b {
        assert x in a <==> x in multiset(a);
        assert x in b <==> x in multiset(b);
      }
    }
  }

  lemma {:induction false} BuildCutAcyclic(idx: map<int, Block>, kids: map<int, seq<int>>, id: int, path: set<int>)
    requires id in idx && id !in path && Closed(idx, kids)
    requires forall k :: k in idx ==> idx[k].id == k
    ensures Acyclic([BuildCut(idx, kids, id, path)], path)
    decreases idx.Keys - path, 0
  {
    var cs := BuildAllCut(idx, kids, ChildIds(kids, id), path + {id});
    BuildAllCutAcyclic(idx, kids, ChildIds(kids, id), path + {id});
    AcyclicSameElements(cs, SortBy(cs, Pos), path + {id});
  }

  lemma {:induction false} BuildAllCutAcyclic(idx: map<int, Block>, kids: map<int, seq<int>>, ids: seq<int>, path: set<int>)
    requires Closed(idx, kids) && forall c :: c in ids ==> c in idx
    requires forall k :: k in idx ==> idx[k].id == k
    ensures Acyclic(BuildAllCut(idx, kids, ids, path), path)
    decreases idx.Keys - path, |ids| + 1
  {
    if ids != [] {
      BuildAllCutAcyclic(idx, kids, ids[1..], path);
      if ids[0] !in path {
        BuildCutAcyclic(idx, kids, ids[0], path);
        var b := BuildCut(idx, kids, ids[0], path);
        var bs := BuildAllCut(idx, kids, ids[1..], path);
        assert forall x :: x in [b] + bs <==> x == b || x in bs;
      }
    }
  }

  /** Where the original returns, cutting changes nothing. */
  lemma {:induction false} BuildCutAgrees(idx: map<int, Block>, kids: map<int, seq<int>>, id: int, path: set<int>)
    requires id in idx && Closed(idx, kids)
    requires Build(idx, kids, id, path).Some?
    ensures id !in path && BuildCut(idx, kids, id, path) == Build(idx, kids, id, path).value
    decreases idx.Keys - path, 0
  {
    BuildAllCutAgrees(idx, kids, ChildIds(kids, id), path + {id});
  }

  lemma {:induction false} BuildAllCutAgrees(idx: map<int, Block>, kids: map<int, seq<int>>, ids: seq<int>, path: set<int>)
    requires Closed(idx, kids) && forall c :: c in ids ==> c in idx
    requires BuildAll(idx, kids, ids, path).Some?
    ensures BuildAllCut(idx, kids, ids, path) == BuildAll(idx, kids, ids, path).value
    decreases idx.Keys - path, |ids| + 1
  {
    if ids != [] {
      BuildCutAgrees(idx, kids, ids[0], path);
      BuildAllCutAgrees(idx, kids, ids[1..], path);
    }
  }

  /**
   * organizeBlocksIntoTree with cycles cut: always a finite tree with no id
   * repeated along a path, and the original result whenever that exists.
   */
  function OrganizeTreeCut(blocks: seq<Block>): (t: seq<Block>)
    ensures Acyclic(t, {})
    ensures OrganizeTree(blocks).Some? ==> t == OrganizeTree(blocks).value
  {
    var flat := Flattened(blocks);
    var idx := Index(flat);
    IndexKeys(flat);
    LinkClosed(flat, idx);
    var l := LinkPass(flat, idx);
    var rs := BuildAllCut(idx, l.kids, l.roots, {});
    BuildAllCutAcyclic(idx, l.kids, l.roots, {});
    AcyclicSameElements(rs, SortBy(rs, Pos), {});
    assert BuildAll(idx, l.kids, l.roots, {}).Some? ==> rs == BuildAll(idx, l.kids, l.roots, {}).value by {
      if BuildAll(idx, l.kids, l.roots, {}).Some? {
        BuildAllCutAgrees(idx, l.kids, l.roots, {});
      }
    }
    SortBy(rs, Pos)
  }

  /** A root that is also its own child, by duplicating id 5. */
  const DupRoot := Block(5, "outer", "", Container, 0, None, NoDropZone, [])
  const DupChild := Block(5, "inner", "", Text, 1, Some(5), NoDropZone, [])

  /**
   * The input that shows the defect: the original never returns (None),
   * the corrected reading returns the last copy of id 5, childless.
   */
  lemma DuplicateIdNeverReturns()
    ensures OrganizeTree([DupRoot, DupChild]).None?
    ensures OrganizeTreeCut([DupRoot, DupChild]) == [DupChild]
  {
    var blocks := [DupRoot, DupChild];
    assert PreOrder(blocks) == blocks by {
      assert blocks[1..] == [DupChild];
      assert PreOrder([DupChild]) == [DupChild] by { assert [DupChild][1..] == []; }
    }
    var flat := Flattened(blocks);
    assert flat == blocks by {
      assert Detached([DupChild]) == [DupChild] by { assert [DupChild][1..] == []; }
      assert blocks[1..] == [DupChild];
    }
    var idx := Index(flat);
    assert flat[..1] == [DupRoot] && [DupRoot][..0] == [];
    assert Index(flat[..1]) == map[5 := DupRoot];
    assert idx == map[5 := DupRoot][5 := DupChild];
    assert idx == map[5 := DupChild];
    assert EmptyKids(idx) == map[5 := []];
    assert flat[..1][..0] == [];
    assert LinkPass(flat[..1][..0], idx) == Links(map[5 := []], []);
    assert ParentIn(DupRoot, idx).None?;
    var l1 := LinkPass(flat[..1], idx);
    assert l1 == Links(map[5 := []], [5]);
    var l := LinkPass(flat, idx);
    assert l == LinkStep(l1, DupChild, idx);
    assert l.roots == [5] && l.kids == map[5 := [5]];
    assert ChildIds(l.kids, 5) == [5];
    var none: set<int> := {};
    assert none + {5} == {5};
    assert Build(idx, l.kids, 5, {5}).None?;
    assert BuildAll(idx, l.kids, [5], {5}).None?;
    assert Build(idx, l.kids, 5, none).None?;
    assert BuildAllCut(idx, l.kids, [5], {5}) == [];
    assert SortBy<Block>([], Pos) == [];
    assert BuildCut(idx, l.kids, 5, {}) == DupChild;
    assert BuildAllCut(idx, l.kids, [5], {}) == [DupChild];
  }
}
