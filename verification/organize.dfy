/**
 * organizeBlocksIntoTree (block-utils.ts:7-60): rebuilds the block tree
 * from `parentBlockId` alone.
 *
 * The source works on shared objects: `blockMap` holds one working copy per
 * id, every occurrence of a block attaches `blockMap.get(block.id)` to its
 * parent's `children` array, and `sortChildren` then sorts those arrays in
 * place. The model keeps that object graph as link tables keyed by id
 * (`kids[p]` is the children array of the object with id p, `roots` is
 * `rootBlocks`), which is exactly how aliasing behaves: all occurrences of
 * an id share one object. Build then reads the finished tree off the
 * tables, sorting every children list; reaching an id that is already on
 * the current recursion path is the unbounded recursion of `sortChildren`
 * on a cyclic object graph, modelled as None (a thrown RangeError).
 */
module Organize {
  import opened Options
  import opened Blocks
  import opened StableSort

  /** `{ ...block, children: [] }` */
  function Detach(b: Block): Block {
    b.(children := [])
  }

  function Detached(s: seq<Block>): seq<Block>
  {
    if s == [] then [] else [Detach(s[0])] + Detached(s[1..])
  }

  lemma {:induction false} DetachedAppend(a: seq<Block>, b: seq<Block>)
    ensures Detached(a + b) == Detached(a) + Detached(b)
  {
    if a != [] {
      assert (a + b)[1..] == a[1..] + b;
      DetachedAppend(a[1..], b);
    } else {
      assert a + b == b;
    }
  }

  /** `flattenedBlocks` once `blocks.forEach(flattenBlock)` is done. */
  function Flattened(blocks: seq<Block>): seq<Block> {
    Detached(PreOrder(blocks))
  }

  function Pos(b: Block): int {
    b.positionOrder
  }

  function Id(b: Block): int {
    b.id
  }

  function Ids(s: seq<Block>): seq<int> {
    MapSeq(s, Id)
  }

  /** `blockMap` after the first pass: each id maps to its LAST occurrence. */
  function Index(flat: seq<Block>): map<int, Block>
  {
    if flat == [] then map[]
    else
      var n := |flat| - 1;
      Index(flat[..n])[flat[n].id := flat[n]]
  }

  /** The position order of the working copy with id `c`. */
  function PosOf(idx: map<int, Block>): int -> int {
    c => if c in idx then idx[c].positionOrder else 0
  }

  /**
   * `block.parentBlockId && blockMap.has(block.parentBlockId)`: the parent
   * a block is attached to, or None when it becomes a root (no parent id,
   * parent id 0, or a parent id that names no block).
   */
  function ParentIn(b: Block, idx: map<int, Block>): Option<int> {
    if b.parentBlockId.Some? && b.parentBlockId.value != 0 && b.parentBlockId.value in idx
    then b.parentBlockId else None
  }

  /** The ids that the second pass pushes onto the children array of `p`, in order. */
  function KidIds(flat: seq<Block>, idx: map<int, Block>, p: int): seq<int> {
    if flat == [] then []
    else (if ParentIn(flat[0], idx) == Some(p) then [flat[0].id] else []) + KidIds(flat[1..], idx, p)
  }

  /** The ids that the second pass pushes onto `rootBlocks`, in order. */
  function RootIds(flat: seq<Block>, idx: map<int, Block>): seq<int> {
    if flat == [] then []
    else (if ParentIn(flat[0], idx).None? then [flat[0].id] else []) + RootIds(flat[1..], idx)
  }

  /** The children arrays and the root array, as pushed by the second pass. */
  datatype Links = Links(kids: map<int, seq<int>>, roots: seq<int>)

  function EmptyKids(idx: map<int, Block>): map<int, seq<int>> {
    map id | id in idx :: []
  }

  function LinkStep(l: Links, b: Block, idx: map<int, Block>): Links {
    match ParentIn(b, idx)
    case Some(p) => Links(l.kids[p := (if p in l.kids then l.kids[p] else []) + [b.id]], l.roots)
    case None => Links(l.kids, l.roots + [b.id])
  }

  /** The link tables after the second pass has handled `flat`, one block at a time. */
  function LinkPass(flat: seq<Block>, idx: map<int, Block>): Links {
    if flat == [] then Links(EmptyKids(idx), [])
    else LinkStep(LinkPass(flat[..|flat| - 1], idx), flat[|flat| - 1], idx)
  }

  /** Every id the link tables mention has a working copy. */
  predicate Closed(idx: map<int, Block>, kids: map<int, seq<int>>) {
    forall p, c :: p in kids && c in kids[p] ==> c in idx
  }

  function ChildIds(kids: map<int, seq<int>>, id: int): seq<int> {
    if id in kids then kids[id] else []
  }

  /**
   * The working copy with id `id`, its children array built and sorted;
   * None when the recursion of `sortChildren` would never end (`id` is
   * already on the recursion path `path`).
   */
  function Build(idx: map<int, Block>, kids: map<int, seq<int>>, id: int, path: set<int>): Option<Block>
    requires id in idx && Closed(idx, kids)
    decreases idx.Keys - path, 0
  {
    if id in path then None
    else
      match BuildAll(idx, kids, ChildIds(kids, id), path + {id})
      case None => None
      case Some(cs) => Some(idx[id].(children := SortBy(cs, Pos)))
  }

  function BuildAll(idx: map<int, Block>, kids: map<int, seq<int>>, ids: seq<int>, path: set<int>): Option<seq<Block>>
    requires Closed(idx, kids) && forall c :: c in ids ==> c in idx
    decreases idx.Keys - path, |ids| + 1
  {
    if ids == [] then Some([])
    else
      match Build(idx, kids, ids[0], path)
      case None => None
      case Some(b) =>
        match BuildAll(idx, kids, ids[1..], path)
        case None => None
        case Some(bs) => Some([b] + bs)
  }

  lemma IndexKeys(flat: seq<Block>)
    ensures forall id :: id in Index(flat) <==> exists i :: 0 <= i < |flat| && flat[i].id == id
    ensures forall id :: id in Index(flat) ==> Index(flat)[id].id == id && Index(flat)[id] in flat
  {
    if flat != [] {
      var n := |flat| - 1;
      IndexKeys(flat[..n]);
      forall id | exists i :: 0 <= i < |flat| && flat[i].id == id
        ensures id in Index(flat)
      {
        var i :| 0 <= i < |flat| && flat[i].id == id;
        if i < n { assert flat[..n][i] == flat[i]; }
      }
    }
  }

  lemma {:induction false} LinkClosed(flat: seq<Block>, idx: map<int, Block>)
    requires forall b :: b in flat ==> b.id in idx
    ensures Closed(idx, LinkPass(flat, idx).kids)
    ensures forall c :: c in LinkPass(flat, idx).roots ==> c in idx
    ensures LinkPass(flat, idx).kids.Keys == idx.Keys
  {
    if flat != [] {
      var n := |flat| - 1;
      assert forall b :: b in flat[..n] ==> b in flat;
      LinkClosed(flat[..n], idx);
    }
  }

  /** The whole of organizeBlocksIntoTree, stated on values. */
  function OrganizeTree(blocks: seq<Block>): Option<seq<Block>> {
    var flat := Flattened(blocks);
    var idx := Index(flat);
    IndexKeys(flat);
    LinkClosed(flat, idx);
    var l := LinkPass(flat, idx);
    match BuildAll(idx, l.kids, l.roots, {})
    case None => None
    case Some(rs) => Some(SortBy(rs, Pos))
  }

  /** flattenBlock: pushes the detached copy of `block`, then flattens its children. */
  method FlattenBlock(block: Block, flat: seq<Block>) returns (r: seq<Block>)
    ensures r == flat + Detached(PreOrder([block]))
    decreases block
  {
    r := flat + [Detach(block)];
    var i := 0;
    while i < |block.children|
      invariant 0 <= i <= |block.children|
      invariant r == flat + [Detach(block)] + Detached(PreOrder(block.children[..i]))
    {
      var child := block.children[i];
      ghost var done := PreOrder(block.children[..i]);
      r := FlattenBlock(child, r);
      assert block.children[..i + 1] == block.children[..i] + [child];
      PreOrderAppend(block.children[..i], [child]);
      DetachedAppend(done, PreOrder([child]));
      assert r == flat + [Detach(block)] + (Detached(done) + Detached(PreOrder([child])));
      i := i + 1;
    }
    assert block.children[..i] == block.children;
    assert [block][1..] == [];
    assert PreOrder([block]) == [block] + PreOrder(block.children);
    DetachedAppend([block], PreOrder(block.children));
  }

  /** First pass: one working copy per id, each with an empty children array. */
  method IndexBlocks(flat: seq<Block>) returns (blockMap: map<int, Block>, kids: map<int, seq<int>>)
    ensures blockMap == Index(flat) && kids == EmptyKids(blockMap)
  {
    blockMap, kids := map[], map[];
    var i := 0;
    while i < |flat|
      invariant 0 <= i <= |flat|
      invariant blockMap == Index(flat[..i])
      invariant kids == EmptyKids(blockMap)
    {
      assert flat[..i + 1][..i] == flat[..i];
      assert flat[..i + 1][i] == flat[i];
      blockMap := blockMap[flat[i].id := flat[i]];
      kids := kids[flat[i].id := []];
      assert kids.Keys == blockMap.Keys;
      i := i + 1;
    }
    assert flat[..i] == flat;
  }

  /** Second pass: attach every block under its parent's working copy, or make it a root. */
  method LinkBlocks(flat: seq<Block>, blockMap: map<int, Block>, kids0: map<int, seq<int>>)
    returns (kids: map<int, seq<int>>, roots: seq<int>)
    requires kids0 == EmptyKids(blockMap)
    ensures Links(kids, roots) == LinkPass(flat, blockMap)
  {
    kids, roots := kids0, [];
    var i := 0;
    while i < |flat|
      invariant 0 <= i <= |flat|
      invariant Links(kids, roots) == LinkPass(flat[..i], blockMap)
    {
      assert flat[..i + 1][..i] == flat[..i];
      assert flat[..i + 1][i] == flat[i];
      var block := flat[i];
      if block.parentBlockId.Some? && block.parentBlockId.value != 0 && block.parentBlockId.value in blockMap {
        var p := block.parentBlockId.value;
        kids := kids[p := (if p in kids then kids[p] else []) + [block.id]];
      } else {
        roots := roots + [block.id];
      }
      i := i + 1;
    }
    assert flat[..i] == flat;
  }

  method OrganizeBlocksIntoTree(blocks: seq<Block>) returns (tree: Option<seq<Block>>)
    ensures tree == OrganizeTree(blocks)
  {
    // Flatten any nesting already present in the input.
    var flat: seq<Block> := [];
    var i := 0;
    while i < |blocks|
      invariant 0 <= i <= |blocks|
      invariant flat == Flattened(blocks[..i])
    {
      ghost var done := PreOrder(blocks[..i]);
      flat := FlattenBlock(blocks[i], flat);
      assert blocks[..i + 1] == blocks[..i] + [blocks[i]];
      PreOrderAppend(blocks[..i], [blocks[i]]);
      DetachedAppend(done, PreOrder([blocks[i]]));
      i := i + 1;
    }
    assert blocks[..i] == blocks;

    var blockMap, kids := IndexBlocks(flat);
    var roots;
    kids, roots := LinkBlocks(flat, blockMap, kids);

    // Sort every children array and the root array; read off the tree.
    IndexKeys(flat);
    LinkClosed(flat, blockMap);
    var built := BuildAll(blockMap, kids, roots, {});
    if built.Some? {
      tree := Some(SortBy(built.value, Pos));
    } else {
      tree := None;
    }
  }
}
