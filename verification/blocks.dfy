/**
 * Content blocks of a page and the pre-order traversals over a block tree
 * (flattenBlockTree, findBlockById, getAllChildBlocks).
 */
module Blocks {
  import opened Options

  /** The closed set of block kinds. */
  datatype BlockType =
    | Text | RichText | Image | Link | Cta | Quote | LogoList | CardList
    | Selector | Container | Video | HeroBanner | CustomHtml

  /**
   * The drop-zone settings of a container, read through
   * `settingsData.content?.editor?.dropZone`: a field is None when it, or
   * any object on that chain, is absent.
   */
  datatype DropZone = DropZone(allowedTypes: Option<seq<BlockType>>, maxChildren: Option<int>)

  const NoDropZone := DropZone(None, None)

  /**
   * One content block. `selectorId` names the selector the block was
   * created for; `payload` stands for every field the utilities copy but
   * never read (content, style and settings payloads, authors,
   * timestamps). An absent or null `parentBlockId` is None; an absent
   * `children` array is the empty sequence.
   */
  datatype Block = Block(
    id: int,
    selectorId: string,
    payload: string,
    blockType: BlockType,
    positionOrder: int,
    parentBlockId: Option<int>,
    dropZone: DropZone,
    children: seq<Block>)

  /** Every node of a forest, each before its descendants, siblings in order. */
  function PreOrder(bs: seq<Block>): seq<Block>
    decreases bs
  {
    if bs == [] then []
    else [bs[0]] + PreOrder(bs[0].children) + PreOrder(bs[1..])
  }

  /** Number of nodes of a forest, counted independently of PreOrder. */
  function Size(bs: seq<Block>): nat
    decreases bs
  {
    if bs == [] then 0 else 1 + Size(bs[0].children) + Size(bs[1..])
  }

  /** `x` is a node of the forest: a root or a node under some root. */
  predicate InForest(x: Block, bs: seq<Block>)
    decreases bs
  {
    exists i :: 0 <= i < |bs| && (bs[i] == x || InForest(x, bs[i].children))
  }

  lemma {:induction false} PreOrderAppend(a: seq<Block>, b: seq<Block>)
    ensures PreOrder(a + b) == PreOrder(a) + PreOrder(b)
    decreases a
  {
    if a == [] {
      assert a + b == b;
    } else {
      assert (a + b)[0] == a[0];
      assert (a + b)[1..] == a[1..] + b;
      PreOrderAppend(a[1..], b);
    }
  }

  /** The pre-order lists exactly the nodes of the forest, one per node. */
  lemma {:induction false} PreOrderNodes(bs: seq<Block>)
    ensures |PreOrder(bs)| == Size(bs)
    ensures forall x :: x in PreOrder(bs) <==> InForest(x, bs)
    decreases bs
  {
    if bs != [] {
      PreOrderNodes(bs[0].children);
      PreOrderNodes(bs[1..]);
      forall x ensures x in PreOrder(bs) <==> InForest(x, bs) {
        if InForest(x, bs) {
          var i :| 0 <= i < |bs| && (bs[i] == x || InForest(x, bs[i].children));
          if i > 0 {
            assert bs[1..][i - 1] == bs[i];
            assert InForest(x, bs[1..]);
          }
        }
        if x in PreOrder(bs[1..]) {
          var i :| 0 <= i < |bs[1..]| && (bs[1..][i] == x || InForest(x, bs[1..][i].children));
          assert bs[i + 1] == bs[1..][i];
        }
      }
    }
  }

  /**
   * flattenBlockTree (block-utils.ts:65-77): the nested `flatten` closure
   * pushes the block itself, then flattens each child in turn.
   */
  method PushPreOrder(block: Block, result: seq<Block>) returns (r: seq<Block>)
    ensures r == result + PreOrder([block])
    decreases block
  {
    r := result + [block];
    var i := 0;
    while i < |block.children|
      invariant 0 <= i <= |block.children|
      invariant r == result + [block] + PreOrder(block.children[..i])
    {
      var child := block.children[i];
      r := PushPreOrder(child, r);
      PreOrderAppend(block.children[..i], [child]);
      assert block.children[..i + 1] == block.children[..i] + [child];
      i := i + 1;
    }
    assert block.children[..i] == block.children;
    assert [block][1..] == [];
  }

  method FlattenBlockTree(blocks: seq<Block>) returns (result: seq<Block>)
    ensures result == PreOrder(blocks)
    ensures |result| == Size(blocks)
    ensures forall x :: x in result <==> InForest(x, blocks)
  {
    result := [];
    var i := 0;
    while i < |blocks|
      invariant 0 <= i <= |blocks|
      invariant result == PreOrder(blocks[..i])
    {
      result := PushPreOrder(blocks[i], result);
      PreOrderAppend(blocks[..i], [blocks[i]]);
      assert blocks[..i + 1] == blocks[..i] + [blocks[i]];
      i := i + 1;
    }
    assert blocks[..i] == blocks;
    PreOrderNodes(blocks);
  }

  /**
   * getAllChildBlocks (block-utils.ts:98-109): every descendant of `block`,
   * in pre-order, without the block itself.
   */
  method GetAllChildBlocks(block: Block) returns (children: seq<Block>)
    ensures children == PreOrder(block.children)
    ensures PreOrder([block]) == [block] + children
    decreases block
  {
    children := [];
    var i := 0;
    while i < |block.children|
      invariant 0 <= i <= |block.children|
      invariant children == PreOrder(block.children[..i])
    {
      var child := block.children[i];
      var below := GetAllChildBlocks(child);
      children := children + [child] + below;
      PreOrderAppend(block.children[..i], [child]);
      assert block.children[..i + 1] == block.children[..i] + [child];
      i := i + 1;
    }
    assert block.children[..i] == block.children;
    assert [block][1..] == [];
  }

  /** No node of the listing `s` has the id. */
  predicate NoHit(s: seq<Block>, id: int) {
    forall b :: b in s ==> b.id != id
  }

  /** `s[k]` is the first node of the listing `s` with the id. */
  predicate FirstHit(s: seq<Block>, id: int, k: int) {
    0 <= k < |s| && s[k].id == id && NoHit(s[..k], id)
  }

  lemma HitInPrefix(a: seq<Block>, b: seq<Block>, id: int, k: int)
    requires FirstHit(a, id, k)
    ensures FirstHit(a + b, id, k) && (a + b)[k] == a[k]
  {
    assert (a + b)[..k] == a[..k];
  }

  lemma HitAfterPrefix(a: seq<Block>, b: seq<Block>, id: int, k: int)
    requires NoHit(a, id) && FirstHit(b, id, k)
    ensures FirstHit(a + b, id, |a| + k) && (a + b)[|a| + k] == b[k]
  {
    assert (a + b)[..|a| + k] == a + b[..k];
  }

  /**
   * findBlockById (block-utils.ts:82-93): the first node in pre-order whose
   * id is `id`, or None when no node has it.
   */
  function FindBlockById(bs: seq<Block>, id: int): (r: Option<Block>)
    ensures r.None? <==> NoHit(PreOrder(bs), id)
    ensures r.Some? ==> exists k :: FirstHit(PreOrder(bs), id, k) && PreOrder(bs)[k] == r.value
    decreases bs
  {
    if bs == [] then None
    else
      var p := PreOrder(bs[0].children);
      var q := PreOrder(bs[1..]);
      assert PreOrder(bs) == [bs[0]] + p + q;
      if bs[0].id == id then
        assert FirstHit(PreOrder(bs), id, 0);
        Some(bs[0])
      else
        match FindBlockById(bs[0].children, id)
        case Some(found) =>
          var k :| FirstHit(p, id, k) && p[k] == found;
          HitAfterPrefix([bs[0]], p, id, k);
          HitInPrefix([bs[0]] + p, q, id, k + 1);
          Some(found)
        case None =>
          var r := FindBlockById(bs[1..], id);
          if r.Some? then
            var k :| FirstHit(q, id, k) && q[k] == r.value;
            HitAfterPrefix([bs[0]] + p, q, id, k);
            r
          else
            r
  }
}
