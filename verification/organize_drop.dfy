/**
 * Which blocks organizeBlocksIntoTree loses (block-utils.ts:35-46): with
 * unique ids, a block reaches the tree only through a chain of parents
 * that ends at a root, so blocks on a parent cycle, including a block that
 * is its own parent, silently vanish.
 */
module OrganizeDrop {
  import opened Options
  import opened Blocks
  import opened Organize
  import opened OrganizeShape
  import opened OrganizeTotal

  /**
   * A set of ids none of whose blocks can become a root: each block of the
   * input with an id in `s` has a resolvable parent, and that parent's id
   * is in `s` too. The ids of a parent cycle form such a set.
   */
  predicate Ungrounded(s: set<int>, blocks: seq<Block>) {
    forall b :: b in PreOrder(blocks) && b.id in s ==> HasParent(b, blocks) && b.parentBlockId.value in s
  }

  /** Every node of the result carries the id and parent id of some input block. */
  lemma NodeSource(blocks: seq<Block>, x: Block) returns (b: Block)
    requires OrganizeTree(blocks).Some? && InForest(x, OrganizeTree(blocks).value)
    ensures b in PreOrder(blocks) && b.id == x.id && b.parentBlockId == x.parentBlockId
  {
    var p := PreOrder(blocks);
    var flat := Flattened(blocks);
    OrganizeResult(blocks);
    IndexKeys(flat);
    DetachedChildless(p);
    var i :| 0 <= i < |flat| && flat[i] == Index(flat)[x.id];
    b := p[i];
  }

  /** A forest whose roots avoid `s`, and whose nodes outside `s` have children outside `s`, avoids `s`. */
  lemma {:induction false} ForestAvoids(ts: seq<Block>, s: set<int>)
    requires forall r :: r in ts ==> r.id !in s
    requires forall x, c :: InForest(x, ts) && c in x.children && x.id !in s ==> c.id !in s
    ensures forall x :: InForest(x, ts) ==> x.id !in s
    decreases ts
  {
    forall x | InForest(x, ts) ensures x.id !in s {
      var i :| 0 <= i < |ts| && (ts[i] == x || InForest(x, ts[i].children));
      if ts[i] != x {
        var cs := ts[i].children;
        assert ts[i] in ts;
        forall y, c | InForest(y, cs) && c in y.children && y.id !in s ensures c.id !in s {
          assert InForest(y, ts);
        }
        ForestAvoids(cs, s);
      }
    }
  }

  /**
   * With unique ids no block of an ungrounded set (a parent cycle, a
   * self-parented block, anything hanging only under them) appears
   * anywhere in the result.
   */
  lemma UngroundedDropped(blocks: seq<Block>, s: set<int>)
    requires UniqueIds(PreOrder(blocks)) && Ungrounded(s, blocks)
    ensures OrganizeTree(blocks).Some?
    ensures forall x :: InForest(x, OrganizeTree(blocks).value) ==> x.id !in s
  {
    OrganizeTotalUnique(blocks);
    var t := OrganizeTree(blocks).value;
    OrganizeRootsUnique(blocks);
    OrganizeChildrenUnique(blocks);
    forall r | r in t ensures r.id !in s {
      assert InForest(r, t) by { var i :| 0 <= i < |t| && t[i] == r; }
      var b := NodeSource(blocks, r);
    }
    forall x, c | InForest(x, t) && c in x.children && x.id !in s ensures c.id !in s {
      InForestChild(x, c, t);
      var b := NodeSource(blocks, c);
    }
    ForestAvoids(t, s);
  }

  /** In particular a block that names itself as its parent is dropped. */
  lemma SelfParentDropped(blocks: seq<Block>, b: Block)
    requires UniqueIds(PreOrder(blocks)) && b in PreOrder(blocks)
    requires b.parentBlockId == Some(b.id) && b.id != 0
    ensures OrganizeTree(blocks).Some?
    ensures forall x :: InForest(x, OrganizeTree(blocks).value) ==> x.id != b.id
  {
    var p := PreOrder(blocks);
    forall c | c in p && c.id in {b.id} ensures HasParent(c, blocks) && c.parentBlockId.value in {b.id} {
      var i :| 0 <= i < |p| && p[i] == c;
      var j :| 0 <= j < |p| && p[j] == b;
      assert i == j;
    }
    UngroundedDropped(blocks, {b.id});
  }
}
