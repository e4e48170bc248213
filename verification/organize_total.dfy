/**
 * When does organizeBlocksIntoTree return at all? `sortChildren` only
 * recurses from the roots, and with unique ids every node it reaches hangs
 * under the node whose id its `parentBlockId` names, so the recursion path
 * is a chain of parent links starting at a root. Such a chain can never
 * come back to an id it already holds, hence the recursion ends.
 */
module OrganizeTotal {
  import opened Options
  import opened Blocks
  import opened StableSort
  import opened Organize
  import opened OrganizeShape

  /** The parent the working copy with id `c` is attached to. */
  function Par(idx: map<int, Block>, c: int): Option<int>
    requires c in idx
  {
    ParentIn(idx[c], idx)
  }

  function Elems(s: seq<int>): set<int> {
    set x | x in s
  }

  /** `s` is a recursion path of sortChildren: a root, then a child of it, and so on. */
  predicate Chain(idx: map<int, Block>, s: seq<int>) {
    && |s| > 0
    && (forall i :: 0 <= i < |s| ==> s[i] in idx)
    && Par(idx, s[0]).None?
    && (forall j :: 0 < j < |s| ==> Par(idx, s[j]) == Some(s[j - 1]))
  }

  /** Every id in a children array is attached to that array's owner. */
  predicate KidsParent(idx: map<int, Block>, kids: map<int, seq<int>>) {
    forall p, c :: p in kids && c in kids[p] ==> c in idx && Par(idx, c) == Some(p)
  }

  /** A chain of parent links never repeats an id. */
  lemma {:induction false} ChainDistinct(idx: map<int, Block>, s: seq<int>, i: int, j: int)
    requires Chain(idx, s) && 0 <= i < j < |s|
    ensures s[i] != s[j]
    decreases i
  {
    assert Par(idx, s[j]) == Some(s[j - 1]);
    if i > 0 {
      ChainDistinct(idx, s, i - 1, j - 1);
      assert Par(idx, s[i]) == Some(s[i - 1]);
    }
  }

  lemma ChainLastFresh(idx: map<int, Block>, s: seq<int>)
    requires Chain(idx, s)
    ensures s[|s| - 1] !in Elems(s[..|s| - 1])
    ensures Elems(s) == Elems(s[..|s| - 1]) + {s[|s| - 1]}
  {
    var n := |s| - 1;
    if s[n] in Elems(s[..n]) {
      var i :| 0 <= i < n && s[..n][i] == s[n];
      ChainDistinct(idx, s, i, n);
    }
    assert s == s[..n] + [s[n]];
  }

  lemma {:induction false} BuildTotal(idx: map<int, Block>, kids: map<int, seq<int>>, s: seq<int>)
    requires Closed(idx, kids) && KidsParent(idx, kids) && Chain(idx, s)
    ensures Build(idx, kids, s[|s| - 1], Elems(s[..|s| - 1])).Some?
    decreases idx.Keys - Elems(s[..|s| - 1]), 0
  {
    var n := |s| - 1;
    var id := s[n];
    ChainLastFresh(idx, s);
    assert Elems(s[..n]) < Elems(s);
    assert idx.Keys - Elems(s) < idx.Keys - Elems(s[..n]) by {
      assert id in idx.Keys - Elems(s[..n]);
    }
    BuildAllTotal(idx, kids, s, ChildIds(kids, id));
  }

  lemma {:induction false} BuildAllTotal(idx: map<int, Block>, kids: map<int, seq<int>>, s: seq<int>, ids: seq<int>)
    requires Closed(idx, kids) && KidsParent(idx, kids) && Chain(idx, s)
    requires forall c :: c in ids ==> c in idx && Par(idx, c) == Some(s[|s| - 1])
    ensures BuildAll(idx, kids, ids, Elems(s)).Some?
    decreases idx.Keys - Elems(s), |ids| + 1
  {
    if ids != [] {
      var s' := s + [ids[0]];
      assert s'[..|s|] == s;
      forall j | 0 < j < |s'| ensures Par(idx, s'[j]) == Some(s'[j - 1]) {
        if j < |s| {
          assert s'[j] == s[j] && s'[j - 1] == s[j - 1];
        }
      }
      BuildTotal(idx, kids, s');
      BuildAllTotal(idx, kids, s, ids[1..]);
    }
  }

  lemma {:induction false} RootsTotal(idx: map<int, Block>, kids: map<int, seq<int>>, ids: seq<int>)
    requires Closed(idx, kids) && KidsParent(idx, kids)
    requires forall c :: c in ids ==> c in idx && Par(idx, c).None?
    ensures BuildAll(idx, kids, ids, {}).Some?
  {
    if ids != [] {
      var s := [ids[0]];
      assert s[0] == ids[0] && s[0] in idx && Par(idx, s[0]).None?;
      assert Chain(idx, s);
      assert s[..0] == [] && Elems(s[..0]) == {};
      BuildTotal(idx, kids, s);
      RootsTotal(idx, kids, ids[1..]);
    }
  }

  /** With unique ids organizeBlocksIntoTree always returns. */
  lemma OrganizeTotalUnique(blocks: seq<Block>)
    requires UniqueIds(PreOrder(blocks))
    ensures OrganizeTree(blocks).Some?
  {
    var flat := Flattened(blocks);
    var idx := Index(flat);
    IndexKeys(flat);
    LinkClosed(flat, idx);
    LinkIsFilter(flat, idx);
    UniqueFlattened(blocks);
    var l := LinkPass(flat, idx);
    forall p, c | p in l.kids && c in l.kids[p] ensures c in idx && Par(idx, c) == Some(p) {
      KidIdsMember(flat, idx, p, c);
      var i :| 0 <= i < |flat| && flat[i].id == c && ParentIn(flat[i], idx) == Some(p);
    }
    forall c | c in l.roots ensures c in idx && Par(idx, c).None? {
      RootIdsMember(flat, idx, c);
      var i :| 0 <= i < |flat| && flat[i].id == c && ParentIn(flat[i], idx).None?;
    }
    RootsTotal(idx, l.kids, l.roots);
  }
}
