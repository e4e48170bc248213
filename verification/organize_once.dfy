/**
 * With unique ids, organizeBlocksIntoTree (block-utils.ts:7-60) places
 * every block whose chain of parent links ends at a root exactly once,
 * drops the rest, and is idempotent: organizing its result again gives the
 * same tree.
 *
 * "At most once" measures every node by the number of parent links
 * between its id and a root. Two nodes with one id are equally deep, their
 * ancestors carry equal ids level by level, and no sibling list repeats an
 * id, so the two nodes are one.
 */
module OrganizeOnce {
  import opened Options
  import opened Blocks
  import opened StableSort
  import opened Organize
  import opened OrganizeShape
  import opened OrganizeTotal

  /** The parent the working copy with id `c` is attached to; None for a root or an unknown id. */
  function ParentOf(idx: map<int, Block>, c: int): Option<int> {
    if c in idx then ParentIn(idx[c], idx) else None
  }

  /** The id `n` parent links above `c`, when the chain is that long. */
  function Up(idx: map<int, Block>, c: int, n: nat): Option<int>
    decreases n
  {
    if n == 0 then Some(c)
    else
      match ParentOf(idx, c)
      case None => None
      case Some(p) => Up(idx, p, n - 1)
  }

  /** The chain of parent links from `c` ends at a root after exactly `n` links. */
  predicate Grounded(idx: map<int, Block>, c: int, n: nat) {
    Up(idx, c, n).Some? && ParentOf(idx, Up(idx, c, n).value).None?
  }

  /** A chain reaches its root only once: the depth of an id is unique. */
  lemma {:induction false} GroundedUnique(idx: map<int, Block>, c: int, n: nat, m: nat)
    requires Grounded(idx, c, n) && Grounded(idx, c, m)
    ensures n == m
    decreases n
  {
    if n > 0 && m > 0 {
      GroundedUnique(idx, ParentOf(idx, c).value, n - 1, m - 1);
    }
  }

  lemma {:induction false} UpStep(idx: map<int, Block>, y: int, n: nat, c: int, b: int)
    requires Up(idx, y, n) == Some(c) && ParentOf(idx, c) == Some(b)
    ensures Up(idx, y, n + 1) == Some(b)
    decreases n
  {
    if n > 0 {
      UpStep(idx, ParentOf(idx, y).value, n - 1, c, b);
    }
  }

  /** The id `y` lies some `n` parent links below the id `r`, which is `d` links below a root. */
  ghost predicate Hangs(idx: map<int, Block>, y: int, r: int, d: nat) {
    exists n: nat :: Up(idx, y, n) == Some(r) && Grounded(idx, y, d + n)
  }

  /** The id `y` hangs below one of the roots of `f`. */
  ghost predicate Below(idx: map<int, Block>, f: seq<Block>, d: nat, y: int) {
    exists r :: r in f && Hangs(idx, y, r.id, d)
  }

  lemma HangsStep(idx: map<int, Block>, y: int, c: int, b: int, d: nat)
    requires Hangs(idx, y, c, d + 1) && ParentOf(idx, c) == Some(b)
    ensures Hangs(idx, y, b, d)
  {
    var n: nat :| Up(idx, y, n) == Some(c) && Grounded(idx, y, d + 1 + n);
    UpStep(idx, y, n, c, b);
    assert Grounded(idx, y, d + (n + 1));
  }

  /** Below a node at depth `d` nothing is at depth `d` again. */
  lemma HangsDeeper(idx: map<int, Block>, y: int, c: int, d: nat)
    requires Hangs(idx, y, c, d + 1)
    ensures !Grounded(idx, y, d)
  {
    var n: nat :| Up(idx, y, n) == Some(c) && Grounded(idx, y, d + 1 + n);
    if Grounded(idx, y, d) {
      GroundedUnique(idx, y, d, d + 1 + n);
    }
  }

  /** Two ancestors of one id at the same depth are the same id. */
  lemma HangsSame(idx: map<int, Block>, y: int, r1: int, r2: int, d: nat)
    requires Hangs(idx, y, r1, d) && Hangs(idx, y, r2, d)
    ensures r1 == r2
  {
    var n1: nat :| Up(idx, y, n1) == Some(r1) && Grounded(idx, y, d + n1);
    var n2: nat :| Up(idx, y, n2) == Some(r2) && Grounded(idx, y, d + n2);
    GroundedUnique(idx, y, d + n1, d + n2);
  }

  /** Every child hangs under the node whose id its parent link names. */
  predicate Linked(idx: map<int, Block>, f: seq<Block>) {
    forall x, c :: x in PreOrder(f) && c in x.children ==> ParentOf(idx, c.id) == Some(x.id)
  }

  /** No sibling list repeats an id. */
  predicate SiblingsUnique(f: seq<Block>) {
    forall x :: x in PreOrder(f) ==> UniqueIds(x.children)
  }

  predicate IdsApart(a: seq<Block>, b: seq<Block>) {
    forall u, v :: u in a && v in b ==> u.id != v.id
  }

  lemma UniqueAppend(a: seq<Block>, b: seq<Block>)
    requires UniqueIds(a) && UniqueIds(b) && IdsApart(a, b)
    ensures UniqueIds(a + b)
  {
    forall i, j | 0 <= i < j < |a + b| ensures (a + b)[i].id != (a + b)[j].id {
      if j < |a| {
        assert (a + b)[i] == a[i] && (a + b)[j] == a[j];
      } else if i >= |a| {
        assert (a + b)[i] == b[i - |a|] && (a + b)[j] == b[j - |a|];
      } else {
        assert (a + b)[i] in a && (a + b)[j] in b;
      }
    }
  }

  lemma UniqueParts(a: seq<Block>, b: seq<Block>)
    requires UniqueIds(a + b)
    ensures UniqueIds(a) && UniqueIds(b) && IdsApart(a, b)
  {
    forall i, j | 0 <= i < j < |a| ensures a[i].id != a[j].id {
      assert (a + b)[i] == a[i] && (a + b)[j] == a[j];
    }
    forall i, j | 0 <= i < j < |b| ensures b[i].id != b[j].id {
      assert (a + b)[|a| + i] == b[i] && (a + b)[|a| + j] == b[j];
    }
    forall u, v | u in a && v in b ensures u.id != v.id {
      var i :| 0 <= i < |a| && a[i] == u;
      var j :| 0 <= j < |b| && b[j] == v;
      assert (a + b)[i] == u && (a + b)[|a| + j] == v;
    }
  }

  lemma PreOrderCons(f: seq<Block>)
    requires f != []
    ensures PreOrder(f) == [f[0]] + PreOrder(f[0].children) + PreOrder(f[1..])
  {
  }

  lemma UniqueTail(f: seq<Block>)
    requires f != [] && UniqueIds(f)
    ensures UniqueIds(f[1..])
    ensures forall r :: r in f[1..] ==> r.id != f[0].id
  {
    UniqueParts([f[0]], f[1..]);
    assert [f[0]] + f[1..] == f;
  }

  /** The conditions of ForestUnique hold for the first root's children and for the other roots. */
  lemma ForestParts(idx: map<int, Block>, f: seq<Block>, d: nat)
    requires f != [] && UniqueIds(f) && Linked(idx, f) && SiblingsUnique(f)
    requires forall r :: r in f ==> Grounded(idx, r.id, d)
    ensures UniqueIds(f[0].children) && Linked(idx, f[0].children) && SiblingsUnique(f[0].children)
    ensures forall c :: c in f[0].children ==> ParentOf(idx, c.id) == Some(f[0].id) && Grounded(idx, c.id, d + 1)
    ensures UniqueIds(f[1..]) && Linked(idx, f[1..]) && SiblingsUnique(f[1..])
    ensures forall r :: r in f[1..] ==> r.id != f[0].id && Grounded(idx, r.id, d)
  {
    PreOrderCons(f);
    UniqueTail(f);
    assert f[0] in PreOrder(f);
    forall c | c in f[0].children ensures Grounded(idx, c.id, d + 1) {
      assert ParentOf(idx, c.id) == Some(f[0].id);
    }
  }

  /** A root and its subtree: nothing below the root repeats its id, and all of it hangs below the root. */
  lemma SubtreeHangs(idx: map<int, Block>, b: Block, d: nat)
    requires Grounded(idx, b.id, d)
    requires forall c :: c in b.children ==> ParentOf(idx, c.id) == Some(b.id)
    requires UniqueIds(PreOrder(b.children))
    requires forall y :: y in PreOrder(b.children) ==> Below(idx, b.children, d + 1, y.id)
    ensures UniqueIds([b] + PreOrder(b.children))
    ensures forall u :: u in [b] + PreOrder(b.children) ==> Hangs(idx, u.id, b.id, d)
  {
    var pc := PreOrder(b.children);
    forall u | u in [b] + pc ensures Hangs(idx, u.id, b.id, d) {
      if u == b {
        assert Up(idx, u.id, 0) == Some(b.id);
      } else {
        var c :| c in b.children && Hangs(idx, u.id, c.id, d + 1);
        HangsStep(idx, u.id, c.id, b.id, d);
      }
    }
    forall y | y in pc ensures y.id != b.id {
      var c :| c in b.children && Hangs(idx, y.id, c.id, d + 1);
      HangsDeeper(idx, y.id, c.id, d);
    }
    UniqueAppend([b], pc);
  }

  /** What hangs below a root shares no id with what hangs below its siblings. */
  lemma SubtreesApart(idx: map<int, Block>, a: seq<Block>, bid: int, rest: seq<Block>, pr: seq<Block>, d: nat)
    requires forall u :: u in a ==> Hangs(idx, u.id, bid, d)
    requires forall v :: v in pr ==> Below(idx, rest, d, v.id)
    requires forall r :: r in rest ==> r.id != bid
    ensures IdsApart(a, pr)
  {
    forall u, v | u in a && v in pr ensures u.id != v.id {
      var r :| r in rest && Hangs(idx, v.id, r.id, d);
      if u.id == v.id {
        HangsSame(idx, u.id, bid, r.id, d);
      }
    }
  }

  lemma BelowJoin(idx: map<int, Block>, f: seq<Block>, d: nat)
    requires f != []
    requires forall u :: u in [f[0]] + PreOrder(f[0].children) ==> Hangs(idx, u.id, f[0].id, d)
    requires forall y :: y in PreOrder(f[1..]) ==> Below(idx, f[1..], d, y.id)
    ensures forall y :: y in PreOrder(f) ==> Below(idx, f, d, y.id)
  {
    PreOrderCons(f);
    forall y | y in PreOrder(f) ensures Below(idx, f, d, y.id) {
      if y in PreOrder(f[1..]) {
        var r :| r in f[1..] && Hangs(idx, y.id, r.id, d);
        assert r in f;
      } else {
        assert y in [f[0]] + PreOrder(f[0].children);
      }
    }
  }

  /**
   * A forest whose roots lie `d` parent links below a root of the whole
   * tree, whose children hang under the node their parent link names and
   * whose sibling lists never repeat an id repeats no id anywhere; and
   * every node of it hangs below one of its roots.
   */
  lemma {:induction false} ForestUnique(idx: map<int, Block>, f: seq<Block>, d: nat)
    requires UniqueIds(f) && Linked(idx, f) && SiblingsUnique(f)
    requires forall r :: r in f ==> Grounded(idx, r.id, d)
    ensures UniqueIds(PreOrder(f))
    ensures forall y :: y in PreOrder(f) ==> Below(idx, f, d, y.id)
    decreases f
  {
    if f != [] {
      ForestParts(idx, f, d);
      ForestUnique(idx, f[0].children, d + 1);
      ForestUnique(idx, f[1..], d);
      SubtreeHangs(idx, f[0], d);
      SubtreesApart(idx, [f[0]] + PreOrder(f[0].children), f[0].id, f[1..], PreOrder(f[1..]), d);
      UniqueAppend([f[0]] + PreOrder(f[0].children), PreOrder(f[1..]));
      PreOrderCons(f);
      BelowJoin(idx, f, d);
    }
  }

  predicate DistinctInts(s: seq<int>) {
    forall i, j :: 0 <= i < j < |s| ==> s[i] != s[j]
  }

  lemma {:induction false} DistinctCount(s: seq<int>, v: int)
    requires DistinctInts(s)
    ensures multiset(s)[v] <= 1
  {
    if s != [] {
      assert s == [s[0]] + s[1..];
      forall i, j | 0 <= i < j < |s[1..]| ensures s[1..][i] != s[1..][j] {
        assert s[1..][i] == s[i + 1] && s[1..][j] == s[j + 1];
      }
      DistinctCount(s[1..], v);
      forall k | 0 <= k < |s[1..]| ensures s[1..][k] != s[0] {
        assert s[1..][k] == s[k + 1];
      }
    }
  }

  /** A permutation of a list without repeats has no repeats. */
  lemma DistinctPerm(a: seq<int>, b: seq<int>)
    requires multiset(a) == multiset(b) && DistinctInts(a)
    ensures DistinctInts(b)
  {
    forall i, j | 0 <= i < j < |b| ensures b[i] != b[j] {
      assert b == b[..j] + b[j..];
      assert b[i] in b[..j] && b[j] in b[j..];
      assert multiset(b)[b[j]] == multiset(b[..j])[b[j]] + multiset(b[j..])[b[j]];
      DistinctCount(a, b[j]);
    }
  }

  lemma {:induction false} KidIdsDistinct(flat: seq<Block>, idx: map<int, Block>, p: int)
    requires UniqueIds(flat)
    ensures DistinctInts(KidIds(flat, idx, p))
  {
    if flat != [] {
      UniqueTail(flat);
      KidIdsDistinct(flat[1..], idx, p);
      var h := if ParentIn(flat[0], idx) == Some(p) then [flat[0].id] else [];
      var t := KidIds(flat[1..], idx, p);
      forall i, j | 0 <= i < j < |h + t| ensures (h + t)[i] != (h + t)[j] {
        if i < |h| {
          KidIdsMember(flat[1..], idx, p, (h + t)[j]);
          var k :| 0 <= k < |flat[1..]| && flat[1..][k].id == (h + t)[j] && ParentIn(flat[1..][k], idx) == Some(p);
          assert flat[1..][k] in flat[1..];
        } else {
          assert (h + t)[i] == t[i - |h|] && (h + t)[j] == t[j - |h|];
        }
      }
    }
  }

  lemma {:induction false} RootIdsDistinct(flat: seq<Block>, idx: map<int, Block>)
    requires UniqueIds(flat)
    ensures DistinctInts(RootIds(flat, idx))
  {
    if flat != [] {
      UniqueTail(flat);
      RootIdsDistinct(flat[1..], idx);
      var h := if ParentIn(flat[0], idx).None? then [flat[0].id] else [];
      var t := RootIds(flat[1..], idx);
      forall i, j | 0 <= i < j < |h + t| ensures (h + t)[i] != (h + t)[j] {
        if i < |h| {
          RootIdsMember(flat[1..], idx, (h + t)[j]);
          var k :| 0 <= k < |flat[1..]| && flat[1..][k].id == (h + t)[j] && ParentIn(flat[1..][k], idx).None?;
          assert flat[1..][k] in flat[1..];
        } else {
          assert (h + t)[i] == t[i - |h|] && (h + t)[j] == t[j - |h|];
        }
      }
    }
  }

  /** A list whose ids are the sorted form of ids without repeats repeats no id. */
  lemma SortedIdsUnique(s: seq<Block>, ids: seq<int>, key: int -> int)
    requires Ids(s) == SortBy(ids, key) && DistinctInts(ids)
    ensures UniqueIds(s)
  {
    DistinctPerm(ids, Ids(s));
    forall i, j | 0 <= i < j < |s| ensures s[i].id != s[j].id {
      assert Ids(s)[i] == s[i].id && Ids(s)[j] == s[j].id;
    }
  }

  lemma FlattenedUnique(forest: seq<Block>)
    requires UniqueIds(PreOrder(forest))
    ensures UniqueIds(Flattened(forest))
  {
    var p := PreOrder(forest);
    var flat := Flattened(forest);
    DetachedChildless(p);
    forall i, j | 0 <= i < j < |flat| ensures flat[i].id != flat[j].id {
      assert flat[i].id == p[i].id && flat[j].id == p[j].id;
    }
  }

  /** A node of the result: the stored copy of its id, with its children array sorted. */
  predicate NodeShaped(flat: seq<Block>, idx: map<int, Block>, x: Block) {
    && x.id in idx && Detach(x) == idx[x.id]
    && Ids(x.children) == SortBy(KidIds(flat, idx, x.id), PosOf(idx))
    && Sorted(x.children, Pos)
  }

  /** `t` has the shape organizeBlocksIntoTree gives its result for `flat` and its index. */
  ghost predicate Shaped(flat: seq<Block>, idx: map<int, Block>, t: seq<Block>) {
    && Ids(t) == SortBy(RootIds(flat, idx), PosOf(idx))
    && Sorted(t, Pos)
    && forall x :: InForest(x, t) ==> NodeShaped(flat, idx, x)
  }

  lemma ShapedResult(blocks: seq<Block>)
    requires OrganizeTree(blocks).Some?
    ensures Shaped(Flattened(blocks), Index(Flattened(blocks)), OrganizeTree(blocks).value)
  {
    OrganizeResult(blocks);
  }

  lemma RootsGrounded(flat: seq<Block>, idx: map<int, Block>, t: seq<Block>)
    requires Stored(flat, idx) && Shaped(flat, idx, t)
    ensures forall r :: r in t ==> Grounded(idx, r.id, 0)
  {
    forall r | r in t ensures Grounded(idx, r.id, 0) {
      assert InForest(r, t) by { var i :| 0 <= i < |t| && t[i] == r; }
      RootNotAttached(flat, idx, t, r);
    }
  }

  lemma ShapedLinked(flat: seq<Block>, idx: map<int, Block>, t: seq<Block>)
    requires Stored(flat, idx) && Shaped(flat, idx, t)
    ensures Linked(idx, t)
  {
    PreOrderNodes(t);
    forall x, c | x in PreOrder(t) && c in x.children ensures ParentOf(idx, c.id) == Some(x.id) {
      InForestChild(x, c, t);
      ChildAttached(flat, idx, x, c);
    }
  }

  lemma ShapedSiblings(flat: seq<Block>, idx: map<int, Block>, t: seq<Block>)
    requires UniqueIds(flat) && Shaped(flat, idx, t)
    ensures UniqueIds(t) && SiblingsUnique(t)
  {
    PreOrderNodes(t);
    forall x | x in PreOrder(t) ensures UniqueIds(x.children) {
      KidIdsDistinct(flat, idx, x.id);
      SortedIdsUnique(x.children, KidIds(flat, idx, x.id), PosOf(idx));
    }
    RootIdsDistinct(flat, idx);
    SortedIdsUnique(t, RootIds(flat, idx), PosOf(idx));
  }

  /** The chain of parent links of every node of `t` ends at a root of `idx`. */
  ghost predicate AllGrounded(idx: map<int, Block>, t: seq<Block>) {
    forall y :: y in PreOrder(t) ==> exists n: nat :: Grounded(idx, y.id, n)
  }

  /** Every node of a shaped tree built from unique ids appears once and is grounded. */
  lemma ShapedOnce(flat: seq<Block>, idx: map<int, Block>, t: seq<Block>)
    requires Stored(flat, idx) && UniqueIds(flat) && Shaped(flat, idx, t)
    ensures UniqueIds(PreOrder(t)) && AllGrounded(idx, t)
  {
    RootsGrounded(flat, idx, t);
    ShapedLinked(flat, idx, t);
    ShapedSiblings(flat, idx, t);
    ForestUnique(idx, t, 0);
    forall y | y in PreOrder(t) ensures exists n: nat :: Grounded(idx, y.id, n) {
      var r :| r in t && Hangs(idx, y.id, r.id, 0);
      var n: nat :| Up(idx, y.id, n) == Some(r.id) && Grounded(idx, y.id, 0 + n);
    }
  }

  /**
   * With unique ids no block appears twice in the result, and the chain of
   * parent links of every node of it ends at a root.
   */
  lemma OrganizeOnceUnique(blocks: seq<Block>)
    requires UniqueIds(PreOrder(blocks))
    ensures OrganizeTree(blocks).Some?
    ensures UniqueIds(PreOrder(OrganizeTree(blocks).value))
    ensures AllGrounded(Index(Flattened(blocks)), OrganizeTree(blocks).value)
  {
    OrganizeTotalUnique(blocks);
    ShapedResult(blocks);
    UniqueFlattened(blocks);
    FlattenedUnique(blocks);
    ShapedOnce(Flattened(blocks), Index(Flattened(blocks)), OrganizeTree(blocks).value);
  }

  /** Every block of `flat` whose chain of parent links ends at a root reaches the shaped tree. */
  lemma {:induction false} GroundedReaches(flat: seq<Block>, idx: map<int, Block>, t: seq<Block>, b: Block, n: nat)
    requires Stored(flat, idx) && Shaped(flat, idx, t) && idx.Keys <= (set c | c in flat :: c.id)
    requires b in flat && Grounded(idx, b.id, n)
    ensures exists x :: InForest(x, t) && Detach(x) == b
    decreases n
  {
    var i :| 0 <= i < |flat| && flat[i] == b;
    assert idx[b.id] == b;
    if n == 0 {
      var r := RootFound(flat, idx, t, b);
      assert InForest(r, t) by { var k :| 0 <= k < |t| && t[k] == r; }
    } else {
      var p := ParentOf(idx, b.id).value;
      var q :| q in flat && q.id == p;
      var j :| 0 <= j < |flat| && flat[j] == q;
      assert idx[p] == q;
      GroundedReaches(flat, idx, t, q, n - 1);
      var x :| InForest(x, t) && Detach(x) == q;
      var c := ChildFound(flat, idx, x, b);
      InForestChild(x, c, t);
    }
  }

  lemma IndexCovered(flat: seq<Block>)
    ensures Index(flat).Keys <= (set c | c in flat :: c.id)
  {
    IndexKeys(flat);
    forall k | k in Index(flat) ensures k in (set c | c in flat :: c.id) {
      var i :| 0 <= i < |flat| && flat[i].id == k;
    }
  }

  /**
   * Each once: with unique ids a block of the input appears in the result
   * exactly when its chain of parent links ends at a root, and no block
   * appears twice.
   */
  lemma OrganizeExactlyOnce(blocks: seq<Block>, b: Block)
    requires UniqueIds(PreOrder(blocks)) && b in Flattened(blocks)
    ensures OrganizeTree(blocks).Some?
    ensures UniqueIds(PreOrder(OrganizeTree(blocks).value))
    ensures (exists x :: InForest(x, OrganizeTree(blocks).value) && Detach(x) == b) <==>
      exists n: nat :: Grounded(Index(Flattened(blocks)), b.id, n)
  {
    OrganizeOnceUnique(blocks);
    var flat := Flattened(blocks);
    var idx := Index(flat);
    var t := OrganizeTree(blocks).value;
    if exists n: nat :: Grounded(idx, b.id, n) {
      var n: nat :| Grounded(idx, b.id, n);
      ShapedResult(blocks);
      UniqueFlattened(blocks);
      IndexCovered(flat);
      GroundedReaches(flat, idx, t, b, n);
    }
    if exists x :: InForest(x, t) && Detach(x) == b {
      var x :| InForest(x, t) && Detach(x) == b;
      PreOrderNodes(t);
      assert x in PreOrder(t);
    }
  }

  // Idempotence. Feeding the result back in flattens it to its own nodes;
  // they are attached exactly as in the tree, so each children array comes
  // back in tree order, which is already sorted.

  /** Every root of `f` resolves to `q` in `idx`, and every child to the node it hangs under. */
  predicate Attached(idx: map<int, Block>, f: seq<Block>, q: Option<int>) {
    && (forall r :: r in f ==> ParentIn(r, idx) == q)
    && (forall x, c :: x in PreOrder(f) && c in x.children ==> ParentIn(c, idx) == Some(x.id))
  }

  lemma AttachedParts(idx: map<int, Block>, f: seq<Block>, q: Option<int>)
    requires f != [] && Attached(idx, f, q)
    ensures Attached(idx, f[0].children, Some(f[0].id)) && Attached(idx, f[1..], q)
  {
    PreOrderCons(f);
    assert f[0] in PreOrder(f);
  }

  lemma {:induction false} KidIdsAppend(a: seq<Block>, b: seq<Block>, idx: map<int, Block>, p: int)
    ensures KidIds(a + b, idx, p) == KidIds(a, idx, p) + KidIds(b, idx, p)
  {
    if a == [] {
      assert a + b == b;
    } else {
      assert (a + b)[0] == a[0] && (a + b)[1..] == a[1..] + b;
      KidIdsAppend(a[1..], b, idx, p);
    }
  }

  lemma {:induction false} RootIdsAppend(a: seq<Block>, b: seq<Block>, idx: map<int, Block>)
    ensures RootIds(a + b, idx) == RootIds(a, idx) + RootIds(b, idx)
  {
    if a == [] {
      assert a + b == b;
    } else {
      assert (a + b)[0] == a[0] && (a + b)[1..] == a[1..] + b;
      RootIdsAppend(a[1..], b, idx);
    }
  }

  /** Flattening a forest: its first root, that root's subtree, then the other roots' subtrees. */
  lemma FlatCons(f: seq<Block>)
    requires f != []
    ensures Detached(PreOrder(f)) ==
      [Detach(f[0])] + Detached(PreOrder(f[0].children)) + Detached(PreOrder(f[1..]))
  {
    PreOrderCons(f);
    DetachedAppend([f[0]] + PreOrder(f[0].children), PreOrder(f[1..]));
    DetachedAppend([f[0]], PreOrder(f[0].children));
  }

  lemma KidIdsSplit(f: seq<Block>, idx: map<int, Block>, p: int)
    requires f != []
    ensures KidIds(Detached(PreOrder(f)), idx, p) ==
      (if ParentIn(f[0], idx) == Some(p) then [f[0].id] else [])
      + KidIds(Detached(PreOrder(f[0].children)), idx, p)
      + KidIds(Detached(PreOrder(f[1..])), idx, p)
  {
    FlatCons(f);
    var a, b, c := [Detach(f[0])], Detached(PreOrder(f[0].children)), Detached(PreOrder(f[1..]));
    KidIdsAppend(a + b, c, idx, p);
    KidIdsAppend(a, b, idx, p);
    assert KidIds(a, idx, p) == (if ParentIn(f[0], idx) == Some(p) then [f[0].id] else []) + KidIds([], idx, p);
  }

  lemma RootIdsSplit(f: seq<Block>, idx: map<int, Block>)
    requires f != []
    ensures RootIds(Detached(PreOrder(f)), idx) ==
      (if ParentIn(f[0], idx).None? then [f[0].id] else [])
      + RootIds(Detached(PreOrder(f[0].children)), idx)
      + RootIds(Detached(PreOrder(f[1..])), idx)
  {
    FlatCons(f);
    var a, b, c := [Detach(f[0])], Detached(PreOrder(f[0].children)), Detached(PreOrder(f[1..]));
    RootIdsAppend(a + b, c, idx);
    RootIdsAppend(a, b, idx);
    assert RootIds(a, idx) == (if ParentIn(f[0], idx).None? then [f[0].id] else []) + RootIds([], idx);
  }

  lemma FilterRootsStep(idx: map<int, Block>, f: seq<Block>, q: Option<int>)
    requires f != [] && ParentIn(f[0], idx) == q
    requires RootIds(Detached(PreOrder(f[0].children)), idx) == []
    requires RootIds(Detached(PreOrder(f[1..])), idx) == if q.None? then Ids(f[1..]) else []
    ensures RootIds(Detached(PreOrder(f)), idx) == if q.None? then Ids(f) else []
  {
    RootIdsSplit(f, idx);
    assert Ids(f) == [f[0].id] + Ids(f[1..]);
  }

  /** Re-flattening an attached forest finds its roots as roots, in order, and nothing else. */
  lemma {:induction false} FilterRoots(idx: map<int, Block>, f: seq<Block>, q: Option<int>)
    requires Attached(idx, f, q)
    ensures RootIds(Detached(PreOrder(f)), idx) == if q.None? then Ids(f) else []
    decreases f
  {
    if f != [] {
      AttachedParts(idx, f, q);
      FilterRoots(idx, f[0].children, Some(f[0].id));
      FilterRoots(idx, f[1..], q);
      FilterRootsStep(idx, f, q);
    }
  }

  lemma AvoidParts(f: seq<Block>, p: int)
    requires f != [] && forall y :: y in PreOrder(f) ==> y.id != p
    ensures f[0].id != p
    ensures forall y :: y in PreOrder(f[0].children) ==> y.id != p
    ensures forall y :: y in PreOrder(f[1..]) ==> y.id != p
  {
    PreOrderCons(f);
    assert f[0] in PreOrder(f);
  }

  lemma FilterKidsNoneStep(idx: map<int, Block>, f: seq<Block>, q: Option<int>, p: int)
    requires f != [] && f[0].id != p && ParentIn(f[0], idx) == q
    requires KidIds(Detached(PreOrder(f[0].children)), idx, p) == []
    requires KidIds(Detached(PreOrder(f[1..])), idx, p) == if q == Some(p) then Ids(f[1..]) else []
    ensures KidIds(Detached(PreOrder(f)), idx, p) == if q == Some(p) then Ids(f) else []
  {
    KidIdsSplit(f, idx, p);
    assert Ids(f) == [f[0].id] + Ids(f[1..]);
  }

  /** With no node of id `p`, the blocks attached to `p` are the roots, when they hang under `p`. */
  lemma {:induction false} FilterKidsNone(idx: map<int, Block>, f: seq<Block>, q: Option<int>, p: int)
    requires Attached(idx, f, q)
    requires forall y :: y in PreOrder(f) ==> y.id != p
    ensures KidIds(Detached(PreOrder(f)), idx, p) == if q == Some(p) then Ids(f) else []
    decreases f
  {
    if f != [] {
      AvoidParts(f, p);
      AttachedParts(idx, f, q);
      FilterKidsNone(idx, f[0].children, Some(f[0].id), p);
      FilterKidsNone(idx, f[1..], q, p);
      FilterKidsNoneStep(idx, f, q, p);
    }
  }

  /** Re-flattening a unique-id attached forest attaches to node `x` exactly its children, in order. */
  lemma {:induction false} FilterKidsOf(idx: map<int, Block>, f: seq<Block>, q: Option<int>, x: Block)
    requires Attached(idx, f, q) && UniqueIds(PreOrder(f))
    requires x in PreOrder(f) && q != Some(x.id)
    ensures KidIds(Detached(PreOrder(f)), idx, x.id) == Ids(x.children)
    decreases f
  {
    var b, rest := f[0], f[1..];
    var pc, pr := PreOrder(b.children), PreOrder(rest);
    PreOrderCons(f);
    AttachedParts(idx, f, q);
    KidIdsSplit(f, idx, x.id);
    UniqueParts([b] + pc, pr);
    UniqueParts([b], pc);
    assert b in [b] + pc;
    if x == b {
      FilterKidsNone(idx, b.children, Some(b.id), x.id);
      FilterKidsNone(idx, rest, q, x.id);
    } else if x in pc {
      assert x in [b] + pc;
      FilterKidsOf(idx, b.children, Some(b.id), x);
      FilterKidsNone(idx, rest, q, x.id);
    } else {
      forall y | y in pc ensures y.id != x.id {
        assert y in [b] + pc;
      }
      FilterKidsNone(idx, b.children, Some(b.id), x.id);
      FilterKidsOf(idx, rest, q, x);
    }
  }

  /** A list sorted by position, whose nodes are stored under their ids, keeps its order when sorted by stored position. */
  lemma SortedIdsFixed(s: seq<Block>, idx: map<int, Block>)
    requires Sorted(s, Pos)
    requires forall y :: y in s ==> y.id in idx && idx[y.id] == Detach(y)
    ensures SortBy(Ids(s), PosOf(idx)) == Ids(s)
  {
    SortByMap(s, Id, Pos, PosOf(idx));
    SortSorted(s, Pos);
  }

  lemma NodesStored(t: seq<Block>)
    requires UniqueIds(PreOrder(t))
    ensures forall x :: InForest(x, t) ==>
      x.id in Index(Flattened(t)) && Index(Flattened(t))[x.id] == Detach(x)
  {
    UniqueFlattened(t);
    PreOrderNodes(t);
    DetachedChildless(PreOrder(t));
    forall x | InForest(x, t) ensures x.id in Index(Flattened(t)) && Index(Flattened(t))[x.id] == Detach(x) {
      var i :| 0 <= i < |PreOrder(t)| && PreOrder(t)[i] == x;
      assert Flattened(t)[i] == Detach(x);
    }
  }

  /** The ids the result's own index holds are ids of the input's index. */
  lemma KeysWithin(flat: seq<Block>, idx: map<int, Block>, t: seq<Block>)
    requires Shaped(flat, idx, t)
    ensures Index(Flattened(t)).Keys <= idx.Keys
  {
    var flat2 := Flattened(t);
    PreOrderNodes(t);
    IndexKeys(flat2);
    DetachedChildless(PreOrder(t));
    forall k | k in Index(flat2) ensures k in idx {
      var i :| 0 <= i < |flat2| && flat2[i].id == k;
      assert PreOrder(t)[i] in PreOrder(t);
    }
  }

  lemma ReRoots(flat: seq<Block>, idx: map<int, Block>, t: seq<Block>)
    requires Stored(flat, idx) && Shaped(flat, idx, t)
    ensures forall r :: r in t ==> ParentIn(r, Index(Flattened(t))).None?
  {
    KeysWithin(flat, idx, t);
    forall r | r in t ensures ParentIn(r, Index(Flattened(t))).None? {
      assert InForest(r, t) by { var i :| 0 <= i < |t| && t[i] == r; }
      RootNotAttached(flat, idx, t, r);
    }
  }

  lemma ReChildren(flat: seq<Block>, idx: map<int, Block>, t: seq<Block>)
    requires Stored(flat, idx) && Shaped(flat, idx, t) && UniqueIds(PreOrder(t))
    ensures forall x, c :: x in PreOrder(t) && c in x.children ==> ParentIn(c, Index(Flattened(t))) == Some(x.id)
  {
    NodesStored(t);
    PreOrderNodes(t);
    forall x, c | x in PreOrder(t) && c in x.children ensures ParentIn(c, Index(Flattened(t))) == Some(x.id) {
      InForestChild(x, c, t);
      ChildAttached(flat, idx, x, c);
    }
  }

  /** In the result's own index its roots stay roots and its children stay attached to their nodes. */
  lemma ReAttached(flat: seq<Block>, idx: map<int, Block>, t: seq<Block>)
    requires Stored(flat, idx) && Shaped(flat, idx, t) && UniqueIds(PreOrder(t))
    ensures Attached(Index(Flattened(t)), t, None)
  {
    ReRoots(flat, idx, t);
    ReChildren(flat, idx, t);
  }

  lemma ReNode(idx2: map<int, Block>, t: seq<Block>, x: Block)
    requires Attached(idx2, t, None) && UniqueIds(PreOrder(t)) && InForest(x, t)
    requires forall y :: InForest(y, t) ==> y.id in idx2 && idx2[y.id] == Detach(y) && Sorted(y.children, Pos)
    ensures KidIds(Detached(PreOrder(t)), idx2, x.id) == Ids(x.children)
    ensures SortBy(Ids(x.children), PosOf(idx2)) == Ids(x.children)
  {
    PreOrderNodes(t);
    FilterKidsOf(idx2, t, None, x);
    forall c | c in x.children ensures InForest(c, t) {
      InForestChild(x, c, t);
    }
    SortedIdsFixed(x.children, idx2);
  }

  /**
   * With unique ids the result has, with respect to its own flattened form
   * and index, the shape it has with respect to the input.
   */
  lemma ReShaped(flat: seq<Block>, idx: map<int, Block>, t: seq<Block>)
    requires Stored(flat, idx) && Shaped(flat, idx, t) && UniqueIds(PreOrder(t))
    ensures Shaped(Flattened(t), Index(Flattened(t)), t)
  {
    var flat2 := Flattened(t);
    var idx2 := Index(flat2);
    NodesStored(t);
    ReAttached(flat, idx, t);
    FilterRoots(idx2, t, None);
    forall r | r in t ensures InForest(r, t) {
      var i :| 0 <= i < |t| && t[i] == r;
    }
    SortedIdsFixed(t, idx2);
    forall x | InForest(x, t) ensures NodeShaped(flat2, idx2, x) {
      ReNode(idx2, t, x);
    }
  }

  lemma InForestParts(t: seq<Block>)
    requires t != []
    ensures forall x :: InForest(x, t[0].children) ==> InForest(x, t)
    ensures forall x :: InForest(x, t[1..]) ==> InForest(x, t)
    ensures InForest(t[0], t)
  {
    forall x | InForest(x, t[1..]) ensures InForest(x, t) {
      var i :| 0 <= i < |t[1..]| && (t[1..][i] == x || InForest(x, t[1..][i].children));
      assert t[i + 1] == t[1..][i];
    }
  }

  /** Two blocks with the same detached form and the same children are equal. */
  lemma SameNode(a: Block, b: Block)
    requires Detach(a) == Detach(b) && a.children == b.children
    ensures a == b
  {
    assert a == Detach(a).(children := a.children);
    assert b == Detach(b).(children := b.children);
  }

  /**
   * Two forests with the same root ids, whose nodes are all shaped by the
   * same flattened list and index, are equal.
   */
  lemma {:induction false} SameForest(flat: seq<Block>, idx: map<int, Block>, t1: seq<Block>, t2: seq<Block>)
    requires Ids(t1) == Ids(t2)
    requires forall x :: InForest(x, t1) ==> NodeShaped(flat, idx, x)
    requires forall x :: InForest(x, t2) ==> NodeShaped(flat, idx, x)
    ensures t1 == t2
    decreases t1
  {
    assert |t1| == |Ids(t1)| == |t2|;
    if t1 != [] {
      InForestParts(t1);
      InForestParts(t2);
      assert t1[0].id == Ids(t1)[0] && t2[0].id == Ids(t2)[0];
      SameForest(flat, idx, t1[0].children, t2[0].children);
      SameNode(t1[0], t2[0]);
      assert Ids(t1[1..]) == Ids(t1)[1..] && Ids(t2[1..]) == Ids(t2)[1..];
      SameForest(flat, idx, t1[1..], t2[1..]);
      assert t1 == [t1[0]] + t1[1..] && t2 == [t2[0]] + t2[1..];
    }
  }

  /**
   * With unique ids organizing is idempotent: feeding the result back in
   * gives the same tree.
   */
  lemma OrganizeIdempotentUnique(blocks: seq<Block>)
    requires UniqueIds(PreOrder(blocks))
    ensures OrganizeTree(blocks).Some?
    ensures OrganizeTree(OrganizeTree(blocks).value) == OrganizeTree(blocks)
  {
    OrganizeOnceUnique(blocks);
    var t := OrganizeTree(blocks).value;
    ShapedResult(blocks);
    UniqueFlattened(blocks);
    OrganizeTotalUnique(t);
    ShapedResult(t);
    ReShaped(Flattened(blocks), Index(Flattened(blocks)), t);
    SameForest(Flattened(t), Index(Flattened(t)), OrganizeTree(t).value, t);
  }
}
