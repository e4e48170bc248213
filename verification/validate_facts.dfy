/**
 * What validateBlockTree reports, stated per kind of error in terms of the
 * calls `validate` makes, and what the walk visits.
 */
module ValidateFacts {
  import opened Options
  import opened Blocks
  import opened StableSort
  import opened Validate

  /** `e` is reported by the `j`-th call, given the ids seen before it. */
  predicate ReportedAt(vs: seq<Visit>, seen: set<int>, e: ValidationError, j: int) {
    0 <= j < |vs| && e in VisitErrors(vs[j], seen + VisitIds(vs[..j]))
  }

  lemma {:induction false} ErrorsMember(vs: seq<Visit>, seen: set<int>, e: ValidationError)
    ensures e in Errors(vs, seen) <==> exists j :: ReportedAt(vs, seen, e, j)
  {
    if vs != [] {
      var seen' := seen + {vs[0].block.id};
      ErrorsMember(vs[1..], seen', e);
      assert Errors(vs, seen) == VisitErrors(vs[0], seen) + Errors(vs[1..], seen');
      assert vs[..0] == [];
      assert seen + VisitIds(vs[..0]) == seen;
      forall j | 0 < j < |vs|
        ensures ReportedAt(vs, seen, e, j) <==> ReportedAt(vs[1..], seen', e, j - 1)
      {
        assert vs[..j] == [vs[0]] + vs[1..][..j - 1];
        VisitIdsAppend([vs[0]], vs[1..][..j - 1]);
        assert seen + VisitIds(vs[..j]) == seen' + VisitIds(vs[1..][..j - 1]);
      }
      if e in VisitErrors(vs[0], seen) {
        assert ReportedAt(vs, seen, e, 0);
      }
      if e in Errors(vs[1..], seen') {
        var j :| ReportedAt(vs[1..], seen', e, j);
        assert ReportedAt(vs, seen, e, j + 1);
      }
      if exists j :: ReportedAt(vs, seen, e, j) {
        var j :| ReportedAt(vs, seen, e, j);
        if j > 0 {
          assert ReportedAt(vs[1..], seen', e, j - 1);
        }
      }
    }
  }

  lemma {:induction false} TypeErrorsMember(id: int, cs: seq<Block>, allowed: seq<BlockType>, e: ValidationError)
    ensures e in TypeErrors(id, cs, allowed) <==>
      exists i :: 0 <= i < |cs| && cs[i].blockType !in allowed && e == DisallowedChild(id, cs[i].blockType)
  {
    if cs != [] {
      var n := |cs| - 1;
      TypeErrorsMember(id, cs[..n], allowed, e);
      assert forall i :: 0 <= i < n ==> cs[..n][i] == cs[i];
    }
  }

  /** The possible errors of one call. */
  lemma VisitErrorsMember(v: Visit, seen: set<int>, e: ValidationError)
    ensures e in VisitErrors(v, seen) <==>
      || (v.block.id in seen && e == DuplicateId(v.block.id))
      || (v.depth > 10 && e == TooDeep(v.depth, v.block.id))
      || (v.block.blockType == Container && e in ContainerErrors(v.block))
  {
  }

  lemma ContainerErrorsMember(b: Block, e: ValidationError)
    ensures e in ContainerErrors(b) <==>
      || (b.dropZone.maxChildren.Some? && b.dropZone.maxChildren.value != 0 &&
          |b.children| > b.dropZone.maxChildren.value &&
          e == TooManyChildren(b.id, |b.children|, b.dropZone.maxChildren.value))
      || (b.dropZone.allowedTypes.Some? &&
          exists i :: 0 <= i < |b.children| && b.children[i].blockType !in b.dropZone.allowedTypes.value &&
            e == DisallowedChild(b.id, b.children[i].blockType))
  {
    if b.dropZone.allowedTypes.Some? {
      TypeErrorsMember(b.id, b.children, b.dropZone.allowedTypes.value, e);
    }
  }

  lemma DuplicateAt(vs: seq<Visit>, id: int, j: int)
    requires 0 <= j < |vs|
    ensures ReportedAt(vs, {}, DuplicateId(id), j) <==>
      vs[j].block.id == id && exists i :: 0 <= i < j && vs[i].block.id == id
  {
    var e := DuplicateId(id);
    VisitErrorsMember(vs[j], {} + VisitIds(vs[..j]), e);
    ContainerErrorsMember(vs[j].block, e);
    VisitIdsMember(vs[..j], id);
    assert {} + VisitIds(vs[..j]) == VisitIds(vs[..j]);
    assert forall i :: 0 <= i < j ==> vs[..j][i] == vs[i];
  }

  /** Some id occurs at two different positions of the visit list. */
  predicate VisitedTwice(vs: seq<Visit>, id: int) {
    exists i, j :: 0 <= i < j < |vs| && vs[i].block.id == id && vs[j].block.id == id
  }

  lemma DuplicateIn(vs: seq<Visit>, id: int)
    ensures DuplicateId(id) in Errors(vs, {}) <==> VisitedTwice(vs, id)
  {
    var e := DuplicateId(id);
    ErrorsMember(vs, {}, e);
    if e in Errors(vs, {}) {
      var j :| ReportedAt(vs, {}, e, j);
      DuplicateAt(vs, id, j);
    }
    if VisitedTwice(vs, id) {
      var i, j :| 0 <= i < j < |vs| && vs[i].block.id == id && vs[j].block.id == id;
      DuplicateAt(vs, id, j);
      assert ReportedAt(vs, {}, e, j);
    }
  }

  /**
   * A duplicate-id message for `id` is reported exactly when two calls of
   * `validate` are made on blocks with that id.
   */
  lemma DuplicateReported(blocks: seq<Block>, id: int)
    ensures DuplicateId(id) in TreeErrors(blocks) <==> VisitedTwice(Visits(blocks, 0), id)
  {
    DuplicateIn(Visits(blocks, 0), id);
  }

  /**
   * A too-deep message is reported for exactly the calls made deeper than
   * 10 levels, with that depth and that block's id.
   */
  lemma TooDeepReported(blocks: seq<Block>, depth: int, id: int)
    ensures TooDeep(depth, id) in TreeErrors(blocks) <==>
      depth > 10 && exists v :: v in Visits(blocks, 0) && v.depth == depth && v.block.id == id
  {
    var vs := Visits(blocks, 0);
    var e := TooDeep(depth, id);
    ErrorsMember(vs, {}, e);
    forall j | 0 <= j < |vs|
      ensures ReportedAt(vs, {}, e, j) <==> depth > 10 && vs[j].depth == depth && vs[j].block.id == id
    {
      VisitErrorsMember(vs[j], {} + VisitIds(vs[..j]), e);
      ContainerErrorsMember(vs[j].block, e);
    }
  }

  /**
   * An over-limit message is reported for exactly the visited containers
   * whose `maxChildren` is set, non-zero and smaller than their number of
   * children.
   */
  lemma LimitReported(blocks: seq<Block>, id: int, count: int, max: int)
    ensures TooManyChildren(id, count, max) in TreeErrors(blocks) <==>
      exists v :: v in Visits(blocks, 0) && v.block.blockType == Container && v.block.id == id &&
        v.block.dropZone.maxChildren == Some(max) && max != 0 && count == |v.block.children| > max
  {
    var vs := Visits(blocks, 0);
    var e := TooManyChildren(id, count, max);
    ErrorsMember(vs, {}, e);
    forall j | 0 <= j < |vs|
      ensures ReportedAt(vs, {}, e, j) <==>
        vs[j].block.blockType == Container && vs[j].block.id == id &&
        vs[j].block.dropZone.maxChildren == Some(max) && max != 0 && count == |vs[j].block.children| > max
    {
      VisitErrorsMember(vs[j], {} + VisitIds(vs[..j]), e);
      ContainerErrorsMember(vs[j].block, e);
    }
  }

  /**
   * A disallowed-type message is reported for exactly the children, of a
   * visited container that lists allowed types, whose type is not listed
   * (once per such child).
   */
  lemma DisallowedReported(blocks: seq<Block>, id: int, t: BlockType)
    ensures DisallowedChild(id, t) in TreeErrors(blocks) <==>
      exists v :: v in Visits(blocks, 0) && Disallows(v.block, id, t)
  {
    var vs := Visits(blocks, 0);
    var e := DisallowedChild(id, t);
    ErrorsMember(vs, {}, e);
    forall j | 0 <= j < |vs| ensures ReportedAt(vs, {}, e, j) <==> Disallows(vs[j].block, id, t) {
      DisallowedAt(vs, id, t, j);
    }
  }

  /** Container `b`, with id `id`, lists allowed types and has a child of type `t` not among them. */
  predicate Disallows(b: Block, id: int, t: BlockType) {
    b.blockType == Container && b.id == id && b.dropZone.allowedTypes.Some? &&
    exists c :: c in b.children && c.blockType == t && t !in b.dropZone.allowedTypes.value
  }

  lemma DisallowedAt(vs: seq<Visit>, id: int, t: BlockType, j: int)
    requires 0 <= j < |vs|
    ensures ReportedAt(vs, {}, DisallowedChild(id, t), j) <==> Disallows(vs[j].block, id, t)
  {
    var b := vs[j].block;
    VisitErrorsMember(vs[j], {} + VisitIds(vs[..j]), DisallowedChild(id, t));
    ContainerErrorsMember(b, DisallowedChild(id, t));
    if Disallows(b, id, t) {
      var c :| c in b.children && c.blockType == t && t !in b.dropZone.allowedTypes.value;
      var i :| 0 <= i < |b.children| && b.children[i] == c;
    }
  }

  /** Every call is made on a node of the forest, at least as deep as the forest's roots. */
  lemma {:induction false} VisitsAreNodes(bs: seq<Block>, depth: nat, v: Visit)
    requires v in Visits(bs, depth)
    ensures v.block in PreOrder(bs) && v.depth >= depth
    decreases bs
  {
    var below := if bs[0].blockType == Container then Visits(bs[0].children, depth + 1) else [];
    assert Visits(bs, depth) == [Visit(bs[0], depth)] + below + Visits(bs[1..], depth);
    if v in below {
      VisitsAreNodes(bs[0].children, depth + 1, v);
    } else if v in Visits(bs[1..], depth) {
      VisitsAreNodes(bs[1..], depth, v);
    }
  }

  function VisitBlock(v: Visit): Block {
    v.block
  }

  /**
   * Only CONTAINER blocks are descended into; when every block that has
   * children is a container, the walk visits exactly flattenBlockTree's
   * listing, in the same order.
   */
  lemma {:induction false} AllContainersVisitPreOrder(bs: seq<Block>, depth: nat)
    requires forall x :: x in PreOrder(bs) && x.children != [] ==> x.blockType == Container
    ensures MapSeq(Visits(bs, depth), VisitBlock) == PreOrder(bs)
    decreases bs
  {
    if bs != [] {
      var b := bs[0];
      assert PreOrder(bs) == [b] + PreOrder(b.children) + PreOrder(bs[1..]);
      AllContainersVisitPreOrder(bs[1..], depth);
      var below := if b.blockType == Container then Visits(b.children, depth + 1) else [];
      if b.blockType == Container {
        AllContainersVisitPreOrder(b.children, depth + 1);
      } else {
        assert b.children == [];
      }
      assert MapSeq(below, VisitBlock) == PreOrder(b.children);
      MapSeqAppend([Visit(b, depth)] + below, Visits(bs[1..], depth), VisitBlock);
      MapSeqAppend([Visit(b, depth)], below, VisitBlock);
    }
  }

  /** No error below a non-container: its children are never checked. */
  lemma NonContainerValid(b: Block)
    requires b.blockType != Container
    ensures TreeErrors([b]) == []
  {
    assert [b][1..] == [];
    assert Visits([b], 0) == [Visit(b, 0)];
    var vs := Visits([b], 0);
    assert vs[1..] == [];
    assert Errors(vs, {}) == VisitErrors(vs[0], {}) + Errors(vs[1..], {} + {b.id});
  }

  /** A call reports nothing exactly when each of its checks passes. */
  lemma {:induction false} ErrorsEmpty(vs: seq<Visit>, seen: set<int>)
    requires forall j :: 0 <= j < |vs| ==> VisitErrors(vs[j], seen + VisitIds(vs[..j])) == []
    ensures Errors(vs, seen) == []
  {
    if vs != [] {
      var seen' := seen + {vs[0].block.id};
      assert vs[..0] == [];
      assert seen + VisitIds(vs[..0]) == seen;
      forall j | 0 <= j < |vs[1..]|
        ensures VisitErrors(vs[1..][j], seen' + VisitIds(vs[1..][..j])) == []
      {
        assert vs[..j + 1] == [vs[0]] + vs[1..][..j];
        VisitIdsAppend([vs[0]], vs[1..][..j]);
        assert seen + VisitIds(vs[..j + 1]) == seen' + VisitIds(vs[1..][..j]);
        assert vs[1..][j] == vs[j + 1];
      }
      ErrorsEmpty(vs[1..], seen');
    }
  }

  lemma {:induction false} TypeErrorsEmpty(id: int, cs: seq<Block>, allowed: seq<BlockType>)
    requires forall c :: c in cs ==> c.blockType in allowed
    ensures TypeErrors(id, cs, allowed) == []
  {
    if cs != [] {
      var n := |cs| - 1;
      assert forall c :: c in cs[..n] ==> c in cs;
      TypeErrorsEmpty(id, cs[..n], allowed);
    }
  }

  /** A chain of `n` nested containers with ids n, n-1, ..., 1 and no drop zone. */
  function Tower(n: nat): Block
    requires n >= 1
  {
    Block(n, "", "", Container, 0, None, NoDropZone, if n == 1 then [] else [Tower(n - 1)])
  }

  /** The too-deep messages of a tower whose top is called at `depth`. */
  function DeepErrors(n: nat, depth: nat): seq<ValidationError>
    requires n >= 1
  {
    (if depth > 10 then [TooDeep(depth, n)] else []) + (if n == 1 then [] else DeepErrors(n - 1, depth + 1))
  }

  lemma {:induction false} TowerErrors(n: nat, depth: nat, seen: set<int>)
    requires n >= 1
    requires forall x :: x in seen ==> x > n
    ensures Errors(Visits([Tower(n)], depth), seen) == DeepErrors(n, depth)
  {
    var t := Tower(n);
    var below := if n == 1 then [] else Visits([Tower(n - 1)], depth + 1);
    assert [t][1..] == [];
    assert Visits([t], depth) == [Visit(t, depth)] + below;
    assert ContainerErrors(t) == [];
    assert VisitErrors(Visit(t, depth), seen) == (if depth > 10 then [TooDeep(depth, n)] else []);
    ErrorsAppend([Visit(t, depth)], below, seen);
    assert [Visit(t, depth)][1..] == [];
    if n > 1 {
      TowerErrors(n - 1, depth + 1, seen + {n});
    }
  }

  lemma {:induction false} DeepErrorsEmpty(n: nat, depth: nat)
    requires n >= 1
    ensures DeepErrors(n, depth) == [] <==> depth + n <= 11
  {
    if n > 1 {
      DeepErrorsEmpty(n - 1, depth + 1);
    }
  }

  /**
   * `depth > 10` allows eleven levels of nesting: a tower of `n` nested
   * containers is valid exactly when n <= 11.
   */
  lemma TowerValid(n: nat)
    requires n >= 1
    ensures TreeErrors([Tower(n)]) == [] <==> n <= 11
  {
    TowerErrors(n, 0, {});
    DeepErrorsEmpty(n, 0);
  }

  /** The drop zone createDefaultContainer sets up. */
  const DefaultAllowed: seq<BlockType> := [Text, Image, RichText, Link, Cta]

  /**
   * createDefaultContainer (block-utils.ts:173-227): an empty CONTAINER
   * with no parent that accepts up to ten TEXT, IMAGE, RICH_TEXT, LINK and
   * CTA children; a fresh one passes validation.
   */
  function CreateDefaultContainer(id: int, selectorId: string, positionOrder: int): (b: Block)
    ensures b.id == id && b.selectorId == selectorId && b.blockType == Container && b.positionOrder == positionOrder
    ensures b.parentBlockId.None? && b.children == []
    ensures TreeErrors([b]) == []
  {
    var b := Block(id, selectorId, "", Container, positionOrder, None, DropZone(Some(DefaultAllowed), Some(10)), []);
    assert [b][1..] == [];
    assert Visits([b], 0) == [Visit(b, 0)];
    assert ContainerErrors(b) == [];
    var vs := Visits([b], 0);
    assert vs[1..] == [];
    assert Errors(vs, {}) == VisitErrors(vs[0], {}) + Errors(vs[1..], {} + {b.id});
    b
  }

  /**
   * A default container filled with at most ten children of the allowed
   * types, with distinct ids different from its own, passes validation.
   */
  lemma DefaultContainerAccepts(id: int, selectorId: string, positionOrder: int, kids: seq<Block>)
    requires |kids| <= 10
    requires forall k :: k in kids ==> k.blockType in DefaultAllowed && k.id != id
    requires forall i, j :: 0 <= i < j < |kids| ==> kids[i].id != kids[j].id
    ensures TreeErrors([CreateDefaultContainer(id, selectorId, positionOrder).(children := kids)]) == []
  {
    var c := CreateDefaultContainer(id, selectorId, positionOrder).(children := kids);
    assert c == Block(id, selectorId, "", Container, positionOrder, None, DropZone(Some(DefaultAllowed), Some(10)), kids);
    TypeErrorsEmpty(id, kids, DefaultAllowed);
    assert LimitErrors(c) == [];
    assert ContainerErrors(c) == [];
    forall k | k in kids ensures k.blockType != Container {
      assert k.blockType in DefaultAllowed;
    }
    FlatContainerValid(c);
  }

  /** A container whose own checks pass and whose children are distinct leaves is valid. */
  lemma FlatContainerValid(c: Block)
    requires c.blockType == Container && ContainerErrors(c) == []
    requires forall k :: k in c.children ==> k.blockType != Container && k.id != c.id
    requires forall i, j :: 0 <= i < j < |c.children| ==> c.children[i].id != c.children[j].id
    ensures TreeErrors([c]) == []
  {
    var kids := c.children;
    var vs := Visits([c], 0);
    assert [c][1..] == [];
    assert Visits([c][1..], 0) == [];
    assert vs == [Visit(c, 0)] + Visits(kids, 1) + [];
    assert vs == [Visit(c, 0)] + Visits(kids, 1);
    if kids != [] {
      KidVisit(kids, 1, 0);
    }
    forall j | 0 <= j < |vs| ensures VisitErrors(vs[j], {} + VisitIds(vs[..j])) == [] {
      if j > 0 {
        KidVisitClean(c, kids, j);
      }
    }
    ErrorsEmpty(vs, {});
  }

  lemma KidVisitClean(c: Block, kids: seq<Block>, j: int)
    requires forall k :: k in kids ==> k.blockType != Container && k.id != c.id
    requires forall i, j :: 0 <= i < j < |kids| ==> kids[i].id != kids[j].id
    requires 0 < j <= |kids|
    ensures var vs := [Visit(c, 0)] + Visits(kids, 1);
      j < |vs| && VisitErrors(vs[j], {} + VisitIds(vs[..j])) == []
  {
    var vs := [Visit(c, 0)] + Visits(kids, 1);
    KidVisit(kids, 1, j - 1);
    assert vs[j] == Visit(kids[j - 1], 1);
    VisitIdsMember(vs[..j], kids[j - 1].id);
    forall i | 0 <= i < j ensures vs[..j][i].block.id != kids[j - 1].id {
      if i > 0 {
        KidVisit(kids, 1, i - 1);
        assert vs[..j][i] == Visit(kids[i - 1], 1);
      }
    }
    assert {} + VisitIds(vs[..j]) == VisitIds(vs[..j]);
  }

  /** Children that are not containers are visited one after the other. */
  lemma {:induction false} KidVisit(kids: seq<Block>, depth: nat, i: int)
    requires forall k :: k in kids ==> k.blockType != Container
    requires 0 <= i < |kids|
    ensures |Visits(kids, depth)| == |kids| && Visits(kids, depth)[i] == Visit(kids[i], depth)
  {
    assert forall k :: k in kids[1..] ==> k in kids;
    if i > 0 {
      KidVisit(kids, depth, i - 1);
      KidVisit(kids[1..], depth, i - 1);
    } else if |kids| > 1 {
      KidVisit(kids[1..], depth, 0);
    }
  }

  /** An eleventh child is reported against the limit of ten. */
  lemma DefaultContainerLimit(id: int, selectorId: string, positionOrder: int, kids: seq<Block>)
    requires |kids| > 10
    ensures TooManyChildren(id, |kids|, 10) in TreeErrors([CreateDefaultContainer(id, selectorId, positionOrder).(children := kids)])
  {
    var c := CreateDefaultContainer(id, selectorId, positionOrder).(children := kids);
    assert Visits([c], 0)[0] == Visit(c, 0);
    LimitReported([c], id, |kids|, 10);
  }

  /** How many calls are made on blocks with id `id`. */
  function Occurrences(vs: seq<Visit>, id: int): nat {
    if vs == [] then 0 else (if vs[0].block.id == id then 1 else 0) + Occurrences(vs[1..], id)
  }

  lemma ContainerNoDuplicate(b: Block, id: int)
    ensures multiset(ContainerErrors(b))[DuplicateId(id)] == 0
  {
    ContainerErrorsMember(b, DuplicateId(id));
  }

  lemma {:induction false} DuplicateCount(vs: seq<Visit>, seen: set<int>, id: int)
    ensures multiset(Errors(vs, seen))[DuplicateId(id)] ==
      if id in seen then Occurrences(vs, id)
      else if Occurrences(vs, id) == 0 then 0 else Occurrences(vs, id) - 1
  {
    if vs != [] {
      var v := vs[0];
      var seen' := seen + {v.block.id};
      DuplicateCount(vs[1..], seen', id);
      ContainerNoDuplicate(v.block, id);
      var own := VisitErrors(v, seen);
      assert multiset(own)[DuplicateId(id)] == if v.block.id == id && id in seen then 1 else 0;
      assert Errors(vs, seen) == own + Errors(vs[1..], seen');
    }
  }

  /**
   * Every call on an id already seen adds exactly one duplicate-id
   * message: a block id met n > 0 times is reported n - 1 times.
   */
  lemma DuplicateReportedOncePerRepeat(blocks: seq<Block>, id: int)
    ensures var n := Occurrences(Visits(blocks, 0), id);
      multiset(TreeErrors(blocks))[DuplicateId(id)] == if n == 0 then 0 else n - 1
  {
    DuplicateCount(Visits(blocks, 0), {}, id);
  }

  /**
   * The errors of a container's call come first: its duplicate and depth
   * messages, then its own limit and type messages, and only then those of
   * the calls on its children.
   */
  lemma ContainerErrorsFirst(c: Block, depth: nat, seen: set<int>)
    requires c.blockType == Container
    ensures Errors(Visits([c], depth), seen) ==
      (if c.id in seen then [DuplicateId(c.id)] else [])
      + (if depth > 10 then [TooDeep(depth, c.id)] else [])
      + ContainerErrors(c)
      + Errors(Visits(c.children, depth + 1), seen + {c.id})
  {
    var below := Visits(c.children, depth + 1);
    assert [c][1..] == [];
    assert Visits([c], depth) == [Visit(c, depth)] + below;
    ErrorsAppend([Visit(c, depth)], below, seen);
    assert [Visit(c, depth)][1..] == [];
    assert VisitIds([Visit(c, depth)]) == {c.id};
  }
}
