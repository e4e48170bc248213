/**
 * validateBlockTree (block-utils.ts:114-168). The nested `validate` closure
 * walks the forest in pre-order, descending only into CONTAINER blocks, and
 * shares an error list and a set of seen ids across the whole walk.
 *
 * The walk is specified independently by the list of visits it makes
 * (Visits) and the errors each visit reports (VisitErrors); the recursive
 * method threads the error list and the seen set exactly as the closure
 * does and is proved to produce Errors(Visits(...)).
 */
module Validate {
  import opened Options
  import opened Blocks
  import opened Decimal
  import opened StableSort

  /** The four messages validateBlockTree can report, before rendering. */
  datatype ValidationError =
    | DuplicateId(id: int)
    | TooDeep(depth: int, id: int)
    | TooManyChildren(id: int, count: int, max: int)
    | DisallowedChild(id: int, childType: BlockType)

  /** The `BlockType` string of each kind. */
  function TypeName(t: BlockType): string {
    match t
    case Text => "TEXT"
    case RichText => "RICH_TEXT"
    case Image => "IMAGE"
    case Link => "LINK"
    case Cta => "CTA"
    case Quote => "QUOTE"
    case LogoList => "LOGO_LIST"
    case CardList => "CARD_LIST"
    case Selector => "SELECTOR"
    case Container => "CONTAINER"
    case Video => "VIDEO"
    case HeroBanner => "HERO_BANNER"
    case CustomHtml => "CUSTOM_HTML"
  }

  /** The message text pushed onto `errors`. */
  function Message(e: ValidationError): string {
    match e
    case DuplicateId(id) => "Duplicate block ID found: " + IntToString(id)
    case TooDeep(depth, id) =>
      "Block nesting too deep (" + IntToString(depth) + " levels) for block ID: " + IntToString(id)
    case TooManyChildren(id, count, max) =>
      "Container " + IntToString(id) + " exceeds max children limit: " + IntToString(count) + " > " + IntToString(max)
    case DisallowedChild(id, t) => "Container " + IntToString(id) + " contains disallowed child type: " + TypeName(t)
  }

  /** The duplicate-id message names the id it was raised for. */
  lemma DuplicateMessageNamesId(a: int, b: int)
    requires Message(DuplicateId(a)) == Message(DuplicateId(b))
    ensures a == b
  {
    var p := "Duplicate block ID found: ";
    assert IntToString(a) == Message(DuplicateId(a))[|p|..];
    assert IntToString(b) == Message(DuplicateId(b))[|p|..];
    IntToStringInjective(a, b);
  }

  /** One call of `validate`: the block and the depth it was called with. */
  datatype Visit = Visit(block: Block, depth: nat)

  /**
   * The calls of `validate`, in order: each block, then (for a CONTAINER
   * only) the calls for its children one level deeper, then its siblings.
   */
  function Visits(bs: seq<Block>, depth: nat): seq<Visit>
    decreases bs
  {
    if bs == [] then []
    else
      [Visit(bs[0], depth)]
      + (if bs[0].blockType == Container then Visits(bs[0].children, depth + 1) else [])
      + Visits(bs[1..], depth)
  }

  /** The ids of the visited blocks, the `seenIds` the visits leave behind. */
  function VisitIds(vs: seq<Visit>): set<int> {
    if vs == [] then {} else {vs[0].block.id} + VisitIds(vs[1..])
  }

  lemma {:induction false} VisitIdsMember(vs: seq<Visit>, id: int)
    ensures id in VisitIds(vs) <==> exists i :: 0 <= i < |vs| && vs[i].block.id == id
  {
    if vs != [] {
      VisitIdsMember(vs[1..], id);
      assert forall i :: 0 < i < |vs| ==> vs[i] == vs[1..][i - 1];
    }
  }

  /** `maxChildren && block.children.length > maxChildren` */
  function LimitErrors(b: Block): seq<ValidationError> {
    match b.dropZone.maxChildren
    case Some(m) => if m != 0 && |b.children| > m then [TooManyChildren(b.id, |b.children|, m)] else []
    case None => []
  }

  /** One message per child, in order, whose type `allowed` does not include. */
  function TypeErrors(id: int, cs: seq<Block>, allowed: seq<BlockType>): seq<ValidationError> {
    if cs == [] then []
    else
      var n := |cs| - 1;
      TypeErrors(id, cs[..n], allowed) + (if cs[n].blockType in allowed then [] else [DisallowedChild(id, cs[n].blockType)])
  }

  function ContainerErrors(b: Block): seq<ValidationError> {
    LimitErrors(b) + match b.dropZone.allowedTypes
      case Some(l) => TypeErrors(b.id, b.children, l)
      case None => []
  }

  /** What one call reports, given the ids seen before it. */
  function VisitErrors(v: Visit, seen: set<int>): seq<ValidationError> {
    (if v.block.id in seen then [DuplicateId(v.block.id)] else [])
    + (if v.depth > 10 then [TooDeep(v.depth, v.block.id)] else [])
    + (if v.block.blockType == Container then ContainerErrors(v.block) else [])
  }

  function Errors(vs: seq<Visit>, seen: set<int>): seq<ValidationError> {
    if vs == [] then [] else VisitErrors(vs[0], seen) + Errors(vs[1..], seen + {vs[0].block.id})
  }

  /** Every error the whole walk reports, in order. */
  function TreeErrors(blocks: seq<Block>): seq<ValidationError> {
    Errors(Visits(blocks, 0), {})
  }

  lemma {:induction false} VisitsAppend(a: seq<Block>, b: seq<Block>, depth: nat)
    ensures Visits(a + b, depth) == Visits(a, depth) + Visits(b, depth)
  {
    if a == [] {
      assert a + b == b;
    } else {
      assert (a + b)[0] == a[0];
      assert (a + b)[1..] == a[1..] + b;
      VisitsAppend(a[1..], b, depth);
    }
  }

  lemma {:induction false} VisitIdsAppend(a: seq<Visit>, b: seq<Visit>)
    ensures VisitIds(a + b) == VisitIds(a) + VisitIds(b)
  {
    if a == [] {
      assert a + b == b;
    } else {
      assert (a + b)[0] == a[0];
      assert (a + b)[1..] == a[1..] + b;
      VisitIdsAppend(a[1..], b);
    }
  }

  lemma {:induction false} ErrorsAppend(a: seq<Visit>, b: seq<Visit>, seen: set<int>)
    ensures Errors(a + b, seen) == Errors(a, seen) + Errors(b, seen + VisitIds(a))
  {
    if a == [] {
      assert a + b == b;
      assert seen + VisitIds(a) == seen;
    } else {
      assert (a + b)[0] == a[0];
      assert (a + b)[1..] == a[1..] + b;
      ErrorsAppend(a[1..], b, seen + {a[0].block.id});
      assert seen + {a[0].block.id} + VisitIds(a[1..]) == seen + VisitIds(a);
    }
  }

  /** The CONTAINER checks of one call: the children limit, then the allowed types. */
  method CheckContainer(block: Block, errors0: seq<ValidationError>) returns (errors: seq<ValidationError>)
    ensures errors == errors0 + ContainerErrors(block)
  {
    errors := errors0;
    var maxChildren := block.dropZone.maxChildren;
    if maxChildren.Some? && maxChildren.value != 0 && |block.children| > maxChildren.value {
      errors := errors + [TooManyChildren(block.id, |block.children|, maxChildren.value)];
    }
    assert errors == errors0 + LimitErrors(block);
    var allowedTypes := block.dropZone.allowedTypes;
    if allowedTypes.Some? {
      ghost var before := errors;
      var i := 0;
      while i < |block.children|
        invariant 0 <= i <= |block.children|
        invariant errors == before + TypeErrors(block.id, block.children[..i], allowedTypes.value)
      {
        assert block.children[..i + 1][..i] == block.children[..i];
        if block.children[i].blockType !in allowedTypes.value {
          errors := errors + [DisallowedChild(block.id, block.children[i].blockType)];
        }
        i := i + 1;
      }
      assert block.children[..i] == block.children;
    }
  }

  /** The calls `validate(block, depth)` makes below itself: none unless the block is a CONTAINER. */
  function Below(block: Block, depth: nat): seq<Visit> {
    if block.blockType == Container then Visits(block.children, depth + 1) else []
  }

  /**
   * One call reports its own errors, then those of the calls below it,
   * which see its id; stated after any errors `errors0` already found.
   */
  lemma VisitOne(block: Block, depth: nat, errors0: seq<ValidationError>, seen0: set<int>)
    ensures errors0 + Errors(Visits([block], depth), seen0)
      == (errors0 + VisitErrors(Visit(block, depth), seen0)) + Errors(Below(block, depth), seen0 + {block.id})
    ensures seen0 + VisitIds(Visits([block], depth)) == (seen0 + {block.id}) + VisitIds(Below(block, depth))
  {
    assert [block][1..] == [];
    assert Visits([block], depth) == [Visit(block, depth)] + Below(block, depth);
    ErrorsAppend([Visit(block, depth)], Below(block, depth), seen0);
    VisitIdsAppend([Visit(block, depth)], Below(block, depth));
  }

  /**
   * Walking one more sibling appends its errors, computed with the ids seen
   * so far; stated after any errors `errors0` already found.
   */
  lemma VisitsSnoc(cs: seq<Block>, j: int, depth: nat, errors0: seq<ValidationError>, seen0: set<int>)
    requires 0 <= j < |cs|
    ensures var done := Visits(cs[..j], depth);
      errors0 + Errors(Visits(cs[..j + 1], depth), seen0)
      == (errors0 + Errors(done, seen0)) + Errors(Visits([cs[j]], depth), seen0 + VisitIds(done))
    ensures seen0 + VisitIds(Visits(cs[..j + 1], depth))
      == (seen0 + VisitIds(Visits(cs[..j], depth))) + VisitIds(Visits([cs[j]], depth))
  {
    assert cs[..j + 1] == cs[..j] + [cs[j]];
    VisitsAppend(cs[..j], [cs[j]], depth);
    ErrorsAppend(Visits(cs[..j], depth), Visits([cs[j]], depth), seen0);
    VisitIdsAppend(Visits(cs[..j], depth), Visits([cs[j]], depth));
  }

  /** The checks one call makes on its own block: duplicate id, depth, then the CONTAINER checks. */
  method CheckBlock(block: Block, depth: nat, errors0: seq<ValidationError>, seen0: set<int>)
    returns (errors: seq<ValidationError>)
    ensures errors == errors0 + VisitErrors(Visit(block, depth), seen0)
  {
    errors := errors0;
    if block.id in seen0 {
      errors := errors + [DuplicateId(block.id)];
    }
    if depth > 10 {
      errors := errors + [TooDeep(depth, block.id)];
    }
    if block.blockType == Container {
      errors := CheckContainer(block, errors);
    }
  }

  /** The walk below one block: the closure `validate(block, depth)`. */
  method ValidateBlock(block: Block, depth: nat, errors0: seq<ValidationError>, seen0: set<int>)
    returns (errors: seq<ValidationError>, seen: set<int>)
    ensures errors == errors0 + Errors(Visits([block], depth), seen0)
    ensures seen == seen0 + VisitIds(Visits([block], depth))
    decreases block, 1
  {
    VisitOne(block, depth, errors0, seen0);
    errors := CheckBlock(block, depth, errors0, seen0);
    seen := seen0 + {block.id};
    if block.blockType == Container {
      errors, seen := ValidateChildren(block, depth, errors, seen);
    }
  }

  /** `block.children.forEach((child) => validate(child, depth + 1))` */
  method ValidateChildren(block: Block, depth: nat, errors0: seq<ValidationError>, seen0: set<int>)
    returns (errors: seq<ValidationError>, seen: set<int>)
    ensures errors == errors0 + Errors(Visits(block.children, depth + 1), seen0)
    ensures seen == seen0 + VisitIds(Visits(block.children, depth + 1))
    decreases block, 0
  {
    errors, seen := errors0, seen0;
    var j := 0;
    while j < |block.children|
      invariant 0 <= j <= |block.children|
      invariant errors == errors0 + Errors(Visits(block.children[..j], depth + 1), seen0)
      invariant seen == seen0 + VisitIds(Visits(block.children[..j], depth + 1))
    {
      VisitsSnoc(block.children, j, depth + 1, errors0, seen0);
      errors, seen := ValidateBlock(block.children[j], depth + 1, errors, seen);
      j := j + 1;
    }
    assert block.children[..j] == block.children;
  }

  /**
   * validateBlockTree: the rendered errors of the whole walk, and
   * `isValid` exactly when there are none.
   */
  method ValidateBlockTree(blocks: seq<Block>) returns (isValid: bool, errors: seq<string>)
    ensures errors == MapSeq(TreeErrors(blocks), Message)
    ensures isValid <==> TreeErrors(blocks) == []
  {
    var found: seq<ValidationError> := [];
    var seenIds: set<int> := {};
    var i := 0;
    while i < |blocks|
      invariant 0 <= i <= |blocks|
      invariant found == Errors(Visits(blocks[..i], 0), {})
      invariant seenIds == VisitIds(Visits(blocks[..i], 0))
    {
      VisitsSnoc(blocks, i, 0, [], {});
      assert [] + found == found && {} + seenIds == seenIds;
      found, seenIds := ValidateBlock(blocks[i], 0, found, seenIds);
      i := i + 1;
    }
    assert blocks[..i] == blocks;
    isValid := |found| == 0;
    errors := MapSeq(found, Message);
  }
}
