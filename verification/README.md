# Block tree and style utilities of a page builder, in Dafny

This project models two utility modules of a page-builder front end and
proves what they promise.

**Block-tree utilities** (`src/utils/block-utils.ts`). A page is a forest
of content blocks. Each block has an id, a type, a `positionOrder`, an
optional `parentBlockId` and an optional `children` array.

- `organizeBlocksIntoTree` rebuilds the forest from `parentBlockId` alone:
  - it flattens any existing nesting;
  - it indexes copies of the blocks by id;
  - it attaches every block to the copy of its parent, or makes it a root;
  - it sorts every sibling list, and the root list, by `positionOrder`.
- `flattenBlockTree`, `findBlockById` and `getAllChildBlocks` are pre-order
  traversals.
- `validateBlockTree` walks the forest and collects four kinds of error:
  - duplicate ids;
  - nesting deeper than 10;
  - a container over its `maxChildren`;
  - a child type a container does not allow.
- `createDefaultContainer` builds an empty container.

**Style utilities** (`src/utils/style-utils.ts`).

- `generateStylesFromData` turns a grouped style record into a flat record
  of CSS properties. The groups are layout, typography, background,
  border, effects, flex and grid.
- `getResponsiveStyles`, `matchesBreakpoint` and `getMergedStyles` overlay
  the record of the breakpoint the viewport width falls in.
- `camelToKebab` and `stylesToCSS` serialise a record as a CSS declaration
  list.

## How the model is laid out

| file | module | what it holds |
|---|---|---|
| options.dfy | Options | `Option` |
| blocks.dfy | Blocks | `Block`, pre-order, the three traversals |
| sort.dfy | StableSort | the stable sort that `Array.prototype.sort` performs, and its uniqueness |
| organize.dfy | Organize | organizeBlocksIntoTree: the flatten, index and link passes as loops, then the sort |
| organize_shape.dfy | OrganizeShape | what the result looks like, for any input and for unique ids |
| organize_total.dfy | OrganizeTotal | with unique ids the function always returns |
| organize_once.dfy | OrganizeOnce | with unique ids every grounded block appears exactly once, and organizing is idempotent |
| organize_drop.dfy | OrganizeDrop | which blocks are silently dropped |
| organize_cut.dfy | OrganizeCut | the duplicate-id defect and its corrected reading |
| decimal.dfy | Decimal | `toString()` of an integer, with its inverse |
| validate.dfy | Validate | validateBlockTree, as a recursive walk that threads the error list and the seen-id set |
| validate_facts.dfy | ValidateFacts | what each error means; createDefaultContainer |
| style_map.dfy | StyleMap | a `Record<string, string>` as an insertion-ordered association list; assignment and `{ ...a, ...b }` |
| style_data.dfy | StyleGen | the style groups, the field tables, generateStylesFromData |
| style_facts.dfy | StyleFacts | which key each field writes, and which group wins a shared key |
| responsive.dfy | Breakpoints | breakpoints, getResponsiveStyles, getMergedStyles |
| css.dfy | Css | camelToKebab, stylesToCSS, and reading the CSS text back |

**The walk of `validate`.** It is specified by two things:

- the list of calls it makes (`Visits`): each block, then the children of
  a CONTAINER one level deeper;
- what each call reports, given the ids seen before it (`VisitErrors`).

The recursive methods thread the error list and the seen-id set exactly as
the closure does. They are proved to produce that specification.

**Sharing in `organizeBlocksIntoTree`.** The source shares one working copy
per id between every place that refers to it. The model keeps this sharing
as link tables keyed by id:

- `kids[p]` is the children array of the copy with id `p`;
- `roots` is `rootBlocks`.

So every occurrence of a duplicate id attaches the same copy, as in the
source. Sorting and reading off the tree (`Build`) returns `None` when it
meets an id already on its own recursion path. That is where the source's
recursive `sortChildren` never ends.

**Property keys.** generateStylesFromData can only write a fixed set of CSS
property names. The model uses that set as an enumeration, `Property`, and
`Name` spells each one as the source does.

- The 76 conditional assignments of the source, behind seven group
  guards, are kept in source order as seven field tables.
- `GenerateStylesFromData` applies the tables one entry at a time in a
  loop.
- `stylesToCSS` takes any record with string keys.

## Model

| member | source | states |
|---|---|---|
| Blocks.FlattenBlockTree | src/utils/block-utils.ts:65-77 | the result is the pre-order listing of the forest: its length is the number of nodes, and it holds exactly the nodes of the forest |
| Blocks.PushPreOrder | src/utils/block-utils.ts:68-73 | the nested `flatten` appends the block, then its descendants in pre-order, to what was already collected |
| Blocks.PreOrderNodes | src/utils/block-utils.ts:65-77 | the pre-order listing has one entry per node, and an element is in it exactly when it is a node of the forest |
| Blocks.GetAllChildBlocks | src/utils/block-utils.ts:98-109 | the result is the pre-order listing of the block's children, that is, the block's own flattening without the block itself |
| Blocks.FindBlockById | src/utils/block-utils.ts:82-93 | None exactly when no node has the id; otherwise the first node in pre-order with that id |
| StableSort.SortBy | src/utils/block-utils.ts:51 | the sort by `positionOrder` gives a non-decreasing permutation, and blocks with equal position keep their input order |
| StableSort.StableSortUnique | src/utils/block-utils.ts:51 | any sorted permutation that keeps the order of equal keys equals SortBy, so the model's insertion sort stands for any stable sort |
| StableSort.SortByMember | src/utils/block-utils.ts:51 | sorting neither adds nor loses an element |
| StableSort.SortSorted | src/utils/block-utils.ts:51 | sorting an already sorted list changes nothing |
| Organize.FlattenBlock | src/utils/block-utils.ts:11-21 | flattenBlock appends a childless copy of the block, then of each descendant in pre-order |
| Organize.IndexBlocks | src/utils/block-utils.ts:26-32 | the first pass maps each id to a childless copy of its LAST occurrence, with an empty children array |
| Organize.LinkBlocks | src/utils/block-utils.ts:35-46 | the second pass pushes each block, in flattened order, onto the children array of its parent's copy when the parent id is non-zero and indexed, and onto the root list otherwise |
| Organize.OrganizeBlocksIntoTree | src/utils/block-utils.ts:7-60 | the method's result equals OrganizeTree: flatten, index, link, then sort every children list and the root list |
| Organize.IndexKeys | src/utils/block-utils.ts:30-32 | an id is indexed exactly when some flattened block has it, and the indexed copy is a flattened block with that id |
| OrganizeShape.IndexLastWins | src/utils/block-utils.ts:30-32 | with duplicate ids the index keeps the later copy |
| OrganizeShape.OrganizeResult | src/utils/block-utils.ts:35-59 | whenever it returns: the root ids are the blocks with no resolvable parent, stably sorted by position; every node is the indexed copy for its id; its children are the blocks attached to it in flattened order, stably sorted; every list is in non-decreasing position |
| OrganizeShape.ParentInIndex | src/utils/block-utils.ts:38 | a block is attached exactly when its parent id is present, non-zero and names a block of the input |
| OrganizeShape.OrganizeRootsUnique | src/utils/block-utils.ts:38-45 | with unique ids, no root has a resolvable parent: its parent id is absent, 0, or names no block of the input |
| OrganizeShape.OrganizeChildrenUnique | src/utils/block-utils.ts:38-41 | with unique ids, every child's `parentBlockId` names the node it hangs under |
| OrganizeShape.OrganizeCompleteUnique | src/utils/block-utils.ts:35-46 | with unique ids nothing attachable is lost: every parentless block is a root, and every block naming a node of the tree is one of its children |
| OrganizeTotal.OrganizeTotalUnique | src/utils/block-utils.ts:49-56 | with unique ids, `sortChildren` always terminates, so the function returns |
| OrganizeOnce.OrganizeOnceUnique | src/utils/block-utils.ts:35-59 | with unique ids no id appears twice anywhere in the result, and the chain of parent links of every node ends at a root |
| OrganizeOnce.OrganizeExactlyOnce | src/utils/block-utils.ts:7-60 | with unique ids a block of the input appears in the result exactly when its chain of parent links ends at a root, and then only once |
| OrganizeOnce.OrganizeIdempotentUnique | src/utils/block-utils.ts:7-60 | with unique ids organizing the result again gives the same tree |
| OrganizeOnce.ForestUnique | src/utils/block-utils.ts:49-56 | a forest whose children hang under the node their parent link names and whose sibling lists repeat no id repeats no id anywhere |
| OrganizeOnce.GroundedUnique | src/utils/block-utils.ts:38-41 | the number of parent links from an id to a root is unique |
| OrganizeDrop.UngroundedDropped | src/utils/block-utils.ts:35-46 | with unique ids, no block in a set that is closed under "has a resolvable parent in the set" ever appears in the tree; a parent cycle is such a set |
| OrganizeDrop.SelfParentDropped | src/utils/block-utils.ts:38-41 | with unique ids, a block that names itself as its parent is dropped |
| OrganizeDrop.NodeSource | src/utils/block-utils.ts:13-31 | every node of the result carries the id and parent id of an input block |
| OrganizeCut.DuplicateIdNeverReturns | src/utils/block-utils.ts:31-56 | the two blocks `{id 5, no parent}` and `{id 5, parent 5}` make the shared copy its own child, so `sortChildren` never returns; the corrected reading returns the later copy, childless |
| OrganizeCut.OrganizeTreeCut | src/utils/block-utils.ts:49-59 | the corrected reading always returns a finite tree with no id repeated along a path, and it equals the source's result whenever that exists |
| Validate.CheckContainer | src/utils/block-utils.ts:136-154 | a container's own checks append the over-limit error when `maxChildren` is set, non-zero and exceeded, then one disallowed-type error per child whose type is not allowed, in child order |
| Validate.CheckBlock | src/utils/block-utils.ts:120-154 | the checks of one call on its own block append the duplicate-id error when the id was seen, the depth error beyond depth 10, then the CONTAINER checks |
| Validate.ValidateBlock | src/utils/block-utils.ts:118-160 | one call of `validate` appends the errors of its whole subtree walk and adds every visited id to the seen set |
| Validate.ValidateChildren | src/utils/block-utils.ts:157 | the children are validated one after the other, one level deeper |
| Validate.ValidateBlockTree | src/utils/block-utils.ts:114-168 | `errors` is the rendered list of every error of the walk, in order, and `isValid` holds exactly when there is none |
| Validate.DuplicateMessageNamesId | src/utils/block-utils.ts:121 | two duplicate-id messages are equal only when they name the same id |
| ValidateFacts.DuplicateReported | src/utils/block-utils.ts:120-123 | a duplicate-id error for an id is reported exactly when two calls are made on blocks with that id |
| ValidateFacts.DuplicateReportedOncePerRepeat | src/utils/block-utils.ts:120-123 | an id met n > 0 times produces exactly n - 1 duplicate-id errors |
| ValidateFacts.TooDeepReported | src/utils/block-utils.ts:126-128 | a depth error is reported exactly for the calls deeper than 10 |
| ValidateFacts.LimitReported | src/utils/block-utils.ts:137-142 | an over-limit error is reported exactly for the visited containers whose `maxChildren` is set, non-zero and below their child count |
| ValidateFacts.DisallowedReported | src/utils/block-utils.ts:145-154 | a disallowed-type error is reported exactly for a child, of a visited container with an allowed list, whose type that list does not include |
| ValidateFacts.ContainerErrorsFirst | src/utils/block-utils.ts:118-158 | a container's call reports its duplicate and depth errors, then its own limit and type errors, and only then its children's errors |
| ValidateFacts.VisitsAreNodes | src/utils/block-utils.ts:118-162 | every call is made on a node of the forest, at depth at least that of its root |
| ValidateFacts.AllContainersVisitPreOrder | src/utils/block-utils.ts:131-158 | only containers are descended into; when every block with children is a container, the walk visits exactly the pre-order listing |
| ValidateFacts.NonContainerValid | src/utils/block-utils.ts:131 | a single non-container block is valid whatever its children |
| ValidateFacts.TowerValid | src/utils/block-utils.ts:126 | a chain of n nested containers is valid exactly when n <= 11, so that the deepest sits at depth 10 at most |
| ValidateFacts.TowerErrors | src/utils/block-utils.ts:126-128 | in a chain of containers, exactly the levels deeper than 10 report depth errors |
| ValidateFacts.CreateDefaultContainer | src/utils/block-utils.ts:173-227 | createDefaultContainer gives a childless, parentless CONTAINER with the given id, selector id and position, and it passes validation |
| ValidateFacts.DefaultContainerAccepts | src/utils/block-utils.ts:205-209 | the default container accepts up to ten children of its allowed types, when their ids are distinct from each other and from its own |
| ValidateFacts.DefaultContainerLimit | src/utils/block-utils.ts:208 | an eleventh child is reported against the limit of ten |
| Decimal.IntToString | src/utils/style-utils.ts:26 | the decimal rendering is non-empty and starts with `-` exactly for negative numbers |
| Decimal.ParseIntToString | src/utils/style-utils.ts:26 | the decimal rendering reads back as the same integer |
| StyleMap.Get | src/utils/style-utils.ts:7 | a key reads a value exactly when it is in the record, and that value is an entry of the record |
| StyleMap.PutGet | src/utils/style-utils.ts:12 | after `styles[k] = v`, `k` reads `v` and every other key reads as before |
| StyleMap.PutKeys | src/utils/style-utils.ts:12 | assignment keeps an existing key in place and appends a new one |
| StyleMap.SpreadGet | src/utils/style-utils.ts:163 | in `{ ...a, ...b }` a key reads b's value when b has it, and a's otherwise |
| StyleMap.SpreadKeys | src/utils/style-utils.ts:163 | `{ ...a, ...b }` keeps a's keys in order and appends b's new keys in b's order |
| StyleMap.SpreadDistinct | src/utils/style-utils.ts:163 | a spread never repeats a key |
| StyleMap.SpreadFreshKeys | src/utils/style-utils.ts:163 | spreading keys new to a record appends them |
| StyleGen.ApplyProps | src/utils/style-utils.ts:10-118 | one group's assignments, applied in order, each only when its field is truthy |
| StyleGen.GenerateStylesFromData | src/utils/style-utils.ts:6-121 | the method applies the groups in source order, each only when present, and yields Generate |
| StyleGen.AssignAppend | src/utils/style-utils.ts:6-121 | applying two runs of assignments one after the other equals applying them together |
| StyleFacts.GenerateGet | src/utils/style-utils.ts:6-121 | a key is in the result exactly when some truthy field writes it; it holds what the last such field renders; no key repeats |
| StyleFacts.GenerateEmpty | src/utils/style-utils.ts:6-121 | the result is empty exactly when no field of a present group is truthy |
| StyleFacts.EmptyGeneratesNothing | src/utils/style-utils.ts:6-121 | an empty style record gives an empty record |
| StyleFacts.GenerateIgnoresOverrides | src/utils/style-utils.ts:6-121 | `responsive` and `customCSS` are never read |
| StyleFacts.LastValueWrites | src/utils/style-utils.ts:6-121 | a key has a last value exactly when some truthy field writes it |
| StyleFacts.AssignGet | src/utils/style-utils.ts:6-121 | after the assignments the last write to a key wins, and keys nobody writes are untouched |
| StyleFacts.FieldsLastValue | src/utils/style-utils.ts:6-121 | the last write to a key comes from the last group, in source order, that writes it |
| StyleFacts.TextAlignPrecedence | src/utils/style-utils.ts:27-41 | `textAlign` is typography's when that is truthy, else layout's, else absent |
| StyleFacts.TextShadowPrecedence | src/utils/style-utils.ts:45-83 | `textShadow` is effects' when that is truthy, else typography's, else absent |
| StyleFacts.GapPrecedence | src/utils/style-utils.ts:102-113 | `gap` is grid's when truthy, else flex's, else absent |
| StyleFacts.AlignItemsPrecedence | src/utils/style-utils.ts:99-114 | `alignItems` is grid's when truthy, else flex's, else absent |
| StyleFacts.JustifyContentPrecedence | src/utils/style-utils.ts:98-116 | `justifyContent` is grid's when truthy, else flex's, else absent |
| StyleFacts.AlignContentPrecedence | src/utils/style-utils.ts:100-117 | `alignContent` is grid's when truthy, else flex's, else absent |
| StyleFacts.BackgroundColorWritten | src/utils/style-utils.ts:53 | `backgroundColor` holds the background color exactly when that is non-empty, whatever the gradient |
| StyleFacts.BackgroundImageWritten | src/utils/style-utils.ts:54 | `backgroundImage` holds `url(<image>)` exactly when the image is non-empty |
| StyleFacts.BackgroundWritten | src/utils/style-utils.ts:59 | the gradient goes to `background`, not to `backgroundColor` |
| StyleFacts.ZIndexWritten | src/utils/style-utils.ts:26 | `zIndex` holds the decimal rendering of a non-zero zIndex; 0 is skipped |
| StyleFacts.OpacityWritten | src/utils/style-utils.ts:84 | `opacity` holds the number's rendering unless it is 0 or NaN, which are skipped |
| StyleFacts.FieldsFlexGrid | src/utils/style-utils.ts:95-118 | a key only flex and grid write is decided by those two groups, grid last |
| Breakpoints.ExactlyOneMatches | src/utils/style-utils.ts:140-153 | a breakpoint matches a width exactly when it is the active one: mobile up to 768, tablet 769 to 1024, desktop above |
| Breakpoints.ActiveMonotone | src/utils/style-utils.ts:140-153 | a wider viewport never selects a smaller breakpoint |
| Breakpoints.GetResponsiveStyles | src/utils/style-utils.ts:126-135 | `{}` when the responsive record or the breakpoint's override is absent, otherwise the record generated from that override |
| Breakpoints.GetMergedStyles | src/utils/style-utils.ts:158-171 | the method's result is the base record overlaid with the active breakpoint's generated record |
| Breakpoints.MergedGet | src/utils/style-utils.ts:158-171 | a key reads the override's value when the active override writes it, and the base value otherwise |
| Breakpoints.MergedKeys | src/utils/style-utils.ts:158-171 | the merged record keeps the base keys in place, appends the override's new keys, and repeats none |
| Breakpoints.MergedWithoutOverride | src/utils/style-utils.ts:162-168 | with no override for the active breakpoint, the result is the base record |
| Breakpoints.LargeDesktopUnused | src/utils/style-utils.ts:158-171 | the `largeDesktop` override never affects the result |
| Breakpoints.InactiveOverrideUnused | src/utils/style-utils.ts:162-168 | changing the override of a breakpoint that does not match changes nothing |
| Css.CamelToKebabChars | src/utils/style-utils.ts:176-178 | the regular-expression scan puts a dash before every ASCII upper-case letter, whichever alternative matches it, and the lower-casing then turns it into its lower-case form |
| Css.HyphenateDashes | src/utils/style-utils.ts:177 | the replacement inserts a dash before each upper-case letter and changes nothing else |
| Css.CamelToKebabShape | src/utils/style-utils.ts:176-178 | the result has no ASCII upper-case letter, is one character longer per upper-case letter, and keeps every character that is not a letter or a dash |
| Css.CamelToKebabRoundTrip | src/utils/style-utils.ts:176-178 | a name without dashes is recovered from its kebab-case form |
| Css.CamelToKebabInjective | src/utils/style-utils.ts:176-178 | distinct names without dashes never collide |
| Css.StylesToCssEmpty | src/utils/style-utils.ts:183-187 | the CSS text is empty exactly when the record is |
| Css.StylesToCssLength | src/utils/style-utils.ts:183-187 | n declarations are joined by n - 1 two-character separators |
| Css.StylesToCssSnoc | src/utils/style-utils.ts:183-187 | one more entry adds `; ` and its `name: value` declaration at the end |
| Css.StylesToCssRoundTrip | src/utils/style-utils.ts:183-187 | the CSS text reads back as the same record, entry by entry and in order, when no name holds a dash, colon or semicolon and no value holds a semicolon |

## Left out

- Everything the utilities copy but never read is one opaque field,
  `payload`: content, style and settings payloads, authors and
  timestamps.
- An absent `children` array is modelled as the empty sequence. The two
  differ in one case only: a CONTAINER without a `children` array and with
  a negative `maxChildren`. The source skips that container's checks; the
  model reports the limit error.
- `maxChildren`, `zIndex` and `positionOrder` are integers. Fractional or
  NaN values are not modelled.
- The `toString()` of `opacity`, `lineHeight` and `fontWeight`, which may
  be fractional, is not modelled. Each such number is known by its
  rendering (`Number.text`), and it is falsy exactly when that rendering
  is `0` or `NaN`.
- `toLowerCase()` on characters outside ASCII is not modelled: only `A`-`Z`
  have a case.
- The `window.innerWidth` read is not modelled: the width is a parameter.
- `Date.now()` in createDefaultContainer is not modelled, and neither are
  its content, style and settings payloads beyond the drop zone.
- applyAnimationEffects and debounce (DOM element styles and timers) are
  not part of this model.
- The type declarations under `src/types` and the router are not part of
  this model. They carry no behaviour.
- Errors are built as values and rendered by `Message` at the end. The
  source renders each message when it pushes it; the texts are the same
  as long as ids and limits are safe integers (see the next line).
- Decimal.IntToString: renders every digit of an unbounded integer.
  JavaScript's template literals and `toString()` agree with it only for
  safe integers (magnitude below 2^53); from 1e21 on JavaScript switches
  to exponent form. Ids, `maxChildren` and `zIndex` are assumed to be safe
  integers.
- Css.StylesToCssRoundTrip requires names without dashes, colons or
  semicolons and values without semicolons. Other records can produce the
  same text, so no inverse exists for them.

## Findings

| source | as written | input that shows it | evidently intended | confidence | as-written member | corrected member |
|---|---|---|---|---|---|---|
| src/utils/block-utils.ts:31-56 | `blockMap` keeps one shared copy per id, and every occurrence of that id attaches the copy under its parent. When a duplicated id names itself, directly or through another block, the copy becomes its own descendant, and the recursive `sortChildren` never returns. | `[{id: 5, parentBlockId: null}, {id: 5, parentBlockId: 5}]` | a finite tree, for example cutting the repeated id on each path (the later copy, childless) | not executed | OrganizeCut.DuplicateIdNeverReturns | OrganizeCut.OrganizeTreeCut |
