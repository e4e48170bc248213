/**
 * What generateStylesFromData promises about its result: which keys it
 * writes, the value each key ends up with, and which group wins when two
 * groups write the same key.
 */
module StyleFacts {
  import opened Options
  import opened StyleMap
  import opened Decimal
  import opened StyleGen

  /** The value the last truthy entry for `k` renders, if any entry for `k` is truthy. */
  function LastValue(ps: seq<Prop>, k: Property): Option<string> {
    if ps == [] then None
    else
      var p := ps[|ps| - 1];
      if p.key == k && Truthy(p.field) then Some(Render(p.field))
      else LastValue(ps[..|ps| - 1], k)
  }

  /** Some entry writes `k`. */
  predicate Writes(ps: seq<Prop>, k: Property) {
    exists i :: 0 <= i < |ps| && ps[i].key == k && Truthy(ps[i].field)
  }

  /** No entry names `k`. */
  predicate Lacks(ps: seq<Prop>, k: Property) {
    forall p :: p in ps ==> p.key != k
  }

  lemma {:induction false} LastValueWrites(ps: seq<Prop>, k: Property)
    ensures LastValue(ps, k).Some? <==> Writes(ps, k)
  {
    if ps != [] {
      var n := |ps| - 1;
      LastValueWrites(ps[..n], k);
      if Writes(ps, k) && !(ps[n].key == k && Truthy(ps[n].field)) {
        var i :| 0 <= i < |ps| && ps[i].key == k && Truthy(ps[i].field);
        assert ps[..n][i] == ps[i];
      }
      if Writes(ps[..n], k) {
        var i :| 0 <= i < n && ps[..n][i].key == k && Truthy(ps[..n][i].field);
        assert ps[i] == ps[..n][i];
      }
    }
  }

  /** Looking a key up after the assignments: the last write wins, the rest is untouched. */
  lemma {:induction false} AssignGet(m: CssRecord, ps: seq<Prop>, k: Property)
    ensures Get(Assign(m, ps), k) == if LastValue(ps, k).Some? then LastValue(ps, k) else Get(m, k)
  {
    if ps != [] {
      var n := |ps| - 1;
      AssignGet(m, ps[..n], k);
      if Truthy(ps[n].field) {
        PutGet(Assign(m, ps[..n]), ps[n].key, Render(ps[n].field), k);
      }
    }
  }

  lemma {:induction false} AssignDistinct(m: CssRecord, ps: seq<Prop>)
    requires Distinct(Keys(m))
    ensures Distinct(Keys(Assign(m, ps)))
  {
    if ps != [] {
      var n := |ps| - 1;
      AssignDistinct(m, ps[..n]);
      if Truthy(ps[n].field) {
        PutDistinct(Assign(m, ps[..n]), ps[n].key, Render(ps[n].field));
      }
    }
  }

  lemma {:induction false} LastValueAppend(a: seq<Prop>, b: seq<Prop>, k: Property)
    ensures LastValue(a + b, k) == if LastValue(b, k).Some? then LastValue(b, k) else LastValue(a, k)
    decreases |b|
  {
    if b == [] {
      assert a + b == a;
    } else {
      var n := |b| - 1;
      assert (a + b)[..|a + b| - 1] == a + b[..n];
      assert (a + b)[|a + b| - 1] == b[n];
      LastValueAppend(a, b[..n], k);
    }
  }

  lemma {:induction false} LastValueLacks(ps: seq<Prop>, k: Property)
    requires Lacks(ps, k)
    ensures LastValue(ps, k) == None
  {
    if ps != [] {
      var n := |ps| - 1;
      assert ps[n] in ps;
      assert forall p :: p in ps[..n] ==> p in ps;
      LastValueLacks(ps[..n], k);
    }
  }

  /**
   * The generated record: every key that some truthy field writes, each
   * once, holding what the last such field renders, and no other key.
   */
  lemma GenerateGet(sd: StyleData, k: Property)
    ensures Get(Generate(sd), k) == LastValue(Fields(sd), k)
    ensures k in Keys(Generate(sd)) <==> Writes(Fields(sd), k)
    ensures Distinct(Keys(Generate(sd)))
  {
    AssignGet([], Fields(sd), k);
    LastValueWrites(Fields(sd), k);
    AssignDistinct([], Fields(sd));
  }

  /** The result is empty exactly when no field of a present group is truthy. */
  lemma GenerateEmpty(sd: StyleData)
    ensures Generate(sd) == [] <==> forall p :: p in Fields(sd) ==> !Truthy(p.field)
  {
    var fs := Fields(sd);
    if Generate(sd) == [] {
      forall p | p in fs ensures !Truthy(p.field) {
        var i :| 0 <= i < |fs| && fs[i] == p;
        if Truthy(p.field) {
          GenerateGet(sd, p.key);
          assert Writes(fs, p.key);
          assert false;
        }
      }
    } else {
      var k := Keys(Generate(sd))[0];
      GenerateGet(sd, k);
      var i :| 0 <= i < |fs| && fs[i].key == k && Truthy(fs[i].field);
      assert fs[i] in fs;
    }
  }

  /** An empty style record generates an empty record. */
  lemma EmptyGeneratesNothing()
    ensures Generate(EmptyStyleData) == []
  {
    GenerateEmpty(EmptyStyleData);
  }

  /** `responsive` and `customCSS` are never read. */
  lemma GenerateIgnoresOverrides(sd: StyleData, r: Option<Responsive>, css: Option<string>)
    ensures Generate(sd.(responsive := r, customCSS := css)) == Generate(sd)
  {
    assert Fields(sd.(responsive := r, customCSS := css)) == Fields(sd);
  }

  lemma {:induction false} LastValueAt(ps: seq<Prop>, i: int, k: Property)
    requires 0 <= i < |ps| && ps[i].key == k
    requires forall j :: 0 <= j < |ps| && j != i ==> ps[j].key != k
    ensures LastValue(ps, k) == Emit(ps[i].field)
  {
    var n := |ps| - 1;
    if i < n {
      LastValueAt(ps[..n], i, k);
    } else {
      assert forall p :: p in ps[..n] ==> p.key != k;
      LastValueLacks(ps[..n], k);
    }
  }

  /** `a` unless it is None, then `b`: the later of two writers of one key. */
  function Or(a: Option<string>, b: Option<string>): Option<string> {
    if a.Some? then a else b
  }

  /** The last write to `k` comes from the last group that writes it. */
  lemma FieldsLastValue(sd: StyleData, k: Property)
    ensures LastValue(Fields(sd), k) ==
      Or(LastValue(GridGroup(sd), k), Or(LastValue(FlexGroup(sd), k),
      Or(LastValue(EffectsGroup(sd), k), Or(LastValue(BorderGroup(sd), k),
      Or(LastValue(BackgroundGroup(sd), k), Or(LastValue(TypographyGroup(sd), k),
      LastValue(LayoutGroup(sd), k)))))))
  {
    var l, t, bg, bd := LayoutGroup(sd), TypographyGroup(sd), BackgroundGroup(sd), BorderGroup(sd);
    var e, f, g := EffectsGroup(sd), FlexGroup(sd), GridGroup(sd);
    LastValueAppend(l + t + bg + bd + e + f, g, k);
    LastValueAppend(l + t + bg + bd + e, f, k);
    LastValueAppend(l + t + bg + bd, e, k);
    LastValueAppend(l + t + bg, bd, k);
    LastValueAppend(l + t, bg, k);
    LastValueAppend(l, t, k);
  }

  /** `ps` names, entry by entry, the keys of `keys`. */
  predicate Keyed(ps: seq<Prop>, keys: seq<Property>) {
    |ps| == |keys| && forall i :: 0 <= i < |ps| ==> ps[i].key == keys[i]
  }

  /** The keys each group table names, in the order of its assignments. */
  const LayoutKeys: seq<Property> :=
    [Width, Height, MinWidth, MaxWidth, MinHeight, MaxHeight, Margin, Padding,
     Display, Position, Top, Right, Bottom, Left, ZIndex, TextAlign,
     GridColumn, GridRow]

  const TypographyKeys: seq<Property> :=
    [FontSize, FontWeight, FontFamily, FontStyle, LineHeight, LetterSpacing,
     TextAlign, TextDecoration, TextTransform, Color, TextShadow, WhiteSpace,
     WordBreak]

  const BackgroundKeys: seq<Property> :=
    [BackgroundColor, BackgroundImage, BackgroundSize, BackgroundPosition,
     BackgroundRepeat, BackgroundAttachment, Background]

  const BorderKeys: seq<Property> :=
    [BorderWidth, BorderStyle, BorderColor, BorderRadius, BorderTopWidth,
     BorderRightWidth, BorderBottomWidth, BorderLeftWidth, BorderTopLeftRadius,
     BorderTopRightRadius, BorderBottomLeftRadius, BorderBottomRightRadius]

  const EffectsKeys: seq<Property> :=
    [BoxShadow, TextShadow, Opacity, Transform, TransformOrigin, Filter,
     BackdropFilter, Transition, Cursor, ObjectFit]

  const FlexKeys: seq<Property> :=
    [FlexDirection, JustifyContent, AlignItems, AlignContent, FlexWrap, Gap]

  const GridKeys: seq<Property> :=
    [GridTemplateColumns, GridTemplateRows, GridGap, GridColumnGap, GridRowGap,
     Gap, AlignItems, JustifyItems, JustifyContent, AlignContent]

  /** Every group present names its table's keys. */
  lemma LayoutKeyed(sd: StyleData)
    ensures LayoutGroup(sd) == [] || Keyed(LayoutGroup(sd), LayoutKeys)
  {
  }

  lemma TypographyKeyed(sd: StyleData)
    ensures TypographyGroup(sd) == [] || Keyed(TypographyGroup(sd), TypographyKeys)
  {
  }

  lemma BackgroundKeyed(sd: StyleData)
    ensures BackgroundGroup(sd) == [] || Keyed(BackgroundGroup(sd), BackgroundKeys)
  {
  }

  lemma BorderKeyed(sd: StyleData)
    ensures BorderGroup(sd) == [] || Keyed(BorderGroup(sd), BorderKeys)
  {
  }

  lemma EffectsKeyed(sd: StyleData)
    ensures EffectsGroup(sd) == [] || Keyed(EffectsGroup(sd), EffectsKeys)
  {
  }

  lemma FlexKeyed(sd: StyleData)
    ensures FlexGroup(sd) == [] || Keyed(FlexGroup(sd), FlexKeys)
  {
  }

  lemma GridKeyed(sd: StyleData)
    ensures GridGroup(sd) == [] || Keyed(GridGroup(sd), GridKeys)
  {
  }

  /** A group that does not name `k` leaves it alone. */
  lemma GroupLacks(group: seq<Prop>, keys: seq<Property>, k: Property)
    requires group == [] || Keyed(group, keys)
    requires k !in keys
    ensures LastValue(group, k) == None
  {
    if group != [] {
      forall p | p in group ensures p.key != k {
        var i :| 0 <= i < |group| && group[i] == p;
        assert keys[i] in keys;
      }
      LastValueLacks(group, k);
    }
  }

  /** A group that names `k` once, as its `i`th entry, gives `k` what that entry emits. */
  lemma GroupAt(group: seq<Prop>, keys: seq<Property>, i: int)
    requires Keyed(group, keys) && 0 <= i < |keys|
    requires forall j :: 0 <= j < |keys| && j != i ==> keys[j] != keys[i]
    ensures LastValue(group, keys[i]) == Emit(group[i].field)
  {
    LastValueAt(group, i, keys[i]);
  }

  /** The groups that do not name a property leave it alone. */
  lemma LayoutLacks(sd: StyleData, k: Property)
    requires k !in LayoutKeys
    ensures LastValue(LayoutGroup(sd), k) == None
  {
    LayoutKeyed(sd);
    GroupLacks(LayoutGroup(sd), LayoutKeys, k);
  }

  lemma TypographyLacks(sd: StyleData, k: Property)
    requires k !in TypographyKeys
    ensures LastValue(TypographyGroup(sd), k) == None
  {
    TypographyKeyed(sd);
    GroupLacks(TypographyGroup(sd), TypographyKeys, k);
  }

  lemma BackgroundLacks(sd: StyleData, k: Property)
    requires k !in BackgroundKeys
    ensures LastValue(BackgroundGroup(sd), k) == None
  {
    BackgroundKeyed(sd);
    GroupLacks(BackgroundGroup(sd), BackgroundKeys, k);
  }

  lemma BorderLacks(sd: StyleData, k: Property)
    requires k !in BorderKeys
    ensures LastValue(BorderGroup(sd), k) == None
  {
    BorderKeyed(sd);
    GroupLacks(BorderGroup(sd), BorderKeys, k);
  }

  lemma EffectsLacks(sd: StyleData, k: Property)
    requires k !in EffectsKeys
    ensures LastValue(EffectsGroup(sd), k) == None
  {
    EffectsKeyed(sd);
    GroupLacks(EffectsGroup(sd), EffectsKeys, k);
  }

  lemma FlexLacks(sd: StyleData, k: Property)
    requires k !in FlexKeys
    ensures LastValue(FlexGroup(sd), k) == None
  {
    FlexKeyed(sd);
    GroupLacks(FlexGroup(sd), FlexKeys, k);
  }

  lemma GridLacks(sd: StyleData, k: Property)
    requires k !in GridKeys
    ensures LastValue(GridGroup(sd), k) == None
  {
    GridKeyed(sd);
    GroupLacks(GridGroup(sd), GridKeys, k);
  }

  lemma LayoutGivesTextAlign(sd: StyleData)
    ensures LastValue(LayoutGroup(sd), TextAlign) ==
      if sd.layout.Some? then Emit(Plain(sd.layout.value.textAlign)) else None
  {
    if sd.layout.Some? {
      LayoutKeyed(sd);
      GroupAt(LayoutGroup(sd), LayoutKeys, 15);
    }
  }

  lemma TypographyGivesTextAlign(sd: StyleData)
    ensures LastValue(TypographyGroup(sd), TextAlign) ==
      if sd.typography.Some? then Emit(Plain(sd.typography.value.textAlign)) else None
  {
    if sd.typography.Some? {
      TypographyKeyed(sd);
      GroupAt(TypographyGroup(sd), TypographyKeys, 6);
    }
  }

  /** typography.textAlign (line 41) overrides layout.textAlign (line 27). */
  lemma TextAlignPrecedence(sd: StyleData)
    ensures Get(Generate(sd), TextAlign) ==
      Or(if sd.typography.Some? then Emit(Plain(sd.typography.value.textAlign)) else None,
         if sd.layout.Some? then Emit(Plain(sd.layout.value.textAlign)) else None)
  {
    GenerateGet(sd, TextAlign);
    FieldsTextAlign(sd);
    TypographyGivesTextAlign(sd);
    LayoutGivesTextAlign(sd);
  }

  lemma FieldsTextAlign(sd: StyleData)
    ensures LastValue(Fields(sd), TextAlign) ==
      Or(LastValue(TypographyGroup(sd), TextAlign), LastValue(LayoutGroup(sd), TextAlign))
  {
    var k := TextAlign;
    FieldsLastValue(sd, k);
    GridLacks(sd, k);
    FlexLacks(sd, k);
    EffectsLacks(sd, k);
    BorderLacks(sd, k);
    BackgroundLacks(sd, k);
  }

  lemma TypographyGivesTextShadow(sd: StyleData)
    ensures LastValue(TypographyGroup(sd), TextShadow) ==
      if sd.typography.Some? then Emit(Plain(sd.typography.value.textShadow)) else None
  {
    if sd.typography.Some? {
      TypographyKeyed(sd);
      GroupAt(TypographyGroup(sd), TypographyKeys, 10);
    }
  }

  lemma EffectsGivesTextShadow(sd: StyleData)
    ensures LastValue(EffectsGroup(sd), TextShadow) ==
      if sd.effects.Some? then Emit(Plain(sd.effects.value.textShadow)) else None
  {
    if sd.effects.Some? {
      EffectsKeyed(sd);
      GroupAt(EffectsGroup(sd), EffectsKeys, 1);
    }
  }

  lemma FieldsTextShadow(sd: StyleData)
    ensures LastValue(Fields(sd), TextShadow) ==
      Or(LastValue(EffectsGroup(sd), TextShadow), LastValue(TypographyGroup(sd), TextShadow))
  {
    var k := TextShadow;
    FieldsLastValue(sd, k);
    GridLacks(sd, k);
    FlexLacks(sd, k);
    BorderLacks(sd, k);
    BackgroundLacks(sd, k);
    LayoutLacks(sd, k);
  }

  /** effects.textShadow (line 83) overrides typography.textShadow (line 45). */
  lemma TextShadowPrecedence(sd: StyleData)
    ensures Get(Generate(sd), TextShadow) ==
      Or(if sd.effects.Some? then Emit(Plain(sd.effects.value.textShadow)) else None,
         if sd.typography.Some? then Emit(Plain(sd.typography.value.textShadow)) else None)
  {
    GenerateGet(sd, TextShadow);
    FieldsTextShadow(sd);
    EffectsGivesTextShadow(sd);
    TypographyGivesTextShadow(sd);
  }

  /** A property only the flex and the grid groups write. */
  lemma FieldsFlexGrid(sd: StyleData, k: Property)
    requires k !in LayoutKeys && k !in TypographyKeys && k !in BackgroundKeys
    requires k !in BorderKeys && k !in EffectsKeys
    ensures LastValue(Fields(sd), k) == Or(LastValue(GridGroup(sd), k), LastValue(FlexGroup(sd), k))
  {
    FieldsLastValue(sd, k);
    EffectsLacks(sd, k);
    BorderLacks(sd, k);
    BackgroundLacks(sd, k);
    TypographyLacks(sd, k);
    LayoutLacks(sd, k);
  }

  lemma FieldsGap(sd: StyleData)
    ensures LastValue(Fields(sd), Gap) == Or(LastValue(GridGroup(sd), Gap), LastValue(FlexGroup(sd), Gap))
  {
    FieldsFlexGrid(sd, Gap);
  }

  lemma FlexGivesGap(sd: StyleData)
    ensures LastValue(FlexGroup(sd), Gap) ==
      if sd.flex.Some? then Emit(Plain(sd.flex.value.gap)) else None
  {
    if sd.flex.Some? {
      FlexKeyed(sd);
      GroupAt(FlexGroup(sd), FlexKeys, 5);
    }
  }

  lemma GridGivesGap(sd: StyleData)
    ensures LastValue(GridGroup(sd), Gap) ==
      if sd.grid.Some? then Emit(Plain(sd.grid.value.gap)) else None
  {
    if sd.grid.Some? {
      GridKeyed(sd);
      GroupAt(GridGroup(sd), GridKeys, 5);
    }
  }

  lemma FieldsAlignItems(sd: StyleData)
    ensures LastValue(Fields(sd), AlignItems) == Or(LastValue(GridGroup(sd), AlignItems), LastValue(FlexGroup(sd), AlignItems))
  {
    FieldsFlexGrid(sd, AlignItems);
  }

  lemma FlexGivesAlignItems(sd: StyleData)
    ensures LastValue(FlexGroup(sd), AlignItems) ==
      if sd.flex.Some? then Emit(Plain(sd.flex.value.alignItems)) else None
  {
    if sd.flex.Some? {
      FlexKeyed(sd);
      GroupAt(FlexGroup(sd), FlexKeys, 2);
    }
  }

  lemma GridGivesAlignItems(sd: StyleData)
    ensures LastValue(GridGroup(sd), AlignItems) ==
      if sd.grid.Some? then Emit(Plain(sd.grid.value.alignItems)) else None
  {
    if sd.grid.Some? {
      GridKeyed(sd);
      GroupAt(GridGroup(sd), GridKeys, 6);
    }
  }

  lemma FieldsJustifyContent(sd: StyleData)
    ensures LastValue(Fields(sd), JustifyContent) == Or(LastValue(GridGroup(sd), JustifyContent), LastValue(FlexGroup(sd), JustifyContent))
  {
    FieldsFlexGrid(sd, JustifyContent);
  }

  lemma FlexGivesJustifyContent(sd: StyleData)
    ensures LastValue(FlexGroup(sd), JustifyContent) ==
      if sd.flex.Some? then Emit(Plain(sd.flex.value.justifyContent)) else None
  {
    if sd.flex.Some? {
      FlexKeyed(sd);
      GroupAt(FlexGroup(sd), FlexKeys, 1);
    }
  }

  lemma GridGivesJustifyContent(sd: StyleData)
    ensures LastValue(GridGroup(sd), JustifyContent) ==
      if sd.grid.Some? then Emit(Plain(sd.grid.value.justifyContent)) else None
  {
    if sd.grid.Some? {
      GridKeyed(sd);
      GroupAt(GridGroup(sd), GridKeys, 8);
    }
  }

  lemma FieldsAlignContent(sd: StyleData)
    ensures LastValue(Fields(sd), AlignContent) == Or(LastValue(GridGroup(sd), AlignContent), LastValue(FlexGroup(sd), AlignContent))
  {
    FieldsFlexGrid(sd, AlignContent);
  }

  lemma FlexGivesAlignContent(sd: StyleData)
    ensures LastValue(FlexGroup(sd), AlignContent) ==
      if sd.flex.Some? then Emit(Plain(sd.flex.value.alignContent)) else None
  {
    if sd.flex.Some? {
      FlexKeyed(sd);
      GroupAt(FlexGroup(sd), FlexKeys, 3);
    }
  }

  lemma GridGivesAlignContent(sd: StyleData)
    ensures LastValue(GridGroup(sd), AlignContent) ==
      if sd.grid.Some? then Emit(Plain(sd.grid.value.alignContent)) else None
  {
    if sd.grid.Some? {
      GridKeyed(sd);
      GroupAt(GridGroup(sd), GridKeys, 9);
    }
  }

  /** grid.gap (line 113) overrides flex.gap (line 102). */
  lemma GapPrecedence(sd: StyleData)
    ensures Get(Generate(sd), Gap) ==
      Or(if sd.grid.Some? then Emit(Plain(sd.grid.value.gap)) else None,
         if sd.flex.Some? then Emit(Plain(sd.flex.value.gap)) else None)
  {
    GenerateGet(sd, Gap);
    FieldsGap(sd);
    GridGivesGap(sd);
    FlexGivesGap(sd);
  }

  /** grid.alignItems (line 114) overrides flex.alignItems (line 99). */
  lemma AlignItemsPrecedence(sd: StyleData)
    ensures Get(Generate(sd), AlignItems) ==
      Or(if sd.grid.Some? then Emit(Plain(sd.grid.value.alignItems)) else None,
         if sd.flex.Some? then Emit(Plain(sd.flex.value.alignItems)) else None)
  {
    GenerateGet(sd, AlignItems);
    FieldsAlignItems(sd);
    GridGivesAlignItems(sd);
    FlexGivesAlignItems(sd);
  }

  /** grid.justifyContent (line 116) overrides flex.justifyContent (line 98). */
  lemma JustifyContentPrecedence(sd: StyleData)
    ensures Get(Generate(sd), JustifyContent) ==
      Or(if sd.grid.Some? then Emit(Plain(sd.grid.value.justifyContent)) else None,
         if sd.flex.Some? then Emit(Plain(sd.flex.value.justifyContent)) else None)
  {
    GenerateGet(sd, JustifyContent);
    FieldsJustifyContent(sd);
    GridGivesJustifyContent(sd);
    FlexGivesJustifyContent(sd);
  }

  /** grid.alignContent (line 117) overrides flex.alignContent (line 100). */
  lemma AlignContentPrecedence(sd: StyleData)
    ensures Get(Generate(sd), AlignContent) ==
      Or(if sd.grid.Some? then Emit(Plain(sd.grid.value.alignContent)) else None,
         if sd.flex.Some? then Emit(Plain(sd.flex.value.alignContent)) else None)
  {
    GenerateGet(sd, AlignContent);
    FieldsAlignContent(sd);
    GridGivesAlignContent(sd);
    FlexGivesAlignContent(sd);
  }

  /** A property only the layout group writes. */
  lemma FieldsOnlyLayout(sd: StyleData, k: Property)
    requires k !in TypographyKeys && k !in BackgroundKeys && k !in BorderKeys
    requires k !in EffectsKeys && k !in FlexKeys && k !in GridKeys
    ensures LastValue(Fields(sd), k) == LastValue(LayoutGroup(sd), k)
  {
    FieldsLastValue(sd, k);
    TypographyLacks(sd, k);
    BackgroundLacks(sd, k);
    BorderLacks(sd, k);
    EffectsLacks(sd, k);
    FlexLacks(sd, k);
    GridLacks(sd, k);
  }

  /** A property only the background group writes. */
  lemma FieldsOnlyBackground(sd: StyleData, k: Property)
    requires k !in LayoutKeys && k !in TypographyKeys && k !in BorderKeys
    requires k !in EffectsKeys && k !in FlexKeys && k !in GridKeys
    ensures LastValue(Fields(sd), k) == LastValue(BackgroundGroup(sd), k)
  {
    FieldsLastValue(sd, k);
    LayoutLacks(sd, k);
    TypographyLacks(sd, k);
    BorderLacks(sd, k);
    EffectsLacks(sd, k);
    FlexLacks(sd, k);
    GridLacks(sd, k);
  }

  /** A property only the effects group writes. */
  lemma FieldsOnlyEffects(sd: StyleData, k: Property)
    requires k !in LayoutKeys && k !in TypographyKeys && k !in BackgroundKeys
    requires k !in BorderKeys && k !in FlexKeys && k !in GridKeys
    ensures LastValue(Fields(sd), k) == LastValue(EffectsGroup(sd), k)
  {
    FieldsLastValue(sd, k);
    LayoutLacks(sd, k);
    TypographyLacks(sd, k);
    BackgroundLacks(sd, k);
    BorderLacks(sd, k);
    FlexLacks(sd, k);
    GridLacks(sd, k);
  }

  lemma FieldsBackgroundColor(sd: StyleData)
    ensures LastValue(Fields(sd), BackgroundColor) == LastValue(BackgroundGroup(sd), BackgroundColor)
  {
    FieldsOnlyBackground(sd, BackgroundColor);
  }

  lemma BackgroundGivesBackgroundColor(sd: StyleData)
    ensures LastValue(BackgroundGroup(sd), BackgroundColor) ==
      if sd.background.Some? then Emit(Plain(sd.background.value.color)) else None
  {
    if sd.background.Some? {
      BackgroundKeyed(sd);
      GroupAt(BackgroundGroup(sd), BackgroundKeys, 0);
    }
  }

  /** background.color (line 53) is written as backgroundColor, as is, when non-empty. */
  lemma BackgroundColorWritten(sd: StyleData)
    ensures Get(Generate(sd), BackgroundColor) ==
      if sd.background.Some? && sd.background.value.color.Some? && sd.background.value.color.value != ""
      then sd.background.value.color else None
  {
    GenerateGet(sd, BackgroundColor);
    FieldsBackgroundColor(sd);
    BackgroundGivesBackgroundColor(sd);
  }

  lemma FieldsBackgroundImage(sd: StyleData)
    ensures LastValue(Fields(sd), BackgroundImage) == LastValue(BackgroundGroup(sd), BackgroundImage)
  {
    FieldsOnlyBackground(sd, BackgroundImage);
  }

  lemma BackgroundGivesBackgroundImage(sd: StyleData)
    ensures LastValue(BackgroundGroup(sd), BackgroundImage) ==
      if sd.background.Some? then Emit(Url(sd.background.value.image)) else None
  {
    if sd.background.Some? {
      BackgroundKeyed(sd);
      GroupAt(BackgroundGroup(sd), BackgroundKeys, 1);
    }
  }

  /** background.image (line 54) is written as backgroundImage, wrapped in `url(...)`, when non-empty. */
  lemma BackgroundImageWritten(sd: StyleData)
    ensures Get(Generate(sd), BackgroundImage) ==
      if sd.background.Some? && sd.background.value.image.Some? && sd.background.value.image.value != ""
      then Some("url(" + sd.background.value.image.value + ")") else None
  {
    GenerateGet(sd, BackgroundImage);
    FieldsBackgroundImage(sd);
    BackgroundGivesBackgroundImage(sd);
  }

  lemma FieldsBackground(sd: StyleData)
    ensures LastValue(Fields(sd), Background) == LastValue(BackgroundGroup(sd), Background)
  {
    FieldsOnlyBackground(sd, Background);
  }

  lemma BackgroundGivesBackground(sd: StyleData)
    ensures LastValue(BackgroundGroup(sd), Background) ==
      if sd.background.Some? then Emit(Plain(sd.background.value.gradient)) else None
  {
    if sd.background.Some? {
      BackgroundKeyed(sd);
      GroupAt(BackgroundGroup(sd), BackgroundKeys, 6);
    }
  }

  /** background.gradient (line 59) is written as the `background` shorthand, apart from backgroundColor. */
  lemma BackgroundWritten(sd: StyleData)
    ensures Get(Generate(sd), Background) ==
      if sd.background.Some? && sd.background.value.gradient.Some? && sd.background.value.gradient.value != ""
      then sd.background.value.gradient else None
  {
    GenerateGet(sd, Background);
    FieldsBackground(sd);
    BackgroundGivesBackground(sd);
  }

  lemma FieldsZIndex(sd: StyleData)
    ensures LastValue(Fields(sd), ZIndex) == LastValue(LayoutGroup(sd), ZIndex)
  {
    FieldsOnlyLayout(sd, ZIndex);
  }

  lemma LayoutGivesZIndex(sd: StyleData)
    ensures LastValue(LayoutGroup(sd), ZIndex) ==
      if sd.layout.Some? then Emit(Integer(sd.layout.value.zIndex)) else None
  {
    if sd.layout.Some? {
      LayoutKeyed(sd);
      GroupAt(LayoutGroup(sd), LayoutKeys, 14);
    }
  }

  /** layout.zIndex (line 26) is written as its decimal rendering unless it is 0, which is falsy. */
  lemma ZIndexWritten(sd: StyleData)
    ensures Get(Generate(sd), ZIndex) ==
      if sd.layout.Some? && sd.layout.value.zIndex.Some? && sd.layout.value.zIndex.value != 0
      then Some(IntToString(sd.layout.value.zIndex.value)) else None
  {
    GenerateGet(sd, ZIndex);
    FieldsZIndex(sd);
    LayoutGivesZIndex(sd);
  }

  lemma FieldsOpacity(sd: StyleData)
    ensures LastValue(Fields(sd), Opacity) == LastValue(EffectsGroup(sd), Opacity)
  {
    FieldsOnlyEffects(sd, Opacity);
  }

  lemma EffectsGivesOpacity(sd: StyleData)
    ensures LastValue(EffectsGroup(sd), Opacity) ==
      if sd.effects.Some? then Emit(Numeric(sd.effects.value.opacity)) else None
  {
    if sd.effects.Some? {
      EffectsKeyed(sd);
      GroupAt(EffectsGroup(sd), EffectsKeys, 2);
    }
  }

  /** effects.opacity (line 84) is written as its `toString()` unless it is 0 or NaN, which are falsy. */
  lemma OpacityWritten(sd: StyleData)
    ensures Get(Generate(sd), Opacity) ==
      if sd.effects.Some? && sd.effects.value.opacity.Some? && NumberTruthy(sd.effects.value.opacity.value)
      then Some(sd.effects.value.opacity.value.text) else None
  {
    GenerateGet(sd, Opacity);
    FieldsOpacity(sd);
    EffectsGivesOpacity(sd);
  }
}
