/**
 * generateStylesFromData (style-utils.ts:6-121): a grouped style record
 * becomes a flat record of CSS properties.
 *
 * Every group present in the record contributes its fields in a fixed
 * order; a field whose value is truthy assigns its rendering to one CSS
 * property. The field tables below list, group by group, each (property,
 * field) pair in the order the source assigns them, so a later entry that
 * names a property already assigned overwrites it in place. The record's
 * keys are the closed set of property names the source can write, as the
 * enumeration Property; Name spells each one.
 */
module StyleGen {
  import opened Options
  import opened StyleMap
  import opened Decimal

  /**
   * A JavaScript number, known by its `toString()` rendering. A number is
   * falsy exactly when it is +0, -0 or NaN, that is when it renders as
   * "0" or "NaN".
   */
  datatype Number = Number(text: string)

  predicate NumberTruthy(n: Number) {
    n.text != "0" && n.text != "NaN"
  }

  /** `string | number` */
  datatype StrOrNum = Str(s: string) | Num(n: Number)

  datatype LayoutData = LayoutData(
    width: Option<string>, height: Option<string>,
    minWidth: Option<string>, maxWidth: Option<string>,
    minHeight: Option<string>, maxHeight: Option<string>,
    margin: Option<string>, padding: Option<string>,
    display: Option<string>, position: Option<string>,
    top: Option<string>, right: Option<string>, bottom: Option<string>, left: Option<string>,
    zIndex: Option<int>,
    textAlign: Option<string>, gridColumn: Option<string>, gridRow: Option<string>)

  datatype TypographyData = TypographyData(
    fontSize: Option<string>, fontWeight: Option<StrOrNum>,
    fontFamily: Option<string>, fontStyle: Option<string>,
    lineHeight: Option<StrOrNum>, letterSpacing: Option<string>,
    textAlign: Option<string>, textDecoration: Option<string>,
    textTransform: Option<string>, color: Option<string>,
    textShadow: Option<string>, whiteSpace: Option<string>, wordBreak: Option<string>)

  datatype BackgroundData = BackgroundData(
    color: Option<string>, image: Option<string>, size: Option<string>,
    position: Option<string>, repeat: Option<string>,
    attachment: Option<string>, gradient: Option<string>)

  datatype BorderData = BorderData(
    width: Option<string>, style: Option<string>, color: Option<string>, radius: Option<string>,
    topWidth: Option<string>, rightWidth: Option<string>,
    bottomWidth: Option<string>, leftWidth: Option<string>,
    topLeftRadius: Option<string>, topRightRadius: Option<string>,
    bottomLeftRadius: Option<string>, bottomRightRadius: Option<string>)

  datatype EffectsData = EffectsData(
    boxShadow: Option<string>, textShadow: Option<string>, opacity: Option<Number>,
    transform: Option<string>, transformOrigin: Option<string>,
    filter: Option<string>, backdropFilter: Option<string>,
    transition: Option<string>, cursor: Option<string>, objectFit: Option<string>)

  datatype FlexData = FlexData(
    flexDirection: Option<string>, justifyContent: Option<string>,
    alignItems: Option<string>, alignContent: Option<string>,
    flexWrap: Option<string>, gap: Option<string>)

  datatype GridData = GridData(
    gridTemplateColumns: Option<string>, gridTemplateRows: Option<string>,
    gridGap: Option<string>, gridColumnGap: Option<string>, gridRowGap: Option<string>,
    justifyItems: Option<string>, alignItems: Option<string>,
    justifyContent: Option<string>, alignContent: Option<string>, gap: Option<string>)

  /** Per-breakpoint overrides, each a partial style record. */
  datatype Responsive = Responsive(
    mobile: Option<StyleData>, tablet: Option<StyleData>,
    desktop: Option<StyleData>, largeDesktop: Option<StyleData>)

  datatype StyleData = StyleData(
    layout: Option<LayoutData>, flex: Option<FlexData>, grid: Option<GridData>,
    typography: Option<TypographyData>, background: Option<BackgroundData>,
    border: Option<BorderData>, effects: Option<EffectsData>,
    responsive: Option<Responsive>, customCSS: Option<string>)

  const EmptyStyleData := StyleData(None, None, None, None, None, None, None, None, None)

  /** A style field as the generator reads it: its value and how it renders. */
  datatype Field =
    | Plain(s: Option<string>)          // written as is
    | Url(s: Option<string>)            // written as `url(<value>)`
    | Integer(z: Option<int>)           // written by `toString()`
    | Numeric(n: Option<Number>)        // written by `toString()`
    | Mixed(v: Option<StrOrNum>)        // written by `toString()`

  /** The `if (field)` test: present and truthy. */
  predicate Truthy(f: Field) {
    match f
    case Plain(s) => s.Some? && s.value != ""
    case Url(s) => s.Some? && s.value != ""
    case Integer(z) => z.Some? && z.value != 0
    case Numeric(n) => n.Some? && NumberTruthy(n.value)
    case Mixed(v) =>
      v.Some? && match v.value
        case Str(s) => s != ""
        case Num(n) => NumberTruthy(n)
  }

  /** The value the source assigns for a truthy field. */
  function Render(f: Field): string
    requires Truthy(f)
  {
    match f
    case Plain(s) => s.value
    case Url(s) => "url(" + s.value + ")"
    case Integer(z) => IntToString(z.value)
    case Numeric(n) => n.value.text
    case Mixed(v) =>
      match v.value
      case Str(s) => s
      case Num(n) => n.text
  }

  /** What the field contributes: its rendering when truthy, nothing otherwise. */
  function Emit(f: Field): Option<string> {
    if Truthy(f) then Some(Render(f)) else None
  }

  /** The CSS properties the generator can write, one per distinct key. */
  datatype Property =
    | Width | Height | MinWidth | MaxWidth | MinHeight | MaxHeight | Margin | Padding
    | Display | Position | Top | Right | Bottom | Left | ZIndex | TextAlign | GridColumn
    | GridRow | FontSize | FontWeight | FontFamily | FontStyle | LineHeight | LetterSpacing
    | TextDecoration | TextTransform | Color | TextShadow | WhiteSpace | WordBreak
    | BackgroundColor | BackgroundImage | BackgroundSize | BackgroundPosition
    | BackgroundRepeat | BackgroundAttachment | Background | BorderWidth | BorderStyle
    | BorderColor | BorderRadius | BorderTopWidth | BorderRightWidth | BorderBottomWidth
    | BorderLeftWidth | BorderTopLeftRadius | BorderTopRightRadius | BorderBottomLeftRadius
    | BorderBottomRightRadius | BoxShadow | Opacity | Transform | TransformOrigin | Filter
    | BackdropFilter | Transition | Cursor | ObjectFit | FlexDirection | JustifyContent
    | AlignItems | AlignContent | FlexWrap | Gap | GridTemplateColumns | GridTemplateRows
    | GridGap | GridColumnGap | GridRowGap | JustifyItems

  /** The property's key in the generated record, as the source spells it. */
  function Name(p: Property): string {
    match p
    case Width => "width"
    case Height => "height"
    case MinWidth => "minWidth"
    case MaxWidth => "maxWidth"
    case MinHeight => "minHeight"
    case MaxHeight => "maxHeight"
    case Margin => "margin"
    case Padding => "padding"
    case Display => "display"
    case Position => "position"
    case Top => "top"
    case Right => "right"
    case Bottom => "bottom"
    case Left => "left"
    case ZIndex => "zIndex"
    case TextAlign => "textAlign"
    case GridColumn => "gridColumn"
    case GridRow => "gridRow"
    case FontSize => "fontSize"
    case FontWeight => "fontWeight"
    case FontFamily => "fontFamily"
    case FontStyle => "fontStyle"
    case LineHeight => "lineHeight"
    case LetterSpacing => "letterSpacing"
    case TextDecoration => "textDecoration"
    case TextTransform => "textTransform"
    case Color => "color"
    case TextShadow => "textShadow"
    case WhiteSpace => "whiteSpace"
    case WordBreak => "wordBreak"
    case BackgroundColor => "backgroundColor"
    case BackgroundImage => "backgroundImage"
    case BackgroundSize => "backgroundSize"
    case BackgroundPosition => "backgroundPosition"
    case BackgroundRepeat => "backgroundRepeat"
    case BackgroundAttachment => "backgroundAttachment"
    case Background => "background"
    case BorderWidth => "borderWidth"
    case BorderStyle => "borderStyle"
    case BorderColor => "borderColor"
    case BorderRadius => "borderRadius"
    case BorderTopWidth => "borderTopWidth"
    case BorderRightWidth => "borderRightWidth"
    case BorderBottomWidth => "borderBottomWidth"
    case BorderLeftWidth => "borderLeftWidth"
    case BorderTopLeftRadius => "borderTopLeftRadius"
    case BorderTopRightRadius => "borderTopRightRadius"
    case BorderBottomLeftRadius => "borderBottomLeftRadius"
    case BorderBottomRightRadius => "borderBottomRightRadius"
    case BoxShadow => "boxShadow"
    case Opacity => "opacity"
    case Transform => "transform"
    case TransformOrigin => "transformOrigin"
    case Filter => "filter"
    case BackdropFilter => "backdropFilter"
    case Transition => "transition"
    case Cursor => "cursor"
    case ObjectFit => "objectFit"
    case FlexDirection => "flexDirection"
    case JustifyContent => "justifyContent"
    case AlignItems => "alignItems"
    case AlignContent => "alignContent"
    case FlexWrap => "flexWrap"
    case Gap => "gap"
    case GridTemplateColumns => "gridTemplateColumns"
    case GridTemplateRows => "gridTemplateRows"
    case GridGap => "gridGap"
    case GridColumnGap => "gridColumnGap"
    case GridRowGap => "gridRowGap"
    case JustifyItems => "justifyItems"
  }

  /** The record generateStylesFromData builds, keyed by property. */
  type CssRecord = Styles<Property>

  /** One `if (group.field) styles.key = ...` of the source. */
  datatype Prop = Prop(key: Property, field: Field)

  function LayoutProps(l: LayoutData): seq<Prop> {
    [ Prop(Width, Plain(l.width)), Prop(Height, Plain(l.height)),
      Prop(MinWidth, Plain(l.minWidth)), Prop(MaxWidth, Plain(l.maxWidth)),
      Prop(MinHeight, Plain(l.minHeight)), Prop(MaxHeight, Plain(l.maxHeight)),
      Prop(Margin, Plain(l.margin)), Prop(Padding, Plain(l.padding)),
      Prop(Display, Plain(l.display)), Prop(Position, Plain(l.position)),
      Prop(Top, Plain(l.top)), Prop(Right, Plain(l.right)),
      Prop(Bottom, Plain(l.bottom)), Prop(Left, Plain(l.left)),
      Prop(ZIndex, Integer(l.zIndex)), Prop(TextAlign, Plain(l.textAlign)),
      Prop(GridColumn, Plain(l.gridColumn)), Prop(GridRow, Plain(l.gridRow)) ]
  }

  function TypographyProps(t: TypographyData): seq<Prop> {
    [ Prop(FontSize, Plain(t.fontSize)), Prop(FontWeight, Mixed(t.fontWeight)),
      Prop(FontFamily, Plain(t.fontFamily)), Prop(FontStyle, Plain(t.fontStyle)),
      Prop(LineHeight, Mixed(t.lineHeight)), Prop(LetterSpacing, Plain(t.letterSpacing)),
      Prop(TextAlign, Plain(t.textAlign)), Prop(TextDecoration, Plain(t.textDecoration)),
      Prop(TextTransform, Plain(t.textTransform)), Prop(Color, Plain(t.color)),
      Prop(TextShadow, Plain(t.textShadow)), Prop(WhiteSpace, Plain(t.whiteSpace)),
      Prop(WordBreak, Plain(t.wordBreak)) ]
  }

  function BackgroundProps(b: BackgroundData): seq<Prop> {
    [ Prop(BackgroundColor, Plain(b.color)), Prop(BackgroundImage, Url(b.image)),
      Prop(BackgroundSize, Plain(b.size)), Prop(BackgroundPosition, Plain(b.position)),
      Prop(BackgroundRepeat, Plain(b.repeat)),
      Prop(BackgroundAttachment, Plain(b.attachment)),
      Prop(Background, Plain(b.gradient)) ]
  }

  function BorderProps(b: BorderData): seq<Prop> {
    [ Prop(BorderWidth, Plain(b.width)), Prop(BorderStyle, Plain(b.style)),
      Prop(BorderColor, Plain(b.color)), Prop(BorderRadius, Plain(b.radius)),
      Prop(BorderTopWidth, Plain(b.topWidth)), Prop(BorderRightWidth, Plain(b.rightWidth)),
      Prop(BorderBottomWidth, Plain(b.bottomWidth)), Prop(BorderLeftWidth, Plain(b.leftWidth)),
      Prop(BorderTopLeftRadius, Plain(b.topLeftRadius)),
      Prop(BorderTopRightRadius, Plain(b.topRightRadius)),
      Prop(BorderBottomLeftRadius, Plain(b.bottomLeftRadius)),
      Prop(BorderBottomRightRadius, Plain(b.bottomRightRadius)) ]
  }

  function EffectsProps(e: EffectsData): seq<Prop> {
    [ Prop(BoxShadow, Plain(e.boxShadow)), Prop(TextShadow, Plain(e.textShadow)),
      Prop(Opacity, Numeric(e.opacity)), Prop(Transform, Plain(e.transform)),
      Prop(TransformOrigin, Plain(e.transformOrigin)), Prop(Filter, Plain(e.filter)),
      Prop(BackdropFilter, Plain(e.backdropFilter)), Prop(Transition, Plain(e.transition)),
      Prop(Cursor, Plain(e.cursor)), Prop(ObjectFit, Plain(e.objectFit)) ]
  }

  function FlexProps(f: FlexData): seq<Prop> {
    [ Prop(FlexDirection, Plain(f.flexDirection)), Prop(JustifyContent, Plain(f.justifyContent)),
      Prop(AlignItems, Plain(f.alignItems)), Prop(AlignContent, Plain(f.alignContent)),
      Prop(FlexWrap, Plain(f.flexWrap)), Prop(Gap, Plain(f.gap)) ]
  }

  function GridProps(g: GridData): seq<Prop> {
    [ Prop(GridTemplateColumns, Plain(g.gridTemplateColumns)),
      Prop(GridTemplateRows, Plain(g.gridTemplateRows)),
      Prop(GridGap, Plain(g.gridGap)), Prop(GridColumnGap, Plain(g.gridColumnGap)),
      Prop(GridRowGap, Plain(g.gridRowGap)), Prop(Gap, Plain(g.gap)),
      Prop(AlignItems, Plain(g.alignItems)), Prop(JustifyItems, Plain(g.justifyItems)),
      Prop(JustifyContent, Plain(g.justifyContent)), Prop(AlignContent, Plain(g.alignContent)) ]
  }

  /** The entries a group contributes: its table when present, nothing when absent. */
  function LayoutGroup(sd: StyleData): seq<Prop> {
    if sd.layout.Some? then LayoutProps(sd.layout.value) else []
  }

  function TypographyGroup(sd: StyleData): seq<Prop> {
    if sd.typography.Some? then TypographyProps(sd.typography.value) else []
  }

  function BackgroundGroup(sd: StyleData): seq<Prop> {
    if sd.background.Some? then BackgroundProps(sd.background.value) else []
  }

  function BorderGroup(sd: StyleData): seq<Prop> {
    if sd.border.Some? then BorderProps(sd.border.value) else []
  }

  function EffectsGroup(sd: StyleData): seq<Prop> {
    if sd.effects.Some? then EffectsProps(sd.effects.value) else []
  }

  function FlexGroup(sd: StyleData): seq<Prop> {
    if sd.flex.Some? then FlexProps(sd.flex.value) else []
  }

  function GridGroup(sd: StyleData): seq<Prop> {
    if sd.grid.Some? then GridProps(sd.grid.value) else []
  }

  /** The entries of every group present, in the order the source applies the groups. */
  function Fields(sd: StyleData): seq<Prop> {
    LayoutGroup(sd) + TypographyGroup(sd) + BackgroundGroup(sd) + BorderGroup(sd)
    + EffectsGroup(sd) + FlexGroup(sd) + GridGroup(sd)
  }

  /** One conditional assignment. */
  function Write(m: CssRecord, p: Prop): CssRecord {
    if Truthy(p.field) then Put(m, p.key, Render(p.field)) else m
  }

  /** The record after the entries of `ps` have been applied, in order, to `m`. */
  function Assign(m: CssRecord, ps: seq<Prop>): CssRecord {
    if ps == [] then m else Write(Assign(m, ps[..|ps| - 1]), ps[|ps| - 1])
  }

  /** The record generateStylesFromData returns. */
  function Generate(sd: StyleData): CssRecord {
    Assign([], Fields(sd))
  }

  lemma {:induction false} AssignAppend(m: CssRecord, a: seq<Prop>, b: seq<Prop>)
    ensures Assign(m, a + b) == Assign(Assign(m, a), b)
    decreases |b|
  {
    if b == [] {
      assert a + b == a;
    } else {
      var n := |b| - 1;
      assert (a + b)[..|a + b| - 1] == a + b[..n];
      assert (a + b)[|a + b| - 1] == b[n];
      AssignAppend(m, a, b[..n]);
    }
  }

  /** Applies the entries of one group, one conditional assignment at a time. */
  method ApplyProps(styles0: CssRecord, ps: seq<Prop>) returns (styles: CssRecord)
    ensures styles == Assign(styles0, ps)
  {
    styles := styles0;
    for i := 0 to |ps|
      invariant styles == Assign(styles0, ps[..i])
    {
      assert ps[..i + 1][..i] == ps[..i];
      var p := ps[i];
      if Truthy(p.field) {
        styles := Put(styles, p.key, Render(p.field));
      }
    }
    assert ps[..|ps|] == ps;
  }

  method GenerateStylesFromData(styleData: StyleData) returns (styles: CssRecord)
    ensures styles == Generate(styleData)
  {
    var sd := styleData;
    ghost var l, t, bg, bd := LayoutGroup(sd), TypographyGroup(sd), BackgroundGroup(sd), BorderGroup(sd);
    ghost var e, f, g := EffectsGroup(sd), FlexGroup(sd), GridGroup(sd);
    styles := [];
    if sd.layout.Some? {
      styles := ApplyProps(styles, LayoutProps(sd.layout.value));
    }
    if sd.typography.Some? {
      styles := ApplyProps(styles, TypographyProps(sd.typography.value));
    }
    AssignAppend([], l, t);
    if sd.background.Some? {
      styles := ApplyProps(styles, BackgroundProps(sd.background.value));
    }
    AssignAppend([], l + t, bg);
    if sd.border.Some? {
      styles := ApplyProps(styles, BorderProps(sd.border.value));
    }
    AssignAppend([], l + t + bg, bd);
    if sd.effects.Some? {
      styles := ApplyProps(styles, EffectsProps(sd.effects.value));
    }
    AssignAppend([], l + t + bg + bd, e);
    if sd.flex.Some? {
      styles := ApplyProps(styles, FlexProps(sd.flex.value));
    }
    AssignAppend([], l + t + bg + bd + e, f);
    if sd.grid.Some? {
      styles := ApplyProps(styles, GridProps(sd.grid.value));
    }
    AssignAppend([], l + t + bg + bd + e + f, g);
  }
}
