/**
 * Breakpoints and per-breakpoint overrides (style-utils.ts:126-171).
 *
 * The viewport width that matchesBreakpoint reads from the window is a
 * parameter here. getMergedStyles spreads the override of the breakpoint
 * the width falls in over the base record; the three width ranges
 * partition the integers, so exactly one breakpoint is ever consulted and
 * the `largeDesktop` override never is.
 */
module Breakpoints {
  import opened Options
  import opened StyleMap
  import opened StyleGen
  import opened StyleFacts

  datatype Breakpoint = Mobile | Tablet | Desktop

  /** matchesBreakpoint, for a viewport `width` pixels wide. */
  function MatchesBreakpoint(breakpoint: Breakpoint, width: int): bool {
    match breakpoint
    case Mobile => width <= 768
    case Tablet => width > 768 && width <= 1024
    case Desktop => width > 1024
  }

  /** The one breakpoint a width falls in. */
  function ActiveBreakpoint(width: int): Breakpoint {
    if width <= 768 then Mobile else if width <= 1024 then Tablet else Desktop
  }

  /** Exactly one breakpoint matches any width. */
  lemma ExactlyOneMatches(width: int, breakpoint: Breakpoint)
    ensures MatchesBreakpoint(breakpoint, width) <==> breakpoint == ActiveBreakpoint(width)
  {
  }

  /** Widening the window never moves to a smaller breakpoint. */
  lemma ActiveMonotone(w1: int, w2: int)
    requires w1 <= w2
    ensures Rank(ActiveBreakpoint(w1)) <= Rank(ActiveBreakpoint(w2))
  {
  }

  function Rank(breakpoint: Breakpoint): nat {
    match breakpoint
    case Mobile => 0
    case Tablet => 1
    case Desktop => 2
  }

  /** `styleData.responsive[breakpoint]`, absent when there is no responsive record. */
  function Override(sd: StyleData, breakpoint: Breakpoint): Option<StyleData> {
    if sd.responsive.None? then None
    else
      match breakpoint
      case Mobile => sd.responsive.value.mobile
      case Tablet => sd.responsive.value.tablet
      case Desktop => sd.responsive.value.desktop
  }

  /** getResponsiveStyles */
  function GetResponsiveStyles(sd: StyleData, breakpoint: Breakpoint): (r: CssRecord)
    ensures Override(sd, breakpoint).None? ==> r == []
    ensures Override(sd, breakpoint).Some? ==> r == Generate(Override(sd, breakpoint).value)
  {
    if sd.responsive.None? || Override(sd, breakpoint).None? then []
    else Generate(Override(sd, breakpoint).value)
  }

  /** The record getMergedStyles returns for a viewport `width` pixels wide. */
  function Merged(sd: StyleData, width: int): CssRecord {
    Spread(Generate(sd), GetResponsiveStyles(sd, ActiveBreakpoint(width)))
  }

  /** getMergedStyles: the base record, then the override of the first matching breakpoint. */
  method GetMergedStyles(styleData: StyleData, width: int) returns (styles: CssRecord)
    ensures styles == Merged(styleData, width)
  {
    styles := GenerateStylesFromData(styleData);
    var r := styleData.responsive;
    if MatchesBreakpoint(Mobile, width) && r.Some? && r.value.mobile.Some? {
      var over := GenerateStylesFromData(r.value.mobile.value);
      styles := Spread(styles, over);
    } else if MatchesBreakpoint(Tablet, width) && r.Some? && r.value.tablet.Some? {
      var over := GenerateStylesFromData(r.value.tablet.value);
      styles := Spread(styles, over);
    } else if MatchesBreakpoint(Desktop, width) && r.Some? && r.value.desktop.Some? {
      var over := GenerateStylesFromData(r.value.desktop.value);
      styles := Spread(styles, over);
    }
  }

  /** No override for the active breakpoint: the base record, unchanged. */
  lemma MergedWithoutOverride(sd: StyleData, width: int)
    requires Override(sd, ActiveBreakpoint(width)).None?
    ensures Merged(sd, width) == Generate(sd)
  {
  }

  /**
   * Every property reads the override's value when the active override
   * writes it, and the base value otherwise.
   */
  lemma MergedGet(sd: StyleData, width: int, k: Property)
    ensures var over := GetResponsiveStyles(sd, ActiveBreakpoint(width));
      Get(Merged(sd, width), k) == if Get(over, k).Some? then Get(over, k) else Get(Generate(sd), k)
  {
    var over := GetResponsiveStyles(sd, ActiveBreakpoint(width));
    OverrideDistinct(sd, ActiveBreakpoint(width));
    SpreadGet(Generate(sd), over, k);
  }

  lemma OverrideDistinct(sd: StyleData, breakpoint: Breakpoint)
    ensures Distinct(Keys(GetResponsiveStyles(sd, breakpoint)))
  {
    var o := Override(sd, breakpoint);
    if o.Some? {
      GenerateGet(o.value, Width);
    }
  }

  /**
   * The merged record keeps the base keys in their order and appends the
   * override's new keys in the override's order, each key once.
   */
  lemma MergedKeys(sd: StyleData, width: int)
    ensures var base, over := Generate(sd), GetResponsiveStyles(sd, ActiveBreakpoint(width));
      Keys(Merged(sd, width)) == Keys(base) + NewKeys(Keys(over), Keys(base))
    ensures Distinct(Keys(Merged(sd, width)))
  {
    OverrideDistinct(sd, ActiveBreakpoint(width));
    SpreadKeys(Generate(sd), GetResponsiveStyles(sd, ActiveBreakpoint(width)));
    GenerateGet(sd, Width);
    SpreadDistinct(Generate(sd), GetResponsiveStyles(sd, ActiveBreakpoint(width)));
  }

  /** The `largeDesktop` override never affects the merged record. */
  lemma LargeDesktopUnused(sd: StyleData, width: int, large: Option<StyleData>)
    requires sd.responsive.Some?
    ensures Merged(sd.(responsive := Some(sd.responsive.value.(largeDesktop := large))), width)
      == Merged(sd, width)
  {
    var sd' := sd.(responsive := Some(sd.responsive.value.(largeDesktop := large)));
    assert Fields(sd') == Fields(sd);
    assert Override(sd', ActiveBreakpoint(width)) == Override(sd, ActiveBreakpoint(width));
  }

  /** Only the active breakpoint's override matters: changing another one changes nothing. */
  lemma InactiveOverrideUnused(sd: StyleData, width: int, breakpoint: Breakpoint, o: Option<StyleData>)
    requires sd.responsive.Some? && breakpoint != ActiveBreakpoint(width)
    ensures var r := sd.responsive.value;
      var r' := match breakpoint
        case Mobile => r.(mobile := o)
        case Tablet => r.(tablet := o)
        case Desktop => r.(desktop := o);
      Merged(sd.(responsive := Some(r')), width) == Merged(sd, width)
  {
    var r := sd.responsive.value;
    var r' := match breakpoint
      case Mobile => r.(mobile := o)
      case Tablet => r.(tablet := o)
      case Desktop => r.(desktop := o);
    var sd' := sd.(responsive := Some(r'));
    assert Fields(sd') == Fields(sd);
    assert Override(sd', ActiveBreakpoint(width)) == Override(sd, ActiveBreakpoint(width));
  }
}
