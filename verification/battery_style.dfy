/** The battery style table of `BatteryController.updateBattery`: from the
    style setting and the plugged flag to what the icon and label show. */
module BatteryStyle {
  import opened Views

  const BATTERY_STYLE_NORMAL: int := 0
  const BATTERY_STYLE_TEXT: int := 1
  const BATTERY_STYLE_CIRCLE: int := 2
  const BATTERY_STYLE_BAR: int := 3
  const BATTERY_STYLE_FATTY: int := 4
  const BATTERY_STYLE_DIGITAL: int := 5
  const BATTERY_STYLE_GONE: int := 6

  /** The drawable families: `stat_sys_battery`, `..._min`, `..._circle`,
      `..._bar`, `..._fatty`, `..._digital`. */
  datatype Variant = Standard | Min | Circle | Bar | Fatty | Digital

  /** One of the twelve battery drawables: a family in its NORMAL or its
      CHARGE form. */
  datatype Icon = Icon(variant: Variant, charge: bool)

  const BATTERY_ICON_STYLE_NORMAL: Icon := Icon(Standard, false)

  /** Visibility of the icon views, visibility of the label views, and the
      icon resource. */
  datatype Resolved = Resolved(iconVisibility: Visibility, labelVisibility: Visibility, resource: Icon)

  predicate IsIconStyle(style: int) {
    BATTERY_STYLE_NORMAL <= style <= BATTERY_STYLE_DIGITAL
  }

  /** The drawable family each icon-showing style uses. */
  function FamilyOf(style: int): Variant
    requires IsIconStyle(style)
  {
    match style
    case 0 => Standard
    case 1 => Min
    case 2 => Circle
    case 3 => Bar
    case 4 => Fatty
    case 5 => Digital
  }

  function Resolve(style: int, plugged: bool): (r: Resolved)
    ensures IsIconStyle(style) ==> r.iconVisibility == Visible && r.resource == Icon(FamilyOf(style), plugged)
    ensures !IsIconStyle(style) ==> r == Resolved(Gone, Gone, BATTERY_ICON_STYLE_NORMAL)
    ensures r.labelVisibility == Visible <==> style == BATTERY_STYLE_TEXT
    ensures r.labelVisibility == Visible || r.labelVisibility == Gone
  {
    if style == BATTERY_STYLE_NORMAL then
      Resolved(Visible, Gone, if plugged then Icon(Standard, true) else Icon(Standard, false))
    else if style == BATTERY_STYLE_TEXT then
      Resolved(Visible, Visible, if plugged then Icon(Min, true) else Icon(Min, false))
    else if style == BATTERY_STYLE_CIRCLE then
      Resolved(Visible, Gone, if plugged then Icon(Circle, true) else Icon(Circle, false))
    else if style == BATTERY_STYLE_BAR then
      Resolved(Visible, Gone, if plugged then Icon(Bar, true) else Icon(Bar, false))
    else if style == BATTERY_STYLE_FATTY then
      Resolved(Visible, Gone, if plugged then Icon(Fatty, true) else Icon(Fatty, false))
    else if style == BATTERY_STYLE_DIGITAL then
      Resolved(Visible, Gone, if plugged then Icon(Digital, true) else Icon(Digital, false))
    else
      Resolved(Gone, Gone, BATTERY_ICON_STYLE_NORMAL)
  }

  /** The twelve visible outcomes are pairwise distinct: each style and plug
      state has a drawable of its own. */
  lemma ResolveIsInjective(s1: int, p1: bool, s2: int, p2: bool)
    requires IsIconStyle(s1) && IsIconStyle(s2)
    requires Resolve(s1, p1).resource == Resolve(s2, p2).resource
    ensures s1 == s2 && p1 == p2
  {
  }

  /** Outside the icon styles the plug state makes no difference. */
  lemma HiddenIgnoresPlugged(style: int)
    requires !IsIconStyle(style)
    ensures Resolve(style, true) == Resolve(style, false)
  {
  }
}
