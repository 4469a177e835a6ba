/** `BatteryController`: the registered battery icon and label views, the
    battery-changed broadcast that pushes the level to all of them, and the
    style setting that decides what they show. */
module BatteryController {
  import opened Optional
  import opened Views
  import opened BatteryStyle

  /** The string resources the controller formats with the level:
      `accessibility_battery_level` and
      `status_bar_settings_battery_meter_min_format`. */
  datatype StringRes = AccessibilityBatteryLevel | BatteryMeterMinFormat

  /** A view's text: whatever its layout gave it, or a string resource
      formatted with a battery level. */
  datatype Text = FromLayout(s: string) | Formatted(res: StringRes, level: int)

  /** What the controller can change on a registered `ImageView`. */
  datatype IconView = IconView(imageLevel: int, description: Text, visibility: Visibility, resource: Option<Icon>)

  /** What the controller can change on a registered `TextView`. */
  datatype LabelView = LabelView(text: Text, visibility: Visibility)

  /** `mBatteryStyle`, `mBatteryPlugged`, `mIconViews` and `mLabelViews`.
      The lists hold references, so they are modelled as lists of view
      identities, and the state of each registered view lives once in a map
      keyed by its identity: a view registered twice is one view. */
  datatype Registry = Registry(
    style: int,
    plugged: bool,
    icons: seq<nat>,
    labels: seq<nat>,
    iconViews: map<nat, IconView>,
    labelViews: map<nat, LabelView>)

  /** The maps describe exactly the registered views. */
  predicate Tracks(c: Registry) {
    && (forall k :: k in c.iconViews ==> k in c.icons)
    && (forall k :: k in c.icons ==> k in c.iconViews)
    && (forall k :: k in c.labelViews ==> k in c.labels)
    && (forall k :: k in c.labels ==> k in c.labelViews)
  }

  type Controller = c: Registry | Tracks(c)
    witness Registry(BATTERY_STYLE_NORMAL, false, [], [], map[], map[])

  datatype Action = ActionBatteryChanged | OtherAction(name: string)

  /** A delivered intent with its `level` and `plugged` extras, None when an
      extra is absent. */
  datatype BatteryIntent = BatteryIntent(action: Action, level: Option<int>, plugged: Option<int>)

  /** One pass of a push loop: the views in `ids` receive `push` in list
      order, a view listed twice receiving it twice; views not listed are
      left alone. */
  function Fanout<V>(ids: seq<nat>, m: map<nat, V>, push: V -> V): (r: map<nat, V>)
    requires forall k :: k in ids ==> k in m
    ensures r.Keys == m.Keys
    ensures forall k :: k in m && k !in ids ==> r[k] == m[k]
    decreases |ids|
  {
    if |ids| == 0 then m
    else Fanout(ids[1..], m[ids[0] := push(m[ids[0]])], push)
  }

  /** A push that sets fields to fixed values changes nothing the second
      time. */
  ghost predicate Idempotent<V(!new)>(push: V -> V) {
    forall v :: push(push(v)) == push(v)
  }

  /** With such a push, the loop leaves every listed view as one push would,
      however often it is listed. */
  lemma {:induction false} FanoutPushesOnce<V(!new)>(ids: seq<nat>, m: map<nat, V>, push: V -> V)
    requires forall k :: k in ids ==> k in m
    requires Idempotent(push)
    ensures forall k :: k in ids ==> Fanout(ids, m, push)[k] == push(m[k])
    decreases |ids|
  {
    if |ids| > 0 {
      var m1 := m[ids[0] := push(m[ids[0]])];
      FanoutPushesOnce(ids[1..], m1, push);
      forall k | k in ids
        ensures Fanout(ids, m, push)[k] == push(m[k])
      {
        if k != ids[0] {
          assert k in ids[1..];
        } else if k in ids[1..] {
          assert push(push(m[k])) == push(m[k]);
        }
      }
    }
  }

  /** Every registered view shows what the style table says for the current
      style and plug state. */
  predicate ShowsStyle(c: Controller) {
    var res := Resolve(c.style, c.plugged);
    && (forall k :: k in c.iconViews ==>
          c.iconViews[k].visibility == res.iconVisibility && c.iconViews[k].resource == Some(res.resource))
    && (forall k :: k in c.labelViews ==> c.labelViews[k].visibility == res.labelVisibility)
  }

  /** `d` is `c` with only the style-driven fields of its views changed. */
  predicate SameBesidesStyle(c: Controller, d: Controller) {
    && d.style == c.style && d.plugged == c.plugged
    && d.icons == c.icons && d.labels == c.labels
    && (forall k :: k in c.iconViews ==>
          d.iconViews[k].(visibility := c.iconViews[k].visibility, resource := c.iconViews[k].resource) == c.iconViews[k])
    && (forall k :: k in c.labelViews ==>
          d.labelViews[k].(visibility := c.labelViews[k].visibility) == c.labelViews[k])
  }

  /** `addIconView`: append the view to the list. A view not seen before
      comes with its current state `v`; a view already registered is the
      same object, so it keeps the state it has. */
  function AddIconView(c: Controller, id: nat, v: IconView): (r: Controller)
    ensures r.icons == c.icons + [id]
    ensures r.iconViews[id] == (if id in c.iconViews then c.iconViews[id] else v)
    ensures forall k :: k in c.iconViews ==> k in r.iconViews && r.iconViews[k] == c.iconViews[k]
    ensures r.(icons := c.icons, iconViews := c.iconViews) == c
  {
    c.(icons := c.icons + [id], iconViews := if id in c.iconViews then c.iconViews else c.iconViews[id := v])
  }

  /** `addLabelView`, likewise. */
  function AddLabelView(c: Controller, id: nat, v: LabelView): (r: Controller)
    ensures r.labels == c.labels + [id]
    ensures r.labelViews[id] == (if id in c.labelViews then c.labelViews[id] else v)
    ensures forall k :: k in c.labelViews ==> k in r.labelViews && r.labelViews[k] == c.labelViews[k]
    ensures r.(labels := c.labels, labelViews := c.labelViews) == c
  {
    c.(labels := c.labels + [id], labelViews := if id in c.labelViews then c.labelViews else c.labelViews[id := v])
  }

  function ShowIcon(res: Resolved): IconView -> IconView {
    (v: IconView) => v.(visibility := res.iconVisibility, resource := Some(res.resource))
  }

  function ShowLabel(res: Resolved): LabelView -> LabelView {
    (v: LabelView) => v.(visibility := res.labelVisibility)
  }

  function SetIconLevel(level: int): IconView -> IconView {
    (v: IconView) => v.(imageLevel := level, description := Formatted(AccessibilityBatteryLevel, level))
  }

  function SetLabelLevel(level: int): LabelView -> LabelView {
    (v: LabelView) => v.(text := Formatted(BatteryMeterMinFormat, level))
  }

  /** `updateBattery`: resolve the style and push it to every view. */
  function UpdateBattery(c: Controller): (r: Controller)
    ensures ShowsStyle(r)
    ensures SameBesidesStyle(c, r)
  {
    var res := Resolve(c.style, c.plugged);
    FanoutPushesOnce(c.icons, c.iconViews, ShowIcon(res));
    FanoutPushesOnce(c.labels, c.labelViews, ShowLabel(res));
    c.(iconViews := Fanout(c.icons, c.iconViews, ShowIcon(res)),
       labelViews := Fanout(c.labels, c.labelViews, ShowLabel(res)))
  }

  /** `onReceive`: for a battery-changed intent, record the plug state, push
      the level (default 0) to every icon and label view whatever the style,
      then re-render the style; any other intent is ignored. */
  function OnReceive(c: Controller, intent: BatteryIntent): (r: Controller)
    ensures intent.action != ActionBatteryChanged ==> r == c
    ensures intent.action == ActionBatteryChanged ==>
      var level := intent.level.GetOr(0);
      && r.style == c.style
      && r.plugged == (intent.plugged.GetOr(0) != 0)
      && ShowsStyle(r)
      && r.icons == c.icons && r.labels == c.labels
      && r.iconViews.Keys == c.iconViews.Keys && r.labelViews.Keys == c.labelViews.Keys
      && (forall k :: k in r.iconViews ==>
            r.iconViews[k].imageLevel == level
            && r.iconViews[k].description == Formatted(AccessibilityBatteryLevel, level))
      && (forall k :: k in r.labelViews ==> r.labelViews[k].text == Formatted(BatteryMeterMinFormat, level))
  {
    if intent.action == ActionBatteryChanged then
      var level := intent.level.GetOr(0);
      FanoutPushesOnce(c.icons, c.iconViews, SetIconLevel(level));
      FanoutPushesOnce(c.labels, c.labelViews, SetLabelLevel(level));
      var c1 := c.(plugged := intent.plugged.GetOr(0) != 0,
                   iconViews := Fanout(c.icons, c.iconViews, SetIconLevel(level)),
                   labelViews := Fanout(c.labels, c.labelViews, SetLabelLevel(level)));
      UpdateBattery(c1)
    else c
  }

  /** `updateSettings`: read the style (default NORMAL) and re-render, even
      when the style did not change. */
  function UpdateSettings(c: Controller, stored: Option<int>): (r: Controller)
    ensures r.style == stored.GetOr(BATTERY_STYLE_NORMAL)
    ensures ShowsStyle(r)
    ensures SameBesidesStyle(c.(style := r.style), r)
  {
    UpdateBattery(c.(style := stored.GetOr(BATTERY_STYLE_NORMAL)))
  }

  /** The constructor: no views, not plugged, then `updateSettings`. */
  function NewController(stored: Option<int>): (r: Controller)
    ensures r == Registry(stored.GetOr(BATTERY_STYLE_NORMAL), false, [], [], map[], map[])
  {
    UpdateSettings(Registry(BATTERY_STYLE_NORMAL, false, [], [], map[], map[]), stored)
  }

  /** Re-rendering the style depends only on the style and the plug state,
      so doing it twice leaves the views as doing it once. */
  lemma UpdateBatteryIdempotent(c: Controller)
    ensures UpdateBattery(UpdateBattery(c)) == UpdateBattery(c)
  {
    var r := UpdateBattery(c);
    var rr := UpdateBattery(r);
    SameViewsAgree(r, rr);
  }

  /** A repeated battery broadcast leaves the views as a single one. */
  lemma OnReceiveIdempotent(c: Controller, intent: BatteryIntent)
    ensures OnReceive(OnReceive(c, intent), intent) == OnReceive(c, intent)
  {
    if intent.action == ActionBatteryChanged {
      var r := OnReceive(c, intent);
      var rr := OnReceive(r, intent);
      forall k | k in r.iconViews
        ensures rr.iconViews[k].imageLevel == r.iconViews[k].imageLevel
        ensures rr.iconViews[k].description == r.iconViews[k].description
      {
      }
      forall k | k in r.labelViews
        ensures rr.labelViews[k].text == r.labelViews[k].text
      {
      }
      SameViewsAgree(r, rr);
    }
  }

  /** Two controllers with the same style, plug state and views, both
      showing the style, whose views agree on the level-driven fields, are
      equal: the style fixes every other field. */
  lemma SameViewsAgree(c: Controller, d: Controller)
    requires ShowsStyle(c) && ShowsStyle(d)
    requires d.style == c.style && d.plugged == c.plugged && d.icons == c.icons && d.labels == c.labels
    requires forall k :: k in c.iconViews ==>
               d.iconViews[k].imageLevel == c.iconViews[k].imageLevel
               && d.iconViews[k].description == c.iconViews[k].description
    requires forall k :: k in c.labelViews ==> d.labelViews[k].text == c.labelViews[k].text
    ensures d == c
  {
    assert d.iconViews.Keys == c.iconViews.Keys;
    assert d.labelViews.Keys == c.labelViews.Keys;
    assert d.iconViews == c.iconViews;
    assert d.labelViews == c.labelViews;
  }

  /** One event of the controller's life; a view is named by its identity
      and comes with its current state. */
  datatype BatteryEvent =
    | RegisterIcon(iconId: nat, icon: IconView)
    | RegisterLabel(labelId: nat, labelView: LabelView)
    | Broadcast(intent: BatteryIntent)
    | SettingChanged(stored: Option<int>)

  function Step(c: Controller, e: BatteryEvent): Controller {
    match e
    case RegisterIcon(id, v) => AddIconView(c, id, v)
    case RegisterLabel(id, v) => AddLabelView(c, id, v)
    case Broadcast(i) => OnReceive(c, i)
    case SettingChanged(s) => UpdateSettings(c, s)
  }

  function Run(c: Controller, es: seq<BatteryEvent>): Controller
    decreases |es|
  {
    if |es| == 0 then c else Run(Step(c, es[0]), es[1..])
  }

  lemma StepKeepsRegistrations(c: Controller, e: BatteryEvent)
    ensures c.icons <= Step(c, e).icons
    ensures c.labels <= Step(c, e).labels
  {
    match e
    case RegisterIcon(id, v) =>
      assert Step(c, e).icons == c.icons + [id];
    case RegisterLabel(id, v) =>
      assert Step(c, e).labels == c.labels + [id];
    case Broadcast(i) =>
    case SettingChanged(st) =>
  }

  /** The view lists only grow: whatever happens, the views registered so
      far stay registered, in the same order, ahead of any later ones. */
  lemma {:induction false} RegistrationIsAppendOnly(c: Controller, es: seq<BatteryEvent>)
    ensures c.icons <= Run(c, es).icons
    ensures c.labels <= Run(c, es).labels
    decreases |es|
  {
    if |es| > 0 {
      var d := Step(c, es[0]);
      StepKeepsRegistrations(c, es[0]);
      RegistrationIsAppendOnly(d, es[1..]);
      assert Run(c, es) == Run(d, es[1..]);
    }
  }

  /** A view registered late is not brought up to date retroactively, but
      the next battery broadcast or settings change serves it like the rest. */
  lemma LateViewServedByNextPush(c: Controller, id: nat, v: IconView, e: BatteryEvent)
    requires id !in c.iconViews
    requires e.SettingChanged? || (e.Broadcast? && e.intent.action == ActionBatteryChanged)
    ensures AddIconView(c, id, v).iconViews[id] == v
    ensures ShowsStyle(Step(AddIconView(c, id, v), e))
  {
  }

  /** Registering a view a second time adds a second list entry for the same
      view: its state is not replaced. */
  lemma ReRegisteredViewIsOneView(c: Controller, id: nat, w: IconView)
    requires id in c.iconViews
    ensures AddIconView(c, id, w).icons == c.icons + [id]
    ensures AddIconView(c, id, w).iconViews == c.iconViews
  {
  }

  /** A view registered, updated by a broadcast and registered again keeps
      the level the broadcast gave it, whatever state the second
      registration came with. */
  lemma ReRegisteredViewKeepsLevel(c: Controller, id: nat, v: IconView, w: IconView, intent: BatteryIntent)
    requires intent.action == ActionBatteryChanged
    ensures var c2 := AddIconView(OnReceive(AddIconView(c, id, v), intent), id, w);
            c2.iconViews[id].imageLevel == intent.level.GetOr(0)
  {
    var c0 := AddIconView(c, id, v);
    var c1 := OnReceive(c0, intent);
    assert id in c1.iconViews by {
      assert id in c0.iconViews;
    }
    ReRegisteredViewIsOneView(c1, id, w);
  }

  /** Level 42, unplugged, NORMAL style: the icon shows the plain drawable,
      the labels are hidden but still carry the level. */
  lemma NormalStyleScenario(c: Controller)
    requires c.style == BATTERY_STYLE_NORMAL
    ensures var r := OnReceive(c, BatteryIntent(ActionBatteryChanged, Some(42), Some(0)));
            && (forall k :: k in r.iconViews ==>
                  r.iconViews[k].visibility == Visible && r.iconViews[k].resource == Some(Icon(Standard, false)))
            && (forall k :: k in r.labelViews ==>
                  r.labelViews[k].visibility == Gone && r.labelViews[k].text == Formatted(BatteryMeterMinFormat, 42))
  {
  }

  /** Level 5, plugged, TEXT style: the charging "min" drawable and visible
      labels showing the level. */
  lemma TextStyleScenario(c: Controller)
    requires c.style == BATTERY_STYLE_TEXT
    ensures var r := OnReceive(c, BatteryIntent(ActionBatteryChanged, Some(5), Some(2)));
            && (forall k :: k in r.iconViews ==>
                  r.iconViews[k].visibility == Visible && r.iconViews[k].resource == Some(Icon(Min, true)))
            && (forall k :: k in r.labelViews ==>
                  r.labelViews[k].visibility == Visible && r.labelViews[k].text == Formatted(BatteryMeterMinFormat, 5))
  {
  }
}
