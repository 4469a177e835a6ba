/** The `Clock` text view: its settings-driven AM/PM style and visibility,
    the attach/detach flag that guards its broadcast receiver, and the
    re-render on every time broadcast. */
module ClockWidget {
  import opened Optional
  import opened Views
  import opened AmPmPattern
  import opened AmPmRender
  import opened FormatCache
  import opened ScreenType

  const CLOCK_STYLE_NOCLOCK: int := 0
  const CLOCK_STYLE_RIGHT: int := 1
  const CLOCK_STYLE_CENTER: int := 2

  /** What the view shows: nothing yet, a rendered time, or nothing ever
      again because `getSmallTime` threw on the main thread, which ends the
      process. */
  datatype Screen = Blank | Showing(rendered: Rendered) | Crashed

  /** The widget's fields. `receivers` counts how many times the intent
      receiver is currently registered with the platform. */
  datatype ClockState = ClockState(
    attached: bool,
    receivers: int,
    amPmStyle: int,
    clockStyle: int,
    showClock: bool,
    cache: Cache,
    visibility: Visibility,
    screen: Screen)

  /** Stored values of `STATUS_BAR_AM_PM`, `STATUS_BAR_CLOCK` and
      `STATUS_BAR_CLOCK_STYLE`; None when the key is absent. */
  datatype ClockSettings = ClockSettings(amPm: Option<int>, clock: Option<int>, clockStyle: Option<int>)

  /** The platform services the widget consults: the time environment, the
      date formatter and `Character.isWhitespace`. */
  datatype Platform = Platform(env: Env, fmt: Formatter, isWs: char -> bool)

  datatype ClockIntent = TimeTick | TimeChanged | TimezoneChanged(tz: Zone) | ConfigurationChanged

  /** The receiver is registered once while attached and not at all while
      detached. */
  predicate RegisteredOnceWhileAttached(s: ClockState) {
    s.receivers == (if s.attached then 1 else 0)
  }

  /** `updateClock`: render the current time into the view. */
  function UpdateClock(s: ClockState, pf: Platform): (r: ClockState)
    ensures r.screen != Blank
    ensures r == s.(cache := r.cache, screen := r.screen)
    ensures var (o, c) := GetSmallTime(s.cache, pf.env, s.amPmStyle, pf.fmt, pf.isWs);
            && r.cache == c
            && (o.Shown? ==> r.screen == Showing(o.rendered))
            && (o.NullFormatter? ==> r.screen == Crashed)
  {
    var (o, c) := GetSmallTime(s.cache, pf.env, s.amPmStyle, pf.fmt, pf.isWs);
    s.(cache := c, screen := if o.Shown? then Showing(o.rendered) else Crashed)
  }

  /** `updateClockVisibility(show)` on a non-tablet. */
  function ClockVisibility(clockStyle: int, show: bool): (v: Visibility)
    ensures v == Visible || v == Gone
    ensures v == Visible <==> clockStyle == CLOCK_STYLE_RIGHT && show
  {
    if clockStyle == CLOCK_STYLE_RIGHT then (if show then Visible else Gone) else Gone
  }

  /** `updateClockVisibilityTablet(show)`: the argument is ignored. */
  function ClockVisibilityTablet(showClock: bool, show: bool): (v: Visibility)
    ensures v == Visible || v == Gone
    ensures v == Visible <==> showClock
  {
    if showClock then Visible else Gone
  }

  /** The re-render inside `updateSettings` throws: the AM/PM style changed
      while attached, and `getSmallTime` meets the null formatter on the
      reset cache. */
  predicate SettingsRenderThrows(s: ClockState, amPm: int, pf: Platform) {
    && amPm != s.amPmStyle
    && s.attached
    && GetSmallTime(Invalidate(s.cache), pf.env, amPm, pf.fmt, pf.isWs).0.NullFormatter?
  }

  /** `updateSettings`: read the AM/PM style (default GONE) and, if it
      changed, reset the format cache and re-render when attached; then read
      either the tablet's show-clock flag or the clock style (the choice made
      by the device class memoised so far) and decide the visibility. When
      the re-render throws, the visibility is never decided. */
  function UpdateSettings(s: ClockState, st: ClockSettings, memo: Option<DeviceClass>, pf: Platform): (r: ClockState)
    ensures r.attached == s.attached && r.receivers == s.receivers
    ensures r.amPmStyle == st.amPm.GetOr(AM_PM_STYLE_GONE)
    ensures r.amPmStyle == s.amPmStyle ==> r.cache == s.cache && r.screen == s.screen
    ensures r.amPmStyle != s.amPmStyle && !s.attached ==>
              r.cache == Invalidate(s.cache) && r.screen == s.screen
    ensures r.amPmStyle != s.amPmStyle && s.attached ==>
              var (o, c) := GetSmallTime(Invalidate(s.cache), pf.env, r.amPmStyle, pf.fmt, pf.isWs);
              && r.cache == c
              && (o.Shown? ==> r.screen == Showing(o.rendered))
              && (o.NullFormatter? ==> r.screen == Crashed)
    ensures r.amPmStyle != s.amPmStyle && s.attached && ResourcePattern(pf.env) != "" ==>
              r.cache.format == Some(Compiled(Rewrite(ResourcePattern(pf.env), r.amPmStyle, pf.isWs), pf.env.locale, pf.env.defaultZone))
    ensures SettingsRenderThrows(s, r.amPmStyle, pf) ==>
              r.clockStyle == s.clockStyle && r.showClock == s.showClock && r.visibility == s.visibility
    ensures !SettingsRenderThrows(s, r.amPmStyle, pf) && memo == Some(Tablet) ==>
              r.clockStyle == s.clockStyle && (r.showClock <==> st.clock.GetOr(1) == 1)
    ensures !SettingsRenderThrows(s, r.amPmStyle, pf) && memo != Some(Tablet) ==>
              r.showClock == s.showClock && r.clockStyle == st.clockStyle.GetOr(CLOCK_STYLE_RIGHT)
    ensures !SettingsRenderThrows(s, r.amPmStyle, pf) ==>
              && (r.visibility == Visible || r.visibility == Gone)
              && (r.visibility == Visible <==>
                    if memo == Some(Tablet) then st.clock.GetOr(1) == 1
                    else st.clockStyle.GetOr(CLOCK_STYLE_RIGHT) == CLOCK_STYLE_RIGHT)
  {
    var amPm := st.amPm.GetOr(AM_PM_STYLE_GONE);
    var s1 :=
      if amPm != s.amPmStyle then
        var t := s.(amPmStyle := amPm, cache := Invalidate(s.cache));
        if t.attached then UpdateClock(t, pf) else t
      else s;
    if SettingsRenderThrows(s, amPm, pf) then s1
    else if memo == Some(Tablet) then
      var show := st.clock.GetOr(1) == 1;
      s1.(showClock := show, visibility := ClockVisibilityTablet(show, true))
    else
      var style := st.clockStyle.GetOr(CLOCK_STYLE_RIGHT);
      s1.(clockStyle := style, visibility := ClockVisibility(style, true))
  }

  /** The constructor: fields at their Java defaults (style NOCLOCK, flag
      off, view visible), then `updateSettings`. Nothing is rendered before
      the view is attached, so the constructor cannot throw. */
  function NewClock(st: ClockSettings, memo: Option<DeviceClass>, pf: Platform): (r: ClockState)
    ensures !r.attached && RegisteredOnceWhileAttached(r)
    ensures r.screen == Blank
    ensures r.amPmStyle == st.amPm.GetOr(AM_PM_STYLE_GONE)
    ensures r.cache == if r.amPmStyle == AM_PM_STYLE_GONE then EmptyCache else Cache(Some(""), None)
    ensures WellFormed(r.cache)
    ensures memo == Some(Tablet) ==>
              r.clockStyle == CLOCK_STYLE_NOCLOCK && (r.showClock <==> st.clock.GetOr(1) == 1)
    ensures memo != Some(Tablet) ==>
              !r.showClock && r.clockStyle == st.clockStyle.GetOr(CLOCK_STYLE_RIGHT)
    ensures r.visibility == Visible || r.visibility == Gone
    ensures r.visibility == Visible <==>
              if memo == Some(Tablet) then st.clock.GetOr(1) == 1
              else st.clockStyle.GetOr(CLOCK_STYLE_RIGHT) == CLOCK_STYLE_RIGHT
  {
    var initial := ClockState(false, 0, AM_PM_STYLE_GONE, CLOCK_STYLE_NOCLOCK, false, EmptyCache, Visible, Blank);
    UpdateSettings(initial, st, memo, pf)
  }

  /** `onAttachedToWindow`: register the receiver unless already attached,
      then render. */
  function OnAttached(s: ClockState, pf: Platform): (r: ClockState)
    ensures r == s.(attached := true, receivers := r.receivers, cache := r.cache, screen := r.screen)
    ensures r.receivers == (if s.attached then s.receivers else s.receivers + 1)
    ensures RegisteredOnceWhileAttached(s) ==> RegisteredOnceWhileAttached(r)
    ensures var (o, c) := GetSmallTime(s.cache, pf.env, s.amPmStyle, pf.fmt, pf.isWs);
            && r.cache == c
            && (o.Shown? ==> r.screen == Showing(o.rendered))
            && (o.NullFormatter? ==> r.screen == Crashed)
  {
    var s1 := if !s.attached then s.(attached := true, receivers := s.receivers + 1) else s;
    UpdateClock(s1, pf)
  }

  /** `onDetachedFromWindow`: unregister the receiver if attached. */
  function OnDetached(s: ClockState): (r: ClockState)
    ensures r == s.(attached := false, receivers := r.receivers)
    ensures r.receivers == (if s.attached then s.receivers - 1 else s.receivers)
    ensures RegisteredOnceWhileAttached(s) ==> RegisteredOnceWhileAttached(r)
  {
    if s.attached then s.(attached := false, receivers := s.receivers - 1) else s
  }

  /** The intent receiver: a time-zone change retargets the cached formatter
      in place; every intent then re-renders. */
  function OnReceive(s: ClockState, intent: ClockIntent, pf: Platform): (r: ClockState)
    ensures r == s.(cache := r.cache, screen := r.screen)
    ensures var c0 := if intent.TimezoneChanged? then SetZone(s.cache, intent.tz) else s.cache;
            var (o, c) := GetSmallTime(c0, pf.env, s.amPmStyle, pf.fmt, pf.isWs);
            && r.cache == c
            && (o.Shown? ==> r.screen == Showing(o.rendered))
            && (o.NullFormatter? ==> r.screen == Crashed)
    ensures intent.TimezoneChanged? && Hits(s.cache, ResourcePattern(pf.env)) && s.cache.format.Some? ==>
              && r.cache.format == Some(Compiled(s.cache.format.value.pattern, s.cache.format.value.locale, intent.tz))
              && r.cache.formatString == s.cache.formatString
  {
    var s1 := if intent.TimezoneChanged? then s.(cache := SetZone(s.cache, intent.tz)) else s;
    UpdateClock(s1, pf)
  }

  /** One event in the widget's life. Every event that reads the platform
      carries the environment as it is at that moment, so the locale and
      its patterns, the 24-hour preference, the instant and the default zone
      may change between events; the formatter and `isWhitespace` are
      library semantics, fixed for a run. `Classify` is a device-class query
      made elsewhere in the process (`isTablet` and friends), which fills
      the shared memo. */
  datatype ClockEvent =
    | Attach(env: Env)
    | Detach
    | Receive(intent: ClockIntent, env: Env)
    | SettingsChanged(settings: ClockSettings, env: Env)
    | Classify(display: Display)

  /** The environment an event reads, if any. */
  function EnvOf(e: ClockEvent): Option<Env> {
    match e
    case Attach(env) => Some(env)
    case Receive(_, env) => Some(env)
    case SettingsChanged(_, env) => Some(env)
    case _ => None
  }

  /** One event applied to the clock and the process-wide device-class memo
      (`mDeviceType`, shared by every clock). A broadcast reaches the clock
      only through a registered receiver. A query with a zero density and
      nothing memoised throws in the caller before the memo is written, so
      the memo stays unset. Once rendering has thrown, the process is gone
      and nothing happens any more. */
  function Step(s: ClockState, memo: Option<DeviceClass>, e: ClockEvent, fmt: Formatter, isWs: char -> bool): (ClockState, Option<DeviceClass>) {
    if s.screen.Crashed? then (s, memo)
    else
      match e
      case Attach(env) => (OnAttached(s, Platform(env, fmt, isWs)), memo)
      case Detach => (OnDetached(s), memo)
      case Receive(i, env) => (if s.receivers > 0 then OnReceive(s, i, Platform(env, fmt, isWs)) else s, memo)
      case SettingsChanged(st, env) => (UpdateSettings(s, st, memo, Platform(env, fmt, isWs)), memo)
      case Classify(d) => (s, if memo.Some? || ValidDisplay(d) then GetScreenType(memo, d).1 else memo)
  }

  function Run(s: ClockState, memo: Option<DeviceClass>, es: seq<ClockEvent>, fmt: Formatter, isWs: char -> bool): (ClockState, Option<DeviceClass>)
    decreases |es|
  {
    if |es| == 0 then (s, memo)
    else
      var (s1, m1) := Step(s, memo, es[0], fmt, isWs);
      Run(s1, m1, es[1..], fmt, isWs)
  }

  /** A crash is final: after it no event changes the clock or the memo. */
  lemma {:induction false} CrashIsFinal(s: ClockState, memo: Option<DeviceClass>, es: seq<ClockEvent>, fmt: Formatter, isWs: char -> bool)
    requires s.screen.Crashed?
    ensures Run(s, memo, es, fmt, isWs) == (s, memo)
    decreases |es|
  {
    if |es| > 0 {
      CrashIsFinal(s, memo, es[1..], fmt, isWs);
    }
  }

  /** However attach, detach, broadcasts and settings changes interleave,
      the receiver is never registered twice nor unregistered when absent. */
  lemma {:induction false} RegistrationFollowsAttachment(s: ClockState, memo: Option<DeviceClass>, es: seq<ClockEvent>, fmt: Formatter, isWs: char -> bool)
    requires RegisteredOnceWhileAttached(s)
    ensures RegisteredOnceWhileAttached(Run(s, memo, es, fmt, isWs).0)
    decreases |es|
  {
    if |es| > 0 {
      var (s1, m1) := Step(s, memo, es[0], fmt, isWs);
      RegistrationFollowsAttachment(s1, m1, es[1..], fmt, isWs);
    }
  }

  /** A detached clock is frozen: until it is attached again, no broadcast
      reaches it and a settings change does not re-render it, so what it
      shows never changes. */
  lemma {:induction false} DetachedClockIsFrozen(s: ClockState, memo: Option<DeviceClass>, es: seq<ClockEvent>, fmt: Formatter, isWs: char -> bool)
    requires !s.attached && RegisteredOnceWhileAttached(s)
    requires forall i :: 0 <= i < |es| ==> !es[i].Attach?
    ensures !Run(s, memo, es, fmt, isWs).0.attached
    ensures Run(s, memo, es, fmt, isWs).0.screen == s.screen
    decreases |es|
  {
    if |es| > 0 {
      var (s1, m1) := Step(s, memo, es[0], fmt, isWs);
      assert !s1.attached && RegisteredOnceWhileAttached(s1) && s1.screen == s.screen;
      DetachedClockIsFrozen(s1, m1, es[1..], fmt, isWs);
    }
  }

  /** Once some query has classified the device, no later event changes the
      class, whatever displays are reported. */
  lemma {:induction false} ClassificationSurvivesRun(s: ClockState, memo: Option<DeviceClass>, es: seq<ClockEvent>, fmt: Formatter, isWs: char -> bool)
    requires memo.Some?
    ensures Run(s, memo, es, fmt, isWs).1 == memo
    decreases |es|
  {
    if |es| > 0 {
      var (s1, m1) := Step(s, memo, es[0], fmt, isWs);
      assert m1 == memo;
      ClassificationSurvivesRun(s1, m1, es[1..], fmt, isWs);
    }
  }

  /** With non-empty time patterns at every event, the format cache stays
      well formed and rendering never meets a missing formatter, over any
      event sequence, even as the locale, the 24-hour preference and the
      zone change between events. */
  lemma {:induction false} NeverCrashesWithPatterns(s: ClockState, memo: Option<DeviceClass>, es: seq<ClockEvent>, fmt: Formatter, isWs: char -> bool)
    requires WellFormed(s.cache) && s.screen != Crashed
    requires forall i :: 0 <= i < |es| && EnvOf(es[i]).Some? ==> ResourcePattern(EnvOf(es[i]).value) != ""
    ensures WellFormed(Run(s, memo, es, fmt, isWs).0.cache) && Run(s, memo, es, fmt, isWs).0.screen != Crashed
    decreases |es|
  {
    if |es| > 0 {
      var (t, m1) := Step(s, memo, es[0], fmt, isWs);
      assert WellFormed(t.cache) && t.screen != Crashed;
      NeverCrashesWithPatterns(t, m1, es[1..], fmt, isWs);
    }
  }

  /** With an empty resource pattern the stale-formatter path is reachable:
      a clock whose AM/PM setting differs from the initial GONE resets the
      stored string to "" before any formatter exists, and the first render
      after attaching then finds "" matching and no formatter. */
  lemma NullFormatterIsReachable(memo: Option<DeviceClass>, pf: Platform)
    requires ResourcePattern(pf.env) == ""
    ensures OnAttached(NewClock(ClockSettings(Some(AM_PM_STYLE_NORMAL), None, None), memo, pf), pf).screen == Crashed
  {
  }

  /** A tablet with the show-clock flag off hides the clock whatever the
      clock style; a phone shows it for the RIGHT style and hides it for
      NOCLOCK and CENTER. */
  lemma VisibilityScenarios(s: ClockState, pf: Platform, amPm: Option<int>, style: Option<int>)
    requires WellFormed(s.cache) && ResourcePattern(pf.env) != ""
    ensures UpdateSettings(s, ClockSettings(amPm, Some(0), style), Some(Tablet), pf).visibility == Gone
    ensures UpdateSettings(s, ClockSettings(amPm, None, Some(CLOCK_STYLE_RIGHT)), Some(Phone), pf).visibility == Visible
    ensures UpdateSettings(s, ClockSettings(amPm, None, Some(CLOCK_STYLE_NOCLOCK)), Some(Phone), pf).visibility == Gone
    ensures UpdateSettings(s, ClockSettings(amPm, None, Some(CLOCK_STYLE_CENTER)), None, pf).visibility == Gone
  {
  }
}
