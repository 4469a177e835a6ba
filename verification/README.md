# Status-bar clock and battery policy, in Dafny

A model of two SystemUI status-bar policy classes.

- **`Clock`**: a text view that shows the time. Its AM/PM style setting decides what happens to the AM/PM text:
  - NORMAL (0) shows it as the formatter produces it;
  - SMALL (1) draws it at reduced size;
  - GONE (2) deletes it.

  To find the AM/PM text after formatting, `getSmallTime` rewrites the time pattern. It brackets the first unquoted `a`, and the whitespace before it, with the sentinel characters U+EF00 and U+EF01. After formatting it looks for the sentinels again. The compiled pattern is cached. The widget also memoises a device class (phone, hybrid or tablet, from the screen's short side in dp). It uses that class to choose which setting decides its visibility. An attach/detach flag guards the registration of its broadcast receiver.
- **`BatteryController`**: keeps append-only lists of battery icon and label views. The lists hold references, so a view registered twice is one view listed twice.
  - A battery-changed broadcast pushes the level to every view.
  - A style setting (0 to 6) selects the drawable and which views are visible.

Modules (one per concern, in dependency order):

| file | module | models |
|---|---|---|
| optional.dfy | `Optional` | nullable references and absent settings |
| views.dfy | `Views` | `View` visibility |
| ampm_pattern.dfy | `AmPmPattern` | the quote-aware search for `a` and the sentinel rewrite |
| ampm_render.dfy | `AmPmRender` | sentinel post-processing of the formatted text |
| format_cache.dfy | `FormatCache` | `getSmallTime` with its compiled-format cache |
| screen_type.dfy | `ScreenType` | `getScreenType`, `isPhone`, `isHybrid`, `isTablet` |
| clock_widget.dfy | `ClockWidget` | `updateSettings`, visibility, attach/detach, the receiver |
| battery_style.dfy | `BatteryStyle` | the style table of `updateBattery` |
| battery_controller.dfy | `BatteryController` | view registration, `onReceive`, `updateBattery`, `updateSettings` |

Each component is an immutable state record, and each operation is a pure function from the old state to the new one.

Some platform services are passed in as parameters:
- the date formatter (`SimpleDateFormat.format`) is an uninterpreted function of the pattern, the locale the formatter was constructed under, the zone and the instant;
- `Character.isWhitespace` is a predicate;
- the current instant, the 24-hour preference, the default locale, the two localized patterns and the default time zone are plain values;
- the stored settings are `Option<int>`, with None for an absent key;
- the display size and density are plain values.

In a clock's event run, every event that reads the platform carries the environment as it is at that moment. The locale and its patterns, the 24-hour preference, the instant and the default zone can therefore change between events. The formatter and `isWhitespace` are library semantics, fixed for the run. A compiled formatter keeps the locale it was constructed under, so a reused formatter ignores a later locale change. The device-class memo is static in the source, shared by every clock, and is threaded through the run. A broadcast reaches the clock only while its receiver is registered.

Behaviour of the code worth knowing:
- The format cache stores the **rewritten** pattern, not the resource pattern. A later call with the same resource pattern therefore reuses the compiled formatter only when the rewrite was the identity: NORMAL style, or no unquoted `a`. With the usual 12-hour pattern and a non-NORMAL style, the cache never hits (`FormatCache.ReuseOnlyWhenRewriteIsIdentity`, `FormatCache.TwelveHourPatternAlwaysRecompiles`).
- `BatteryController.updateSettings` re-renders on every call, with no check that the style changed. `Clock.updateSettings` re-decides the visibility on every call. Only the format-cache reset and the re-render depend on an AM/PM style change.
- `Clock.updateSettings` consults the memoised device class without computing it. Until something else has classified the device, the non-tablet path is taken.
- The AM/PM style defaults to GONE (2), and the clock style defaults to RIGHT (1).
- After an AM/PM style change the stored pattern string is "" while the old formatter is kept. If the resource pattern is then "" too, the stale formatter is reused. If no formatter was ever compiled, `getSmallTime` dereferences null. The model shows that case as `NullFormatter` (`Crashed` on the clock's screen), and proves it cannot happen when the patterns are non-empty. The exception is thrown on the main thread and ends the process: after it the model handles no further event, and an `updateSettings` whose re-render threw never decides the visibility.

## Model

| member | source | states |
|---|---|---|
| AmPmPattern.QuoteCountConcat | packages/SystemUI/src/com/android/systemui/statusbar/policy/Clock.java:205-210 | the quote count of a concatenation is the sum of the parts' counts, so the quoted flag after a prefix is the parity of the quotes in it |
| AmPmPattern.InQuotesStep | packages/SystemUI/src/com/android/systemui/statusbar/policy/Clock.java:208-210 | reading one more character flips the quoted state exactly when that character is a quote |
| AmPmPattern.ScanFrom | packages/SystemUI/src/com/android/systemui/statusbar/policy/Clock.java:203-215 | from a position whose quoted state is known, returns the first later `a` outside quotes, or None when none is left |
| AmPmPattern.FindAmPm | packages/SystemUI/src/com/android/systemui/statusbar/policy/Clock.java:203-215 | returns Some exactly when an unquoted `a` exists, and then the first one; quotedness is the parity of the quotes before the position |
| AmPmPattern.WhitespaceStart | packages/SystemUI/src/com/android/systemui/statusbar/policy/Clock.java:218-222 | the result is the start of the maximal whitespace run that ends at the marker; it never goes below 0 |
| AmPmPattern.Rewrite | packages/SystemUI/src/com/android/systemui/statusbar/policy/Clock.java:202-225 | identity for NORMAL or when no unquoted `a` exists; otherwise the length grows by 2, MAGIC1 sits at the run start and MAGIC2 right after the `a`, and deleting those two characters gives back the pattern |
| AmPmPattern.RewriteIsIdentityIff | packages/SystemUI/src/com/android/systemui/statusbar/policy/Clock.java:202-225 | the rewrite leaves the pattern unchanged if and only if the style is NORMAL or there is no unquoted `a` |
| AmPmPattern.RewriteStripRoundTrip | packages/SystemUI/src/com/android/systemui/statusbar/policy/Clock.java:217-225 | dropping all sentinels from the rewritten pattern gives back a sentinel-free original |
| AmPmPattern.SentinelsUnquoted | packages/SystemUI/src/com/android/systemui/statusbar/policy/Clock.java:203-225 | both inserted sentinels stand where the quote parity is even, so the bracketing never lands inside a quoted literal nor shifts which parts of the pattern are quoted |
| AmPmPattern.QuotedMarkerIsIgnored | packages/SystemUI/src/com/android/systemui/statusbar/policy/Clock.java:203-215 | in `h:mm 'a'` the quoted `a` is not the marker, and the pattern is left alone |
| AmPmPattern.TwelveHourExample | packages/SystemUI/src/com/android/systemui/statusbar/policy/Clock.java:217-225 | `h:mm a` becomes `h:mm`, MAGIC1, ` a`, MAGIC2 |
| AmPmRender.IndexOf | packages/SystemUI/src/com/android/systemui/statusbar/policy/Clock.java:236-237 | -1 exactly when the character is absent; otherwise the index of its first occurrence |
| AmPmRender.PostProcess | packages/SystemUI/src/com/android/systemui/statusbar/policy/Clock.java:235-255 | returns the raw text unchanged unless the style is non-NORMAL and the first MAGIC2 follows the first MAGIC1; for GONE it deletes the closed range between them (length shrinks by m2-m1+1); for other styles it drops just the two sentinels, so re-inserting them gives back the raw text; only SMALL gets a tag |
| AmPmRender.SmallTagCoversBracketedText | packages/SystemUI/src/com/android/systemui/statusbar/policy/Clock.java:243-249 | the SMALL tag spans exactly the characters that lay strictly between the sentinels |
| AmPmRender.SurgeryRoundTrip | packages/SystemUI/src/com/android/systemui/statusbar/policy/Clock.java:217-249 | when the formatter copies the literal text through, GONE deletes exactly the whitespace-and-`a` span, every other non-NORMAL style gives back the pattern (SMALL tags that span), and no sentinel survives |
| FormatCache.ResourcePattern | packages/SystemUI/src/com/android/systemui/statusbar/policy/Clock.java:182-189 | the 24-hour pattern when the 24-hour preference is set, the 12-hour one otherwise |
| FormatCache.GetSmallTime | packages/SystemUI/src/com/android/systemui/statusbar/policy/Clock.java:194-233 | reuses the stored formatter, with the locale and zone it holds, exactly when the resource pattern equals the stored string (null formatter: failure); otherwise it stores and uses the rewritten pattern with the current default locale and zone; with a well-formed cache and a non-empty pattern it never fails and keeps the cache well formed |
| FormatCache.Invalidate | packages/SystemUI/src/com/android/systemui/statusbar/policy/Clock.java:298-300 | keeps the compiled formatter and stores "", so the empty pattern still hits and no non-empty pattern does |
| FormatCache.SetZone | packages/SystemUI/src/com/android/systemui/statusbar/policy/Clock.java:164-169 | only the cached formatter's zone changes, its pattern and locale stay; which patterns hit is unchanged |
| FormatCache.ReuseOnlyWhenRewriteIsIdentity | packages/SystemUI/src/com/android/systemui/statusbar/policy/Clock.java:196-229 | after compiling a pattern, the same pattern hits next time if and only if its rewrite was the identity |
| FormatCache.TwelveHourPatternAlwaysRecompiles | packages/SystemUI/src/com/android/systemui/statusbar/policy/Clock.java:196-229 | with `h:mm a` and a non-NORMAL style the stored string is the 8-character rewritten pattern, which never matches again |
| FormatCache.InvalidateForcesRecompile | packages/SystemUI/src/com/android/systemui/statusbar/policy/Clock.java:196-229 | after the reset, the next call with a non-empty pattern compiles that pattern under the current style |
| FormatCache.HitKeepsCompiledLocale | packages/SystemUI/src/com/android/systemui/statusbar/policy/Clock.java:228-231 | while the stored string matches, a change of the default locale does not change the text or the cache |
| ScreenType.GetScreenType | packages/SystemUI/src/com/android/systemui/statusbar/policy/Clock.java:259-277 | with no memo: phone below 600 dp, hybrid from 600 to 719, tablet from 720; with a memo, returns it unchanged whatever the display; the memo afterwards holds the answer |
| ScreenType.ExactlyOneClass | packages/SystemUI/src/com/android/systemui/statusbar/policy/Clock.java:279-289 | exactly one of isPhone, isHybrid and isTablet holds, and all three leave the same memo |
| ScreenType.IsPhone | packages/SystemUI/src/com/android/systemui/statusbar/policy/Clock.java:279-281 | true exactly when the class is Phone: the memo's value when set, otherwise a short side below 600 dp; the memo is set afterwards |
| ScreenType.IsHybrid | packages/SystemUI/src/com/android/systemui/statusbar/policy/Clock.java:283-285 | true exactly when the class is Hybrid: the memo's value when set, otherwise a short side from 600 to 719 dp; the memo is set afterwards |
| ScreenType.IsTablet | packages/SystemUI/src/com/android/systemui/statusbar/policy/Clock.java:287-289 | true exactly when the class is Tablet: the memo's value when set, otherwise a short side of 720 dp or more; the memo is set afterwards |
| ScreenType.ClassificationIsSticky | packages/SystemUI/src/com/android/systemui/statusbar/policy/Clock.java:259-277 | once the memo is set, no sequence of later queries with any displays, a zero density included, changes it |
| ScreenType.ClassIsMonotone | packages/SystemUI/src/com/android/systemui/statusbar/policy/Clock.java:264-274 | a larger short side never gives a smaller class |
| ScreenType.ClassExamples | packages/SystemUI/src/com/android/systemui/statusbar/policy/Clock.java:263-274 | 800 px at 160 dpi is a tablet, at 200 dpi hybrid, at 240 dpi a phone |
| ClockWidget.UpdateClock | packages/SystemUI/src/com/android/systemui/statusbar/policy/Clock.java:175-178 | renders into the screen and updates the cache, changing nothing else; a null formatter crashes |
| ClockWidget.ClockVisibility | packages/SystemUI/src/com/android/systemui/statusbar/policy/Clock.java:315-320 | visible exactly for the RIGHT style when asked to show; NOCLOCK, CENTER and every other value hide |
| ClockWidget.ClockVisibilityTablet | packages/SystemUI/src/com/android/systemui/statusbar/policy/Clock.java:322-327 | visible exactly when the show-clock flag is set |
| ClockWidget.UpdateSettings | packages/SystemUI/src/com/android/systemui/statusbar/policy/Clock.java:292-313 | AM/PM style is the setting or GONE; a change resets the cache and, when attached, shows what getSmallTime gives on the reset cache under the new style; no change leaves the cache and screen alone; unless that re-render threw, a tablet reads only the show-clock flag (default 1), anything else only the clock style (default RIGHT), and visibility follows the value read; if it threw, clock style, flag and visibility stay as they were |
| ClockWidget.NewClock | packages/SystemUI/src/com/android/systemui/statusbar/policy/Clock.java:111-122 | a new clock is detached, holds no receiver and has rendered nothing; the cache is empty when the AM/PM setting is GONE and holds the "" string otherwise; a tablet takes the show-clock flag and keeps style NOCLOCK, anything else takes the clock style with the flag off; visibility follows the value read |
| ClockWidget.OnAttached | packages/SystemUI/src/com/android/systemui/statusbar/policy/Clock.java:124-148 | registers the receiver only if not yet attached, ends attached, and always shows what getSmallTime gives for the current instant (Crashed on a null formatter); no other field changes |
| ClockWidget.OnDetached | packages/SystemUI/src/com/android/systemui/statusbar/policy/Clock.java:150-158 | unregisters only if attached and ends detached; every other field, the screen and cache included, is untouched |
| ClockWidget.OnReceive | packages/SystemUI/src/com/android/systemui/statusbar/policy/Clock.java:160-173 | every intent re-renders: the screen shows what getSmallTime gives for the current instant, on the cache retargeted to the new zone for a time-zone change; that retargeting does not force recompilation; no other field changes |
| ClockWidget.RegistrationFollowsAttachment | packages/SystemUI/src/com/android/systemui/statusbar/policy/Clock.java:124-158 | over any sequence of events, each with its own platform, the receiver is registered once while attached and not at all while detached |
| ClockWidget.DetachedClockIsFrozen | packages/SystemUI/src/com/android/systemui/statusbar/policy/Clock.java:150-173 | while a detached clock is not attached again, no broadcast reaches it (its receiver is unregistered) and settings changes do not render, so its screen never changes |
| ClockWidget.ClassificationSurvivesRun | packages/SystemUI/src/com/android/systemui/statusbar/policy/Clock.java:259-277 | once the shared device-class memo is set, no event sequence changes it |
| ClockWidget.NeverCrashesWithPatterns | packages/SystemUI/src/com/android/systemui/statusbar/policy/Clock.java:194-233 | when every event's environment has a non-empty time pattern, no event sequence reaches the null-formatter failure, even as the locale, patterns, the 24-hour preference, the instant and the zone change between events |
| ClockWidget.NullFormatterIsReachable | packages/SystemUI/src/com/android/systemui/statusbar/policy/Clock.java:194-233 | with an empty resource pattern, a clock created with AM/PM style NORMAL and then attached crashes on the null formatter |
| ClockWidget.CrashIsFinal | packages/SystemUI/src/com/android/systemui/statusbar/policy/Clock.java:160-178 | once rendering has thrown, no later event changes the clock or the device-class memo |
| ClockWidget.VisibilityScenarios | packages/SystemUI/src/com/android/systemui/statusbar/policy/Clock.java:306-327 | from any state with a well-formed cache and a non-empty pattern (so the re-render cannot throw): a tablet with the flag off hides the clock for any style; a phone with RIGHT shows it, and NOCLOCK or CENTER hide it |
| BatteryStyle.Resolve | packages/SystemUI/src/com/android/systemui/statusbar/policy/BatteryController.java:134-164 | styles 0-5 show the icon with that style's drawable family, in CHARGE form exactly when plugged; only TEXT shows labels; every other value hides both with the NORMAL drawable |
| BatteryStyle.ResolveIsInjective | packages/SystemUI/src/com/android/systemui/statusbar/policy/BatteryController.java:139-163 | distinct (style, plugged) pairs among styles 0-5 get distinct drawables |
| BatteryStyle.HiddenIgnoresPlugged | packages/SystemUI/src/com/android/systemui/statusbar/policy/BatteryController.java:135-164 | outside styles 0-5 the plug state changes nothing |
| BatteryController.Fanout | packages/SystemUI/src/com/android/systemui/statusbar/policy/BatteryController.java:166-176 | the push loop over a list of views keeps the set of views and leaves every unlisted view alone |
| BatteryController.FanoutPushesOnce | packages/SystemUI/src/com/android/systemui/statusbar/policy/BatteryController.java:166-176 | with a push that sets fields to fixed values, every listed view ends as one push would leave it, however often it is listed |
| BatteryController.AddIconView | packages/SystemUI/src/com/android/systemui/statusbar/policy/BatteryController.java:104-106 | appends the view to the list, duplicates included; a new view joins with its state, a view already listed keeps its state; nothing else changes |
| BatteryController.AddLabelView | packages/SystemUI/src/com/android/systemui/statusbar/policy/BatteryController.java:108-110 | appends the view to the list, duplicates included; a new view joins with its state, a view already listed keeps its state; nothing else changes |
| BatteryController.UpdateBattery | packages/SystemUI/src/com/android/systemui/statusbar/policy/BatteryController.java:134-177 | afterwards every icon view has the resolved visibility and drawable and every label view the resolved visibility; nothing else changes |
| BatteryController.OnReceive | packages/SystemUI/src/com/android/systemui/statusbar/policy/BatteryController.java:112-132 | other intents change nothing; a battery change sets plugged from the extra (not 0), writes the level (default 0) to every icon and label whatever the style, then shows the style |
| BatteryController.UpdateSettings | packages/SystemUI/src/com/android/systemui/statusbar/policy/BatteryController.java:179-185 | the style is the setting or NORMAL, and all views show it, even if the style is unchanged |
| BatteryController.NewController | packages/SystemUI/src/com/android/systemui/statusbar/policy/BatteryController.java:90-102 | starts with no views, unplugged, and the stored style or NORMAL |
| BatteryController.UpdateBatteryIdempotent | packages/SystemUI/src/com/android/systemui/statusbar/policy/BatteryController.java:134-177 | re-rendering twice leaves the same state as once |
| BatteryController.OnReceiveIdempotent | packages/SystemUI/src/com/android/systemui/statusbar/policy/BatteryController.java:112-132 | a repeated battery broadcast leaves the same state as one |
| BatteryController.RegistrationIsAppendOnly | packages/SystemUI/src/com/android/systemui/statusbar/policy/BatteryController.java:41-42 | over any events the registered view lists keep their order as a prefix of the later lists |
| BatteryController.LateViewServedByNextPush | packages/SystemUI/src/com/android/systemui/statusbar/policy/BatteryController.java:166-176 | a view registered late is appended as-is and served by the next broadcast or settings change |
| BatteryController.ReRegisteredViewIsOneView | packages/SystemUI/src/com/android/systemui/statusbar/policy/BatteryController.java:41-42 | registering an already listed view adds a second entry for the same view and leaves every view's state as it was |
| BatteryController.ReRegisteredViewKeepsLevel | packages/SystemUI/src/com/android/systemui/statusbar/policy/BatteryController.java:104-132 | a view registered, updated by a broadcast and registered again keeps the broadcast level |
| BatteryController.NormalStyleScenario | packages/SystemUI/src/com/android/systemui/statusbar/policy/BatteryController.java:112-164 | level 42, unplugged, NORMAL: the plain drawable is visible and the labels are hidden but show 42 |
| BatteryController.TextStyleScenario | packages/SystemUI/src/com/android/systemui/statusbar/policy/BatteryController.java:112-164 | level 5, plugged, TEXT: the charging "min" drawable and visible labels show 5 |

## Left out

- `ExtensibleKeyButtonView` is not part of this model. It maps commands through constants and state of classes that are not available here.
- Formatting the time (`SimpleDateFormat`, `Calendar`, `DateFormat.is24HourFormat`) and looking up resources are platform services. They are parameters or inputs.
- `Character.isWhitespace` is a predicate parameter. `AmPmPattern.SentinelsUnquoted` assumes only that a quote is not whitespace.
- The 0.7 `RelativeSizeSpan` is floating point. The model records only the range it covers, as a "small" tag.
- `mCalendar` and its time zone are not modelled. Formatting uses the instant and the formatter's own zone, so the calendar's zone never affects the text.
- Broadcast and settings-observer registration, `Handler`, the settings store, `WindowManager` and `Display` are not modelled. Only the receiver count that the attach flag guards is kept. A `null` time-zone extra is not modelled.
- ScreenType.GetScreenType: does not model 32-bit overflow of `shortSize * 160`, which needs a short side of more than 13 million pixels. It also requires a positive `DENSITY_DEVICE` whenever nothing is memoised. With a zero density the division throws `ArithmeticException` before the memo is written. The exception is not modelled; in a clock's event run such a query leaves the memo unset.
- The push loops' visiting order is not recorded as a trace. Every view receives the same values, so the order does not affect the final state.
- The visual effect of views (layout, drawing, accessibility text content) is not modelled. Formatted strings are kept as the resource and the level.
- `mBatteryIcon` is assigned and never read, so it is not modelled. `AM_PM_STYLE` and `mAmPmStyle` are equal after every `updateSettings`, so they are modelled as one field.
