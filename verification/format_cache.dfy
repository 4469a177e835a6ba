/** `Clock.getSmallTime`: pick the 12- or 24-hour pattern, compile it (with the
    AM/PM rewrite) unless the cached compilation can be reused, format the
    current instant and post-process the result. */
module FormatCache {
  import opened Optional
  import opened AmPmPattern
  import opened AmPmRender

  /** A time-zone identifier such as "Europe/Paris". */
  type Zone = string

  /** A locale identifier such as "en_US". */
  type Locale = string

  /** `SimpleDateFormat.format`, left uninterpreted: the text a compiled
      pattern produces, with the locale it was constructed under, for an
      instant (milliseconds) in a zone. */
  type Formatter = (string, Locale, Zone, int) -> string

  /** A compiled `SimpleDateFormat`: its pattern, the default locale at
      construction time (kept for the object's life) and its time zone. */
  datatype Compiled = Compiled(pattern: string, locale: Locale, zone: Zone)

  /** `mClockFormatString` (None while it is still null) and `mClockFormat`
      (None while it is still null). */
  datatype Cache = Cache(formatString: Option<string>, format: Option<Compiled>)

  /** What `getSmallTime` reads from the platform: the 24-hour preference, the
      two localized time patterns, the default locale and time zone a freshly
      compiled formatter takes, and the current instant. */
  datatype Env = Env(is24: bool, pattern12: string, pattern24: string, locale: Locale, defaultZone: Zone, now: int)

  /** The result of one call: the text for the view, or the
      `NullPointerException` raised when the cached string matches while no
      formatter was ever compiled. */
  datatype Outcome = Shown(rendered: Rendered) | NullFormatter

  const EmptyCache: Cache := Cache(None, None)

  /** `twenty_four_hour_time_format` or `twelve_hour_time_format`. */
  function ResourcePattern(env: Env): (p: string)
    ensures env.is24 ==> p == env.pattern24
    ensures !env.is24 ==> p == env.pattern12
  {
    if env.is24 then env.pattern24 else env.pattern12
  }

  /** The compiled formatter is reused exactly when the resource pattern
      equals the stored string. */
  predicate Hits(cache: Cache, base: string) {
    cache.formatString == Some(base)
  }

  /** A cache whose stored string, when it is not the empty reset marker,
      describes the formatter it holds. */
  predicate WellFormed(cache: Cache) {
    match cache.formatString
    case None => true
    case Some(s) => s != "" ==> cache.format.Some? && cache.format.value.pattern == s
  }

  function GetSmallTime(cache: Cache, env: Env, style: int, fmt: Formatter, isWs: char -> bool): (res: (Outcome, Cache))
    ensures var base := ResourcePattern(env);
      && (Hits(cache, base) ==> res.1 == cache)
      && (Hits(cache, base) && cache.format.None? ==> res.0 == NullFormatter)
      && (Hits(cache, base) && cache.format.Some? ==>
            var c := cache.format.value;
            res.0 == Shown(PostProcess(fmt(c.pattern, c.locale, c.zone, env.now), style)))
      && (!Hits(cache, base) ==>
            var w := Rewrite(base, style, isWs);
            && res.1 == Cache(Some(w), Some(Compiled(w, env.locale, env.defaultZone)))
            && res.0 == Shown(PostProcess(fmt(w, env.locale, env.defaultZone, env.now), style)))
    ensures WellFormed(cache) && ResourcePattern(env) != "" ==> res.0.Shown? && WellFormed(res.1)
  {
    var base := ResourcePattern(env);
    if !Hits(cache, base) then
      var w := Rewrite(base, style, isWs);
      var c := Compiled(w, env.locale, env.defaultZone);
      (Shown(PostProcess(fmt(c.pattern, c.locale, c.zone, env.now), style)), Cache(Some(w), Some(c)))
    else
      match cache.format
      case None => (NullFormatter, cache)
      case Some(c) => (Shown(PostProcess(fmt(c.pattern, c.locale, c.zone, env.now), style)), cache)
  }

  /** `updateSettings` on an AM/PM style change: the stored string becomes "",
      the compiled formatter stays. */
  function Invalidate(cache: Cache): (c: Cache)
    ensures c.format == cache.format
    ensures Hits(c, "")
    ensures forall base: string :: base != "" ==> !Hits(c, base)
  {
    cache.(formatString := Some(""))
  }

  /** A time-zone change retargets the cached formatter in place; the stored
      string is untouched, so it does not force a recompilation. */
  function SetZone(cache: Cache, tz: Zone): (c: Cache)
    ensures c.formatString == cache.formatString
    ensures forall base :: Hits(c, base) <==> Hits(cache, base)
    ensures cache.format.None? ==> c.format.None?
    ensures cache.format.Some? ==>
              c.format == Some(Compiled(cache.format.value.pattern, cache.format.value.locale, tz))
    ensures WellFormed(cache) ==> WellFormed(c)
  {
    match cache.format
    case None => cache
    case Some(f) => cache.(format := Some(f.(zone := tz)))
  }

  /** Because the stored string is the REWRITTEN pattern, a second call with
      the same resource pattern reuses the compiled formatter exactly when the
      rewrite was the identity: NORMAL style, or no unquoted `a`. */
  lemma ReuseOnlyWhenRewriteIsIdentity(cache: Cache, env: Env, env2: Env, style: int, fmt: Formatter, isWs: char -> bool)
    requires !Hits(cache, ResourcePattern(env))
    requires ResourcePattern(env2) == ResourcePattern(env)
    ensures var c1 := GetSmallTime(cache, env, style, fmt, isWs).1;
            Hits(c1, ResourcePattern(env2)) <==> style == AM_PM_STYLE_NORMAL || FindAmPm(ResourcePattern(env)).None?
  {
    RewriteIsIdentityIff(ResourcePattern(env), style, isWs);
  }

  /** With the usual 12-hour pattern and a non-NORMAL style, every call
      compiles the pattern again: the cache never hits. */
  lemma TwelveHourPatternAlwaysRecompiles(cache: Cache, env: Env, style: int, fmt: Formatter, isWs: char -> bool)
    requires !env.is24 && env.pattern12 == "h:mm a"
    requires style != AM_PM_STYLE_NORMAL
    requires cache.formatString != Some("h:mm a")
    ensures var c1 := GetSmallTime(cache, env, style, fmt, isWs).1;
            !Hits(c1, ResourcePattern(env)) && c1.formatString.Some? && |c1.formatString.value| == 8
  {
    var p := env.pattern12;
    assert IsUnquotedMarker(p, 5) by {
      assert p[..5] == "h:mm ";
      QuoteCountFree(p[..5]);
    }
    RewriteIsIdentityIff(p, style, isWs);
  }

  /** After an AM/PM style change resets the stored string, the next call
      with any non-empty pattern compiles afresh under the new style. */
  lemma InvalidateForcesRecompile(cache: Cache, env: Env, style: int, fmt: Formatter, isWs: char -> bool)
    requires ResourcePattern(env) != ""
    ensures var c1 := GetSmallTime(Invalidate(cache), env, style, fmt, isWs).1;
            c1.format == Some(Compiled(Rewrite(ResourcePattern(env), style, isWs), env.locale, env.defaultZone))
  {
  }

  /** A reused formatter keeps the locale it was compiled under: while the
      stored string matches, a change of the default locale does not reach
      the text. */
  lemma HitKeepsCompiledLocale(cache: Cache, env: Env, locale: Locale, style: int, fmt: Formatter, isWs: char -> bool)
    requires Hits(cache, ResourcePattern(env))
    ensures GetSmallTime(cache, env.(locale := locale), style, fmt, isWs) == GetSmallTime(cache, env, style, fmt, isWs)
  {
  }
}
