/** The first half of the clock's AM/PM surgery: finding the unquoted `a` of a
    `SimpleDateFormat` pattern and bracketing it, together with the whitespace
    that precedes it, by two private-use sentinel characters. */
module AmPmPattern {
  import opened Optional

  /** Values of the AM/PM style setting. Any other integer is possible too. */
  const AM_PM_STYLE_NORMAL: int := 0
  const AM_PM_STYLE_SMALL: int := 1
  const AM_PM_STYLE_GONE: int := 2

  /** The sentinels: U+EF00 before the span, U+EF01 after it. */
  const MAGIC1: char := '\U{EF00}'
  const MAGIC2: char := '\U{EF01}'

  const QUOTE: char := '\''
  /** The pattern letter that `SimpleDateFormat` renders as the AM/PM text. */
  const MARKER: char := 'a'

  /** The number of quote characters in `s`. */
  function QuoteCount(s: seq<char>): nat {
    if |s| == 0 then 0
    else QuoteCount(s[..|s| - 1]) + (if s[|s| - 1] == QUOTE then 1 else 0)
  }

  lemma {:induction false} QuoteCountConcat(x: seq<char>, y: seq<char>)
    ensures QuoteCount(x + y) == QuoteCount(x) + QuoteCount(y)
    decreases |y|
  {
    if |y| == 0 {
      assert x + y == x;
    } else {
      assert (x + y)[..|x + y| - 1] == x + y[..|y| - 1];
      QuoteCountConcat(x, y[..|y| - 1]);
    }
  }

  lemma {:induction false} QuoteCountFree(s: seq<char>)
    requires QUOTE !in s
    ensures QuoteCount(s) == 0
    decreases |s|
  {
    if |s| > 0 {
      assert QUOTE !in s[..|s| - 1] by {
        assert forall c :: c in s[..|s| - 1] ==> c in s;
      }
      QuoteCountFree(s[..|s| - 1]);
    }
  }

  /** A prefix of a pattern ends inside a quoted literal when it holds an odd
      number of quote characters. */
  predicate InQuotes(s: seq<char>) {
    QuoteCount(s) % 2 == 1
  }

  /** Position `j` holds an `a` that the formatter reads as the AM/PM letter. */
  predicate IsUnquotedMarker(p: seq<char>, j: int) {
    0 <= j < |p| && p[j] == MARKER && !InQuotes(p[..j])
  }

  /** Reading one more character flips the quoted state exactly on a quote. */
  lemma InQuotesStep(p: seq<char>, i: nat)
    requires i < |p|
    ensures InQuotes(p[..i + 1]) == (if p[i] == QUOTE then !InQuotes(p[..i]) else InQuotes(p[..i]))
  {
    assert p[..i + 1][..i] == p[..i];
  }

  /** The scanning loop of `getSmallTime` from index `i` on, carrying the
      quoted flag: each quote toggles it, and an `a` seen while it is clear
      ends the scan. */
  function ScanFrom(p: seq<char>, i: nat, quoted: bool): (r: Option<nat>)
    requires i <= |p|
    requires quoted == InQuotes(p[..i])
    ensures r.Some? ==> i <= r.value && IsUnquotedMarker(p, r.value)
    ensures r.Some? ==> forall j :: i <= j < r.value ==> !IsUnquotedMarker(p, j)
    ensures r.None? ==> forall j :: i <= j < |p| ==> !IsUnquotedMarker(p, j)
    decreases |p| - i
  {
    if i == |p| then None
    else
      InQuotesStep(p, i);
      var q := if p[i] == QUOTE then !quoted else quoted;
      if !q && p[i] == MARKER then Some(i)
      else ScanFrom(p, i + 1, q)
  }

  /** The index of the first unquoted `a`, if there is one. */
  function FindAmPm(p: seq<char>): (r: Option<nat>)
    ensures r.Some? <==> exists j :: IsUnquotedMarker(p, j)
    ensures r.Some? ==> IsUnquotedMarker(p, r.value)
    ensures r.Some? ==> forall j :: 0 <= j < r.value ==> !IsUnquotedMarker(p, j)
  {
    assert p[..0] == [];
    ScanFrom(p, 0, false)
  }

  /** The start of the maximal run of whitespace that ends at index `b`
      (`isWs` stands for `Character.isWhitespace`). */
  function WhitespaceStart(p: seq<char>, b: nat, isWs: char -> bool): (a: nat)
    requires b <= |p|
    ensures a <= b
    ensures forall k :: a <= k < b ==> isWs(p[k])
    ensures a == 0 || !isWs(p[a - 1])
    decreases b
  {
    if b > 0 && isWs(p[b - 1]) then WhitespaceStart(p, b - 1, isWs) else b
  }

  /** `p` with MAGIC1 inserted before index `a` and MAGIC2 after index `b`. */
  function Bracket(p: seq<char>, a: nat, b: nat): (r: seq<char>)
    requires a <= b < |p|
    ensures |r| == |p| + 2
    ensures r[a] == MAGIC1 && r[b + 2] == MAGIC2
    ensures r[..a] == p[..a] && r[a + 1..b + 2] == p[a..b + 1] && r[b + 3..] == p[b + 1..]
  {
    var r := p[..a] + [MAGIC1] + p[a..b + 1] + [MAGIC2] + p[b + 1..];
    assert r[a + 1..b + 2] == p[a..b + 1];
    r
  }

  /** Deleting the two inserted characters gives back the pattern. */
  lemma BracketRoundTrip(p: seq<char>, a: nat, b: nat)
    requires a <= b < |p|
    ensures var r := Bracket(p, a, b); r[..a] + r[a + 1..b + 2] + r[b + 3..] == p
  {
    var r := Bracket(p, a, b);
    assert p == p[..a] + p[a..b + 1] + p[b + 1..];
  }

  /** The pattern `getSmallTime` compiles: unchanged for the NORMAL style or
      when there is no unquoted `a`; otherwise MAGIC1 goes before the
      whitespace run preceding the `a` and MAGIC2 right after the `a`. */
  function Rewrite(p: seq<char>, style: int, isWs: char -> bool): (r: seq<char>)
    ensures style == AM_PM_STYLE_NORMAL || FindAmPm(p).None? ==> r == p
    ensures style != AM_PM_STYLE_NORMAL && FindAmPm(p).Some? ==>
      var b := FindAmPm(p).value;
      var a := WhitespaceStart(p, b, isWs);
      && |r| == |p| + 2
      && r[a] == MAGIC1 && r[b + 1] == MARKER && r[b + 2] == MAGIC2
      && r[..a] == p[..a]
      && r[a + 1..b + 2] == p[a..b + 1]
      && r[b + 3..] == p[b + 1..]
      && r[..a] + r[a + 1..b + 2] + r[b + 3..] == p
  {
    if style == AM_PM_STYLE_NORMAL then p
    else
      match FindAmPm(p)
      case None => p
      case Some(b) =>
        var a := WhitespaceStart(p, b, isWs);
        BracketRoundTrip(p, a, b);
        var r := Bracket(p, a, b);
        assert r[b + 1] == r[a + 1..b + 2][b - a];
        r
  }

  /** When the rewrite has work to do, it is the bracketing of the
      whitespace-and-`a` span. */
  lemma RewriteIsBracket(p: seq<char>, style: int, isWs: char -> bool)
    requires style != AM_PM_STYLE_NORMAL && FindAmPm(p).Some?
    ensures FindAmPm(p).value < |p|
    ensures Rewrite(p, style, isWs) == Bracket(p, WhitespaceStart(p, FindAmPm(p).value, isWs), FindAmPm(p).value)
  {
  }

  /** The rewrite changes the pattern exactly when it has work to do: a
      non-NORMAL style and an unquoted `a`. */
  lemma RewriteIsIdentityIff(p: seq<char>, style: int, isWs: char -> bool)
    ensures Rewrite(p, style, isWs) == p <==> style == AM_PM_STYLE_NORMAL || FindAmPm(p).None?
  {
    if style != AM_PM_STYLE_NORMAL && FindAmPm(p).Some? {
      assert |Rewrite(p, style, isWs)| != |p|;
    }
  }

  predicate IsSentinel(c: char) {
    c == MAGIC1 || c == MAGIC2
  }

  /** `s` with every sentinel character dropped. */
  function StripSentinels(s: seq<char>): seq<char> {
    if |s| == 0 then []
    else if IsSentinel(s[0]) then StripSentinels(s[1..])
    else [s[0]] + StripSentinels(s[1..])
  }

  lemma {:induction false} StripConcat(s: seq<char>, t: seq<char>)
    ensures StripSentinels(s + t) == StripSentinels(s) + StripSentinels(t)
    decreases |s|
  {
    if |s| == 0 {
      assert s + t == t;
    } else {
      assert (s + t)[1..] == s[1..] + t;
      StripConcat(s[1..], t);
    }
  }

  lemma {:induction false} StripFree(s: seq<char>)
    requires MAGIC1 !in s && MAGIC2 !in s
    ensures StripSentinels(s) == s
    decreases |s|
  {
    if |s| > 0 {
      assert s[0] in s;
      assert forall c :: c in s[1..] ==> c in s;
      StripFree(s[1..]);
      assert s == [s[0]] + s[1..];
    }
  }

  lemma StripOne(c: char)
    ensures StripSentinels([c]) == if IsSentinel(c) then [] else [c]
  {
    assert [c][1..] == [];
  }

  /** Dropping two sentinels placed around and between three pieces. */
  lemma StripBracketed(x: seq<char>, y: seq<char>, z: seq<char>)
    ensures StripSentinels(x + [MAGIC1] + y + [MAGIC2] + z)
         == StripSentinels(x) + StripSentinels(y) + StripSentinels(z)
  {
    var x1 := x + [MAGIC1];
    var y1 := x1 + y;
    var z1 := y1 + [MAGIC2];
    StripOne(MAGIC1);
    StripOne(MAGIC2);
    calc {
      StripSentinels(z1 + z);
      { StripConcat(z1, z); }
      StripSentinels(z1) + StripSentinels(z);
      { StripConcat(y1, [MAGIC2]); }
      StripSentinels(y1) + StripSentinels(z);
      { StripConcat(x1, y); }
      StripSentinels(x1) + StripSentinels(y) + StripSentinels(z);
      { StripConcat(x, [MAGIC1]); }
      StripSentinels(x) + StripSentinels(y) + StripSentinels(z);
    }
  }

  /** Removing the sentinels from the rewritten pattern gives back the
      original pattern, whenever the original held none. */
  lemma RewriteStripRoundTrip(p: seq<char>, style: int, isWs: char -> bool)
    requires MAGIC1 !in p && MAGIC2 !in p
    ensures StripSentinels(Rewrite(p, style, isWs)) == p
  {
    StripFree(p);
    if style != AM_PM_STYLE_NORMAL && FindAmPm(p).Some? {
      var b := FindAmPm(p).value;
      var a := WhitespaceStart(p, b, isWs);
      var r := Rewrite(p, style, isWs);
      var x, y, z := p[..a], p[a..b + 1], p[b + 1..];
      assert r == x + [MAGIC1] + y + [MAGIC2] + z;
      assert p == x + y + z;
      StripBracketed(x, y, z);
      StripConcat(x + y, z);
      StripConcat(x, y);
    }
  }

  /** The bracketing never lands inside a quoted literal: both inserted
      sentinels stand where the quote parity is even, so the insertion does
      not shift which parts of the pattern are quoted. This relies on a
      quote not being whitespace, which holds of `Character.isWhitespace`. */
  lemma SentinelsUnquoted(p: seq<char>, style: int, isWs: char -> bool)
    requires !isWs(QUOTE)
    requires style != AM_PM_STYLE_NORMAL && FindAmPm(p).Some?
    ensures var b := FindAmPm(p).value;
            var a := WhitespaceStart(p, b, isWs);
            var r := Rewrite(p, style, isWs);
            !InQuotes(r[..a]) && !InQuotes(r[..b + 2])
  {
    var b := FindAmPm(p).value;
    var a := WhitespaceStart(p, b, isWs);
    RewriteIsBracket(p, style, isWs);
    QuotesBeforeBracket(p, a, b, isWs);
  }

  /** The bracketed pattern has as many quotes before each sentinel as the
      original has before its whitespace run and before its marker. */
  lemma QuotesBeforeBracket(p: seq<char>, a: nat, b: nat, isWs: char -> bool)
    requires a <= b < |p| && !isWs(QUOTE) && p[b] == MARKER
    requires forall k :: a <= k < b ==> isWs(p[k])
    requires !InQuotes(p[..b])
    ensures !InQuotes(Bracket(p, a, b)[..a]) && !InQuotes(Bracket(p, a, b)[..b + 2])
  {
    var r := Bracket(p, a, b);
    var run := p[a..b];
    QuoteCountFree(run);
    QuoteCountFree([MAGIC1]);
    QuoteCountFree([MARKER]);
    assert p[..b] == p[..a] + run;
    QuoteCountConcat(p[..a], run);
    assert r[..b + 2] == p[..a] + [MAGIC1] + run + [MARKER];
    QuoteCountConcat(p[..a] + [MAGIC1] + run, [MARKER]);
    QuoteCountConcat(p[..a] + [MAGIC1], run);
    QuoteCountConcat(p[..a], [MAGIC1]);
  }

  /** An `a` inside a quoted literal is text, not the AM/PM letter: the
      pattern `h:mm 'a'` is left alone whatever the style. */
  lemma QuotedMarkerIsIgnored(p: seq<char>, style: int, isWs: char -> bool)
    requires p == "h:mm 'a'"
    ensures FindAmPm(p).None?
    ensures Rewrite(p, style, isWs) == p
  {
    assert p[..6] == "h:mm " + [QUOTE];
    QuoteCountFree("h:mm ");
    QuoteCountConcat("h:mm ", [QUOTE]);
    forall j | 0 <= j < |p|
      ensures !IsUnquotedMarker(p, j)
    {
      if j != 6 {
        assert p[j] != MARKER;
      }
    }
  }

  /** The common 12-hour pattern: the space and the `a` are bracketed. */
  lemma TwelveHourExample(p: seq<char>, isWs: char -> bool)
    requires p == "h:mm a"
    requires isWs(' ') && !isWs('m')
    ensures Rewrite(p, AM_PM_STYLE_SMALL, isWs) == "h:mm" + [MAGIC1] + " a" + [MAGIC2]
  {
    assert p[..5] == "h:mm ";
    QuoteCountFree(p[..5]);
    assert IsUnquotedMarker(p, 5);
    assert forall j :: 0 <= j < 5 ==> p[j] != MARKER;
    assert FindAmPm(p) == Some(5);
    assert WhitespaceStart(p, 5, isWs) == 4 by {
      assert WhitespaceStart(p, 4, isWs) == 4;
    }
    RewriteIsBracket(p, AM_PM_STYLE_SMALL, isWs);
  }
}
