/** The second half of the clock's AM/PM surgery: after formatting, find the
    sentinels in the formatted text and either delete the bracketed span or
    keep it, optionally tagged to be drawn small. */
module AmPmRender {
  import opened Optional
  import opened AmPmPattern

  /** A half-open range `[start, end)` of the displayed text that is drawn at
      reduced size (the 0.7 `RelativeSizeSpan`). */
  datatype Span = Span(start: nat, end: nat)

  /** What the clock's text view receives: plain text, or text with one
      "small" range. */
  datatype Rendered = Rendered(text: seq<char>, small: Option<Span>)

  /** `String.indexOf(char)`: the first index holding `c`, or -1. */
  function IndexOf(s: seq<char>, c: char): (r: int)
    ensures -1 <= r < |s|
    ensures r == -1 <==> c !in s
    ensures r >= 0 ==> FirstAt(s, c, r)
  {
    IndexFrom(s, c, 0)
  }

  /** The scan behind `IndexOf`, from index `i` on, knowing `c` is not
      before `i`. */
  function IndexFrom(s: seq<char>, c: char, i: nat): (r: int)
    requires i <= |s|
    requires c !in s[..i]
    ensures -1 <= r < |s|
    ensures r == -1 <==> c !in s
    ensures r >= 0 ==> FirstAt(s, c, r)
    decreases |s| - i
  {
    if i == |s| then assert s[..i] == s; -1
    else if s[i] == c then i
    else
      assert s[..i + 1] == s[..i] + [s[i]];
      IndexFrom(s, c, i + 1)
  }

  /** `k` is the first occurrence of `c` in `s`. */
  predicate FirstAt(s: seq<char>, c: char, k: int) {
    0 <= k < |s| && s[k] == c && c !in s[..k]
  }

  lemma FirstAtUnique(s: seq<char>, c: char, j: int, k: int)
    requires FirstAt(s, c, j) && FirstAt(s, c, k)
    ensures j == k
  {
  }

  lemma IndexOfFirst(s: seq<char>, c: char, k: int)
    requires FirstAt(s, c, k)
    ensures IndexOf(s, c) == k
  {
    FirstAtUnique(s, c, k, IndexOf(s, c));
  }

  /** Post-processing takes effect only for a non-NORMAL style, when MAGIC1
      occurs and the first MAGIC2 lies after the first MAGIC1. */
  predicate Fires(raw: seq<char>, style: int) {
    style != AM_PM_STYLE_NORMAL && IndexOf(raw, MAGIC1) >= 0 && IndexOf(raw, MAGIC2) > IndexOf(raw, MAGIC1)
  }

  /** Firing, stated without `indexOf`: the first MAGIC1 and the first MAGIC2
      both exist, in that order. */
  lemma FiresIff(raw: seq<char>, style: int)
    ensures Fires(raw, style) <==>
      style != AM_PM_STYLE_NORMAL
      && exists m1, m2 :: FirstAt(raw, MAGIC1, m1) && FirstAt(raw, MAGIC2, m2) && m1 < m2
  {
    var m1, m2 := IndexOf(raw, MAGIC1), IndexOf(raw, MAGIC2);
    if m1 >= 0 && m2 > m1 {
      assert FirstAt(raw, MAGIC1, m1) && FirstAt(raw, MAGIC2, m2);
    }
    forall j, k | FirstAt(raw, MAGIC1, j) && FirstAt(raw, MAGIC2, k)
      ensures j == m1 && k == m2
    {
      IndexOfFirst(raw, MAGIC1, j);
      IndexOfFirst(raw, MAGIC2, k);
    }
  }

  /** Puts the sentinels back: MAGIC1 at `m1`, MAGIC2 at `m2` of the result. */
  function Reinsert(t: seq<char>, m1: nat, m2: nat): seq<char>
    requires m1 < m2 <= |t| + 1
  {
    t[..m1] + [MAGIC1] + t[m1..m2 - 1] + [MAGIC2] + t[m2 - 1..]
  }

  /** The edit on the `SpannableStringBuilder` once sentinels were found at
      `m1` and `m2`: GONE deletes the closed range between them; any other
      style deletes just the two sentinels, and SMALL tags what lay between. */
  function Cut(raw: seq<char>, style: int, m1: nat, m2: nat): (r: Rendered)
    requires m1 < m2 < |raw|
    requires raw[m1] == MAGIC1 && raw[m2] == MAGIC2
    ensures style == AM_PM_STYLE_GONE ==>
      && r.small.None?
      && |r.text| == |raw| - (m2 - m1 + 1)
      && r.text[..m1] == raw[..m1]
      && r.text[m1..] == raw[m2 + 1..]
    ensures style != AM_PM_STYLE_GONE ==>
      && |r.text| == |raw| - 2
      && r.text[m1..m2 - 1] == raw[m1 + 1..m2]
      && Reinsert(r.text, m1, m2) == raw
      && (style == AM_PM_STYLE_SMALL ==> r.small == Some(Span(m1, m2 - 1)))
      && (style != AM_PM_STYLE_SMALL ==> r.small.None?)
  {
    if style == AM_PM_STYLE_GONE then
      Rendered(raw[..m1] + raw[m2 + 1..], None)
    else
      var t := raw[..m1] + raw[m1 + 1..m2] + raw[m2 + 1..];
      assert t[..m1] == raw[..m1];
      assert t[m1..m2 - 1] == raw[m1 + 1..m2];
      assert t[m2 - 1..] == raw[m2 + 1..];
      assert raw == raw[..m1] + [raw[m1]] + raw[m1 + 1..m2] + [raw[m2]] + raw[m2 + 1..];
      Rendered(t, if style == AM_PM_STYLE_SMALL then Some(Span(m1, m2 - 1)) else None)
  }

  /** The text handed to the view once the formatter has produced `raw`. */
  function PostProcess(raw: seq<char>, style: int): (r: Rendered)
    ensures !Fires(raw, style) ==> r == Rendered(raw, None)
    ensures Fires(raw, style) ==>
      var m1 := IndexOf(raw, MAGIC1);
      var m2 := IndexOf(raw, MAGIC2);
      && (style == AM_PM_STYLE_GONE ==>
            && r.small.None?
            && |r.text| == |raw| - (m2 - m1 + 1)
            && r.text[..m1] == raw[..m1]
            && r.text[m1..] == raw[m2 + 1..])
      && (style != AM_PM_STYLE_GONE ==>
            && |r.text| == |raw| - 2
            && Reinsert(r.text, m1, m2) == raw
            && (style == AM_PM_STYLE_SMALL ==> r.small == Some(Span(m1, m2 - 1)))
            && (style != AM_PM_STYLE_SMALL ==> r.small.None?))
  {
    if Fires(raw, style) then Cut(raw, style, IndexOf(raw, MAGIC1), IndexOf(raw, MAGIC2))
    else Rendered(raw, None)
  }

  /** For the SMALL style the tag covers exactly the characters that lay
      strictly between the two sentinels. */
  lemma SmallTagCoversBracketedText(raw: seq<char>)
    requires Fires(raw, AM_PM_STYLE_SMALL)
    ensures var r := PostProcess(raw, AM_PM_STYLE_SMALL);
            var m1 := IndexOf(raw, MAGIC1);
            var m2 := IndexOf(raw, MAGIC2);
            && r.small == Some(Span(m1, m2 - 1))
            && r.small.value.end <= |r.text|
            && r.text[m1..m2 - 1] == raw[m1 + 1..m2]
  {
    var m1 := IndexOf(raw, MAGIC1);
    var m2 := IndexOf(raw, MAGIC2);
    assert PostProcess(raw, AM_PM_STYLE_SMALL) == Cut(raw, AM_PM_STYLE_SMALL, m1, m2);
  }

  /** In a bracketed pattern the first sentinels are the inserted ones. */
  lemma FirstSentinels(p: seq<char>, a: nat, b: nat)
    requires MAGIC1 !in p && MAGIC2 !in p
    requires a <= b < |p|
    ensures FirstAt(Bracket(p, a, b), MAGIC1, a) && FirstAt(Bracket(p, a, b), MAGIC2, b + 2)
  {
    var w := Bracket(p, a, b);
    assert forall c :: c in p[..a] ==> c in p;
    assert forall c :: c in p[a..b + 1] ==> c in p;
    assert w[..b + 2] == w[..a] + [MAGIC1] + w[a + 1..b + 2];
  }

  /** Post-processing a bracketed, sentinel-free pattern as if it were the
      formatted text. */
  lemma BracketSurgery(p: seq<char>, a: nat, b: nat, style: int)
    requires MAGIC1 !in p && MAGIC2 !in p
    requires a <= b < |p| && style != AM_PM_STYLE_NORMAL
    ensures var w := Bracket(p, a, b);
            var r := PostProcess(w, style);
            && Fires(w, style)
            && MAGIC1 !in r.text && MAGIC2 !in r.text
            && (style == AM_PM_STYLE_GONE ==> r.text == p[..a] + p[b + 1..])
            && (style != AM_PM_STYLE_GONE ==> r.text == p)
            && (style == AM_PM_STYLE_SMALL ==> r.small == Some(Span(a, b + 1)))
  {
    var w := Bracket(p, a, b);
    FirstSentinels(p, a, b);
    IndexOfFirst(w, MAGIC1, a);
    IndexOfFirst(w, MAGIC2, b + 2);
    var r := Cut(w, style, a, b + 2);
    assert PostProcess(w, style) == r;
    if style == AM_PM_STYLE_GONE {
      assert r.text == r.text[..a] + r.text[a..];
      assert r.text == p[..a] + p[b + 1..];
      assert forall c :: c in r.text ==> c in p[..a] || c in p[b + 1..];
    } else {
      var pre, mid, post := r.text[..a], r.text[a..b + 1], r.text[b + 1..];
      assert w == pre + [MAGIC1] + mid + [MAGIC2] + post;
      assert w[..a] == pre && w[a + 1..b + 2] == mid && w[b + 3..] == post;
      assert r.text == pre + mid + post;
      assert p == p[..a] + p[a..b + 1] + p[b + 1..];
    }
  }

  /** The two halves of the surgery fit together: a formatter that copies the
      rewritten pattern's literal text through unchanged would make the
      post-processing delete exactly the whitespace-and-`a` span for GONE,
      give back the pattern for SMALL (tagging that span) and for any other
      non-NORMAL style, and never leave a sentinel behind. */
  lemma SurgeryRoundTrip(p: seq<char>, style: int, isWs: char -> bool)
    requires MAGIC1 !in p && MAGIC2 !in p
    requires style != AM_PM_STYLE_NORMAL && FindAmPm(p).Some?
    ensures var b := FindAmPm(p).value;
            var a := WhitespaceStart(p, b, isWs);
            var r := PostProcess(Rewrite(p, style, isWs), style);
            && Fires(Rewrite(p, style, isWs), style)
            && MAGIC1 !in r.text && MAGIC2 !in r.text
            && (style == AM_PM_STYLE_GONE ==> r.text == p[..a] + p[b + 1..])
            && (style != AM_PM_STYLE_GONE ==> r.text == p)
            && (style == AM_PM_STYLE_SMALL ==> r.small == Some(Span(a, b + 1)))
  {
    var b := FindAmPm(p).value;
    var a := WhitespaceStart(p, b, isWs);
    RewriteIsBracket(p, style, isWs);
    BracketSurgery(p, a, b, style);
  }
}
