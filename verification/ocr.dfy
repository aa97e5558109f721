/** The recognition-result parser of `ScheduleOCRService`: the year/month
    header, the day-number fragments, and the text that sits in the same
    column as each day number. Recognition itself is outside the model:
    its output arrives as a sequence of fragments with box centres in the
    recogniser's normalised coordinates (origin at the lower left). */
module Ocr {
  import opened Wrappers
  import opened Seqs
  import opened Text

  /** One recognised text: its string, the recogniser's confidence (carried
      along untouched) and the centre of its bounding box. */
  datatype Fragment = Fragment(text: string, confidence: real, midX: real, midY: real)

  datatype OCRDayEntry = OCRDayEntry(dateNumber: int, rawText: string, confidence: real)

  datatype OCRMonthResult = OCRMonthResult(year: int, month: int, entries: seq<OCRDayEntry>)

  // ---------------------------------------------------------------------------
  // The header `(\d{4})\s*年\s*(\d{1,2})\s*月`

  /** `\d` of ICU regular expressions (decimal digits of any script); the
      ASCII, Arabic-Indic, extended Arabic-Indic and fullwidth blocks. */
  predicate IsRegexDigit(c: char) {
    IsAsciiDigit(c) || ('\U{660}' <= c <= '\U{669}') || ('\U{6F0}' <= c <= '\U{6F9}')
    || ('\U{FF10}' <= c <= '\U{FF19}')
  }

  /** `\s` of ICU regular expressions: tab, line feed, form feed, carriage
      return and the Unicode separators (categories Zs, Zl and Zp). */
  predicate IsRegexSpace(c: char) {
    c == '\n' || c == '\U{C}' || c == '\r' || IsSpaceOrTab(c) || c == '\U{2028}' || c == '\U{2029}'
  }

  predicate RegexDigitsIn(t: string, from: int, to: int)
    requires 0 <= from <= to <= |t|
  {
    forall x :: from <= x < to ==> IsRegexDigit(t[x])
  }

  predicate RegexSpacesIn(t: string, from: int, to: int)
    requires 0 <= from <= to <= |t|
  {
    forall x :: from <= x < to ==> IsRegexSpace(t[x])
  }

  /** End of the run of `\s` characters that starts at `j` (greedy `\s*`). */
  function SkipSpaces(t: string, j: nat): (k: nat)
    requires j <= |t|
    ensures j <= k <= |t|
    ensures RegexSpacesIn(t, j, k)
    ensures k < |t| ==> !IsRegexSpace(t[k])
    decreases |t| - j
  {
    if j < |t| && IsRegexSpace(t[j]) then SkipSpaces(t, j + 1) else j
  }

  /** The header laid out from position `i` with whitespace runs of lengths
      `w1`, `w2`, `w3`: four digits `ys`, `\s*`, 年, `\s*`, one or two digits
      `ms`, `\s*`, 月. */
  ghost predicate HeaderLayout(t: string, i: int, ys: string, ms: string, w1: nat, w2: nat, w3: nat) {
    var j := i + 4 + w1;
    var k := j + 1 + w2;
    var e := k + |ms|;
    var l := e + w3;
    0 <= i && l < |t|
    && |ys| == 4 && t[i..i + 4] == ys && RegexDigitsIn(t, i, i + 4)
    && RegexSpacesIn(t, i + 4, j) && t[j] == '年'
    && RegexSpacesIn(t, j + 1, k)
    && 1 <= |ms| <= 2 && t[k..e] == ms && RegexDigitsIn(t, k, e)
    && RegexSpacesIn(t, e, l) && t[l] == '月'
  }

  ghost predicate HeaderMatches(t: string, i: int, ys: string, ms: string) {
    exists w1: nat, w2: nat, w3: nat :: HeaderLayout(t, i, ys, ms, w1, w2, w3)
  }

  /** The month half `(\d{1,2})\s*月` anchored at `k`: the group and the
      position of 月. The group is greedy; giving back its second digit
      never helps, because a digit can be neither `\s` nor 月. */
  function MonthAt(t: string, k: nat): (r: Option<(string, nat)>)
    requires k <= |t|
    ensures r.Some? ==> var (ms, l) := r.value;
      1 <= |ms| <= 2 && k + |ms| <= l < |t| && t[k..k + |ms|] == ms
      && RegexDigitsIn(t, k, k + |ms|) && RegexSpacesIn(t, k + |ms|, l) && t[l] == '月'
  {
    if k >= |t| || !IsRegexDigit(t[k]) then
      None
    else
      var e := if k + 1 < |t| && IsRegexDigit(t[k + 1]) then k + 2 else k + 1;
      var l := SkipSpaces(t, e);
      if l >= |t| || t[l] != '月' then None else Some((t[k..e], l))
  }

  /** The regular expression's match anchored at `i`, as its two groups. */
  function HeaderAt(t: string, i: nat): (r: Option<(string, string)>)
    requires i <= |t|
    ensures r.Some? ==> HeaderMatches(t, i, r.value.0, r.value.1)
  {
    if i + 4 > |t| || !RegexDigitsIn(t, i, i + 4) then
      None
    else
      var j := SkipSpaces(t, i + 4);
      if j >= |t| || t[j] != '年' then
        None
      else
        var k := SkipSpaces(t, j + 1);
        var m := MonthAt(t, k);
        if m.None? then
          None
        else
          var (ms, l) := m.value;
          assert HeaderLayout(t, i, t[i..i + 4], ms, j - (i + 4), k - (j + 1), l - (k + |ms|));
          Some((t[i..i + 4], ms))
  }

  lemma {:induction false} SkipSpacesRun(t: string, a: nat, b: nat)
    requires a <= b < |t|
    requires RegexSpacesIn(t, a, b) && !IsRegexSpace(t[b])
    ensures SkipSpaces(t, a) == b
    decreases b - a
  {
    if a < b {
      SkipSpacesRun(t, a + 1, b);
    }
  }

  /** The month half laid out at `k` with `w3` spaces before 月 is found. */
  lemma MonthAtComplete(t: string, k: nat, ms: string, w3: nat)
    requires k + |ms| + w3 < |t|
    requires 1 <= |ms| <= 2 && t[k..k + |ms|] == ms && RegexDigitsIn(t, k, k + |ms|)
    requires RegexSpacesIn(t, k + |ms|, k + |ms| + w3) && t[k + |ms| + w3] == '月'
    ensures MonthAt(t, k).Some? && MonthAt(t, k).value.0 == ms
  {
    var e := k + |ms|;
    assert IsRegexDigit(t[k]);
    if |ms| == 1 {
      assert t[k + 1] == '月' || IsRegexSpace(t[k + 1]);
    } else {
      assert IsRegexDigit(t[k + 1]);
    }
    SkipSpacesRun(t, e, e + w3);
  }

  /** Wherever the header is laid out, the anchored match finds exactly its
      two groups: matching is complete as well as sound. */
  lemma HeaderAtComplete(t: string, i: nat, ys: string, ms: string, w1: nat, w2: nat, w3: nat)
    requires HeaderLayout(t, i, ys, ms, w1, w2, w3)
    ensures HeaderAt(t, i) == Some((ys, ms))
  {
    var j := i + 4 + w1;
    var k := j + 1 + w2;
    assert RegexDigitsIn(t, i, i + 4) && t[i..i + 4] == ys;
    SkipSpacesRun(t, i + 4, j);
    assert SkipSpaces(t, i + 4) == j && t[j] == '年';
    SkipSpacesRun(t, j + 1, k);
    assert SkipSpaces(t, j + 1) == k;
    MonthAtComplete(t, k, ms, w3);
  }

  /** Index of the first present value at or after `i`. */
  function FirstIndex<T>(hs: seq<Option<T>>, i: nat): (r: Option<nat>)
    requires i <= |hs|
    ensures r.None? ==> forall p :: i <= p < |hs| ==> hs[p].None?
    ensures r.Some? ==> i <= r.value < |hs| && hs[r.value].Some?
    ensures r.Some? ==> forall q :: i <= q < r.value ==> hs[q].None?
    decreases |hs| - i
  {
    if i == |hs| then None
    else if hs[i].Some? then Some(i)
    else FirstIndex(hs, i + 1)
  }

  /** The anchored match at every position of `t`, end included. */
  function AnchoredHeaders(t: string): (hs: seq<Option<(string, string)>>)
    ensures |hs| == |t| + 1
    ensures forall p :: 0 <= p <= |t| ==> hs[p] == HeaderAt(t, p)
  {
    seq(|t| + 1, p requires 0 <= p <= |t| => HeaderAt(t, p))
  }

  /** Position of the leftmost match at or after `i` (`firstMatch(in:range:)`). */
  function HeaderIndexFrom(t: string, i: nat): (r: Option<nat>)
    requires i <= |t|
    ensures r.None? ==> forall p :: i <= p <= |t| ==> HeaderAt(t, p).None?
    ensures r.Some? ==> i <= r.value <= |t| && HeaderAt(t, r.value).Some?
    ensures r.Some? ==> forall q :: i <= q < r.value ==> HeaderAt(t, q).None?
  {
    var hs := AnchoredHeaders(t);
    var r := FirstIndex(hs, i);
    assert r.None? ==> forall p :: i <= p <= |t| ==> hs[p].None?;
    r
  }

  /** The groups of the leftmost match in `t`, if any. */
  function FirstHeader(t: string): (r: Option<(string, string)>)
    ensures r.None? <==> forall p :: 0 <= p <= |t| ==> HeaderAt(t, p).None?
  {
    match HeaderIndexFrom(t, 0)
    case Some(p) => HeaderAt(t, p)
    case None => None
  }

  /** A match at `p` with none before it gives the groups of `FirstHeader`. */
  lemma FirstHeaderIs(t: string, p: nat, g: (string, string))
    requires p <= |t| && HeaderAt(t, p) == Some(g)
    requires forall q :: 0 <= q < p ==> HeaderAt(t, q).None?
    ensures FirstHeader(t) == Some(g)
  {
    var r := HeaderIndexFrom(t, 0);
    assert r.Some?;
    assert r.value == p;
  }

  /** The two groups as numbers; a group `Int` cannot read (digits of another
      script) falls back to the corresponding part of `now`. */
  function GroupValues(groups: (string, string), now: (int, int)): (int, int) {
    (ParseInt(groups.0).GetOr(now.0), ParseInt(groups.1).GetOr(now.1))
  }

  /** The first present value at or after `i`. */
  function FirstFound<T>(hs: seq<Option<T>>, i: nat): (r: Option<T>)
    requires i <= |hs|
    ensures (forall k :: i <= k < |hs| ==> hs[k].None?) ==> r.None?
    ensures forall k :: i <= k < |hs| && hs[k].Some? && (forall q :: i <= q < k ==> hs[q].None?) ==> r == hs[k]
    decreases |hs| - i
  {
    if i == |hs| then None
    else if hs[i].Some? then hs[i]
    else FirstFound(hs, i + 1)
  }

  function HeadersOf(texts: seq<string>): (hs: seq<Option<(string, string)>>)
    ensures |hs| == |texts|
    ensures forall k :: 0 <= k < |texts| ==> hs[k] == FirstHeader(texts[k])
  {
    if |texts| == 0 then [] else [FirstHeader(texts[0])] + HeadersOf(texts[1..])
  }

  /** `parseYearMonth(from:)`: the header of the first text, in order, that
      contains one, else the current year and month `now`. The month is not
      range-checked and the year group is not anchored to a word boundary. */
  function ParseYearMonth(texts: seq<string>, now: (int, int)): (r: (int, int))
    ensures (forall k :: 0 <= k < |texts| ==> FirstHeader(texts[k]).None?) ==> r == now
    ensures forall k :: 0 <= k < |texts| && FirstHeader(texts[k]).Some?
                        && (forall q :: 0 <= q < k ==> FirstHeader(texts[q]).None?)
                        ==> r == GroupValues(FirstHeader(texts[k]).value, now)
  {
    var hs := HeadersOf(texts);
    match FirstFound(hs, 0)
    case Some(groups) => GroupValues(groups, now)
    case None => now
  }

  /** With ASCII digits in the header, the year is 0...9999 and the month
      0...99, read straight from the digits. */
  lemma AsciiHeaderValues(ys: string, ms: string, now: (int, int))
    requires |ys| == 4 && AllAsciiDigits(ys)
    requires 1 <= |ms| <= 2 && AllAsciiDigits(ms)
    ensures GroupValues((ys, ms), now) == (DigitsValue(ys), DigitsValue(ms))
    ensures 0 <= DigitsValue(ys) <= 9999 && 0 <= DigitsValue(ms) <= 99
  {
    DigitsBound(ys);
    DigitsBound(ms);
  }

  lemma {:induction false} DigitsBound(s: string)
    requires AllAsciiDigits(s)
    ensures DigitsValue(s) < Pow10(|s|)
  {
    if |s| > 0 {
      DigitsBound(s[..|s| - 1]);
    }
  }

  function Pow10(n: nat): nat {
    if n == 0 then 1 else 10 * Pow10(n - 1)
  }

  // ---------------------------------------------------------------------------
  // Day numbers and the text in their column

  /** `Int(text)` succeeds with a value in 1...31. */
  predicate IsDayFragment(f: Fragment) {
    var n := ParseInt(f.text);
    n.Some? && 1 <= n.value <= 31
  }

  function Abs(x: real): real {
    if x < 0.0 then -x else x
  }

  /** The filter of `mapTextsToDates`: `f` does not read as an `Int`, its
      centre is less than 0.08 away horizontally, and its centre's y is more
      than 0.01 below the candidate's (in the recogniser's coordinates). */
  predicate IsNearby(candidate: Fragment, f: Fragment) {
    ParseInt(f.text).None?
    && Abs(f.midX - candidate.midX) < 0.08
    && f.midY - candidate.midY < -0.01
  }

  /** The day-number candidates, in source order. */
  function DayCandidates(texts: seq<Fragment>): (r: seq<Fragment>)
    ensures forall f :: f in r <==> f in texts && IsDayFragment(f)
    ensures forall k :: 0 <= k < |r| ==> IsDayFragment(r[k])
    ensures forall f :: multiset(r)[f] == if IsDayFragment(f) then multiset(texts)[f] else 0
  {
    FilterCounts(texts, IsDayFragment);
    Filter(texts, IsDayFragment)
  }

  function NearbyPredicate(candidate: Fragment): Fragment -> bool {
    f => IsNearby(candidate, f)
  }

  /** The fragments in `candidate`'s column, in source order. */
  function NearbyFragments(texts: seq<Fragment>, candidate: Fragment): (r: seq<Fragment>)
    ensures forall f :: f in r <==> f in texts && IsNearby(candidate, f)
  {
    Filter(texts, NearbyPredicate(candidate))
  }

  function TextsOf(fs: seq<Fragment>): (r: seq<string>)
    ensures |r| == |fs|
    ensures forall k :: 0 <= k < |fs| ==> r[k] == fs[k].text
  {
    if |fs| == 0 then [] else [fs[0].text] + TextsOf(fs[1..])
  }

  /** The entry for one candidate: its number, its column's texts joined with
      single spaces, and its own confidence. */
  function EntryFor(texts: seq<Fragment>, candidate: Fragment): OCRDayEntry
    requires IsDayFragment(candidate)
  {
    OCRDayEntry(ParseInt(candidate.text).value, Join(TextsOf(NearbyFragments(texts, candidate)), ' '), candidate.confidence)
  }

  /** `mapTextsToDates(texts:)`: one entry per day-number candidate, in
      source order and without merging equal day numbers. */
  function MapTextsToDates(texts: seq<Fragment>): (r: seq<OCRDayEntry>)
    ensures |r| == |DayCandidates(texts)|
    ensures forall k :: 0 <= k < |r| ==> r[k] == EntryFor(texts, DayCandidates(texts)[k])
    ensures forall k :: 0 <= k < |r| ==> 1 <= r[k].dateNumber <= 31
  {
    var candidates := DayCandidates(texts);
    if |candidates| == 0 then []
    else seq(|candidates|, k requires 0 <= k < |candidates| => EntryFor(texts, candidates[k]))
  }

  /** A fragment that reads as an `Int` — in range or not — never joins a
      column's text; in particular a candidate never joins its own. */
  lemma NumbersNeverNearby(texts: seq<Fragment>, candidate: Fragment, f: Fragment)
    requires ParseInt(f.text).Some?
    ensures f !in NearbyFragments(texts, candidate)
  {
  }

  /** No fragment in the column gives the empty text. */
  lemma EmptyColumnEmptyText(texts: seq<Fragment>, candidate: Fragment)
    requires forall f :: f in texts ==> !IsNearby(candidate, f)
    requires IsDayFragment(candidate)
    ensures EntryFor(texts, candidate).rawText == ""
  {
    FilterDropsAll(texts, NearbyPredicate(candidate));
  }

  /** The whole parse after recognition: trim each text, read the header
      from the trimmed texts and the entries from the trimmed fragments. */
  function Recognize(observations: seq<Fragment>, now: (int, int)): (r: OCRMonthResult)
    ensures r.entries == MapTextsToDates(Trimmed(observations))
    ensures (r.year, r.month) == ParseYearMonth(TextsOf(Trimmed(observations)), now)
  {
    var texts := Trimmed(observations);
    var (year, month) := ParseYearMonth(TextsOf(texts), now);
    OCRMonthResult(year, month, MapTextsToDates(texts))
  }

  /** Each fragment with its text trimmed of whitespace and newlines. */
  function Trimmed(observations: seq<Fragment>): (r: seq<Fragment>)
    ensures |r| == |observations|
    ensures forall k :: 0 <= k < |r| ==> r[k] == observations[k].(text := Trim(observations[k].text, IsWhitespaceOrNewline))
  {
    if |observations| == 0 then []
    else [observations[0].(text := Trim(observations[0].text, IsWhitespaceOrNewline))] + Trimmed(observations[1..])
  }
}
