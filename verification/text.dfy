/** Strings as sequences of Unicode scalars: the character classes, substring
    search, trimming, splitting, joining and integer parsing the app takes from
    Swift and Foundation. */
module Text {
  import opened Wrappers
  import opened Seqs

  // ---------------------------------------------------------------------------
  // Character classes

  /** Foundation's `CharacterSet.whitespaces`: Unicode category Zs plus tab. */
  predicate IsSpaceOrTab(c: char) {
    c == '\t' || c == ' ' || c == '\U{A0}' || c == '\U{1680}'
    || ('\U{2000}' <= c <= '\U{200A}') || c == '\U{202F}' || c == '\U{205F}' || c == '\U{3000}'
  }

  /** Foundation's `CharacterSet.newlines`. */
  predicate IsNewline(c: char) {
    ('\n' <= c <= '\r') || c == '\U{85}' || c == '\U{2028}' || c == '\U{2029}'
  }

  /** Foundation's `CharacterSet.whitespacesAndNewlines`. */
  predicate IsWhitespaceOrNewline(c: char) {
    IsSpaceOrTab(c) || IsNewline(c)
  }

  predicate IsAsciiDigit(c: char) {
    '0' <= c <= '9'
  }

  predicate AllAsciiDigits(s: string) {
    forall k :: 0 <= k < |s| ==> IsAsciiDigit(s[k])
  }

  function DigitValue(c: char): nat
    requires IsAsciiDigit(c)
  {
    c as int - '0' as int
  }

  function DigitChar(d: nat): (c: char)
    requires d < 10
    ensures IsAsciiDigit(c) && DigitValue(c) == d
  {
    ('0' as int + d) as char
  }

  // ---------------------------------------------------------------------------
  // Substring search

  /** `sub` occurs in `s` starting at position `i`. */
  ghost predicate OccursAt(s: string, sub: string, i: int) {
    0 <= i && i + |sub| <= |s| && s[i..i + |sub|] == sub
  }

  /** Left-to-right search for `sub` in `s` from position `i` on. */
  function OccursFrom(s: string, sub: string, i: nat): (b: bool)
    ensures b <==> exists k :: i <= k && OccursAt(s, sub, k)
    decreases |s| - i
  {
    if i + |sub| > |s| then false
    else if sub <= s[i..] then
      assert s[i..][..|sub|] == s[i..i + |sub|];
      assert OccursAt(s, sub, i);
      true
    else
      assert s[i..][..|sub|] == s[i..i + |sub|];
      OccursFrom(s, sub, i + 1)
  }

  /** `String.contains(_:)` with a string argument: `sub` is a contiguous
      piece of `s`. The empty string is a piece of every string. */
  function Contains(s: string, sub: string): (b: bool)
    ensures b <==> exists k :: OccursAt(s, sub, k)
  {
    OccursFrom(s, sub, 0)
  }

  // ---------------------------------------------------------------------------
  // Removing and trimming characters

  predicate NotSpace(c: char) {
    c != ' '
  }

  /** `replacingOccurrences(of: " ", with: "")`: only U+0020 goes; tabs,
      newlines and other spaces stay, in their order. */
  function RemoveSpaces(s: string): (r: string)
    ensures ' ' !in r
    ensures forall c :: c != ' ' ==> multiset(r)[c] == multiset(s)[c]
    ensures ' ' !in s ==> r == s
  {
    FilterCounts(s, NotSpace);
    if ' ' !in s then
      FilterKeepsAll(s, NotSpace);
      Filter(s, NotSpace)
    else
      Filter(s, NotSpace)
  }

  function TrimStart(s: string, drop: char -> bool): (r: string)
    ensures |r| <= |s| && r == s[|s| - |r|..]
    ensures forall k :: 0 <= k < |s| - |r| ==> drop(s[k])
    ensures |r| > 0 ==> !drop(r[0])
    decreases |s|
  {
    if |s| == 0 || !drop(s[0]) then s else TrimStart(s[1..], drop)
  }

  function TrimEnd(s: string, drop: char -> bool): (r: string)
    ensures |r| <= |s| && r == s[..|r|]
    ensures forall k :: |r| <= k < |s| ==> drop(s[k])
    ensures |r| > 0 ==> !drop(r[|r| - 1])
    decreases |s|
  {
    if |s| == 0 || !drop(s[|s| - 1]) then s else TrimEnd(s[..|s| - 1], drop)
  }

  /** `trimmingCharacters(in:)`: the result is a contiguous piece of `s`
      whose ends are kept characters, and everything cut off is dropped. */
  function Trim(s: string, drop: char -> bool): (r: string)
    ensures TrimOffset(s, drop) + |r| <= |s|
    ensures r == s[TrimOffset(s, drop)..TrimOffset(s, drop) + |r|]
    ensures forall k :: 0 <= k < TrimOffset(s, drop) ==> drop(s[k])
    ensures forall k :: TrimOffset(s, drop) + |r| <= k < |s| ==> drop(s[k])
    ensures |r| > 0 ==> !drop(r[0]) && !drop(r[|r| - 1])
  {
    TrimEnd(TrimStart(s, drop), drop)
  }

  /** How many characters Trim cuts from the front. */
  function TrimOffset(s: string, drop: char -> bool): (i: nat)
    ensures i <= |s|
  {
    |s| - |TrimStart(s, drop)|
  }

  /** Trimming a string whose ends are kept characters changes nothing. */
  lemma TrimKeeps(s: string, drop: char -> bool)
    requires |s| > 0 ==> !drop(s[0]) && !drop(s[|s| - 1])
    ensures Trim(s, drop) == s
  {
  }

  /** Trimming leaves nothing exactly when every character is dropped. */
  lemma TrimEmptyIff(s: string, drop: char -> bool)
    ensures Trim(s, drop) == "" <==> forall k :: 0 <= k < |s| ==> drop(s[k])
  {
    var r := Trim(s, drop);
    var i := TrimOffset(s, drop);
    if r != "" {
      assert s[i] == r[0];
    }
  }

  // ---------------------------------------------------------------------------
  // Splitting and joining on one separator character

  /** `joined(separator:)` with a one-character separator. */
  function Join(parts: seq<string>, sep: char): string {
    if |parts| == 0 then ""
    else if |parts| == 1 then parts[0]
    else parts[0] + [sep] + Join(parts[1..], sep)
  }

  /** All `sep`-separated fields of `s`, empty ones included; joining them
      back gives `s`. */
  function Fields(s: string, sep: char): (r: seq<string>)
    ensures |r| >= 1
    ensures forall k :: 0 <= k < |r| ==> sep !in r[k]
    ensures Join(r, sep) == s
    decreases |s|
  {
    if |s| == 0 then [""]
    else
      var rest := Fields(s[1..], sep);
      assert s == [s[0]] + s[1..];
      if s[0] == sep then
        assert ([""] + rest)[1..] == rest;
        [""] + rest
      else
        var r := [[s[0]] + rest[0]] + rest[1..];
        assert r[1..] == rest[1..];
        if |rest| == 1 then r
        else
          assert Join(rest, sep) == rest[0] + [sep] + Join(rest[1..], sep);
          r
  }

  lemma {:induction false} FieldsNoSeparator(a: string, sep: char)
    requires sep !in a
    ensures Fields(a, sep) == [a]
    decreases |a|
  {
    if |a| > 0 {
      FieldsNoSeparator(a[1..], sep);
      assert a == [a[0]] + a[1..];
    }
  }

  lemma {:induction false} FieldsAfterSeparator(a: string, b: string, sep: char)
    requires sep !in a
    ensures Fields(a + [sep] + b, sep) == [a] + Fields(b, sep)
    decreases |a|
  {
    var s := a + [sep] + b;
    if |a| == 0 {
      assert s[1..] == b;
    } else {
      assert s[1..] == a[1..] + [sep] + b;
      FieldsAfterSeparator(a[1..], b, sep);
      assert a == [a[0]] + a[1..];
    }
  }

  /** Joining separator-free parts and cutting at the separator gives the parts back. */
  lemma {:induction false} FieldsOfJoin(parts: seq<string>, sep: char)
    requires |parts| >= 1
    requires forall k :: 0 <= k < |parts| ==> sep !in parts[k]
    ensures Fields(Join(parts, sep), sep) == parts
    decreases |parts|
  {
    if |parts| == 1 {
      FieldsNoSeparator(parts[0], sep);
    } else {
      FieldsOfJoin(parts[1..], sep);
      FieldsAfterSeparator(parts[0], Join(parts[1..], sep), sep);
      assert [parts[0]] + parts[1..] == parts;
    }
  }

  /** Cutting at a separator placed between two strings cuts each of them
      separately. */
  lemma {:induction false} FieldsConcat(a: string, b: string, sep: char)
    ensures Fields(a + [sep] + b, sep) == Fields(a, sep) + Fields(b, sep)
    decreases |a|
  {
    if |a| == 0 {
      FieldsAfterSeparator(a, b, sep);
      assert Fields(a, sep) == [""];
    } else {
      var s := a + [sep] + b;
      assert s[0] == a[0] && s[1..] == a[1..] + [sep] + b;
      FieldsConcat(a[1..], b, sep);
    }
  }

  predicate IsNonEmpty(x: string) {
    x != ""
  }

  /** `split(separator:)`, which omits empty pieces by default: the maximal
      non-empty runs of non-separator characters, in order. */
  function Split(s: string, sep: char): (r: seq<string>)
    ensures forall k :: 0 <= k < |r| ==> r[k] != "" && sep !in r[k]
  {
    Filter(Fields(s, sep), IsNonEmpty)
  }

  /** Splitting at a separator placed between two strings splits each of
      them separately. */
  lemma SplitConcat(a: string, b: string, sep: char)
    ensures Split(a + [sep] + b, sep) == Split(a, sep) + Split(b, sep)
  {
    FieldsConcat(a, b, sep);
    FilterConcat(Fields(a, sep), Fields(b, sep), IsNonEmpty);
  }

  /** Splitting a join of non-empty, separator-free parts gives the parts back. */
  lemma SplitOfJoin(parts: seq<string>, sep: char)
    requires forall k :: 0 <= k < |parts| ==> parts[k] != "" && sep !in parts[k]
    ensures Split(Join(parts, sep), sep) == parts
  {
    if |parts| >= 1 {
      FieldsOfJoin(parts, sep);
      FilterKeepsAll(parts, IsNonEmpty);
    } else {
      assert Fields("", sep) == [""];
    }
  }

  // ---------------------------------------------------------------------------
  // Integers

  const Int64Min: int := -0x8000_0000_0000_0000
  const Int64Max: int := 0x7FFF_FFFF_FFFF_FFFF

  /** Value of a decimal digit string, most significant digit first. */
  function DigitsValue(s: string): nat
    requires AllAsciiDigits(s)
  {
    if |s| == 0 then 0 else 10 * DigitsValue(s[..|s| - 1]) + DigitValue(s[|s| - 1])
  }

  /** The shape of an integer literal: an optional `+` or `-`, then one or
      more ASCII digits and nothing else. */
  predicate IntShape(s: string) {
    && |s| > 0 && IsAsciiDigit(s[|s| - 1])
    && forall k :: 0 <= k < |s| ==> IsAsciiDigit(s[k]) || (k == 0 && (s[k] == '+' || s[k] == '-'))
  }

  /** The integer a literal of that shape denotes, whatever its width. */
  function LiteralValue(s: string): int
    requires IntShape(s)
  {
    if IsAsciiDigit(s[0]) then DigitsValue(s)
    else
      assert forall k :: 0 <= k < |s[1..]| ==> s[1..][k] == s[k + 1];
      if s[0] == '-' then 0 - DigitsValue(s[1..]) else DigitsValue(s[1..])
  }

  /** Swift's `Int(_: String)`: an optional `+` or `-`, then one or more ASCII
      digits and nothing else, with a value that fits a 64-bit `Int`. */
  function ParseInt(s: string): (r: Option<int>)
    ensures r.Some? ==> Int64Min <= r.value <= Int64Max
    ensures r.Some? ==> |s| > 0 && forall k :: 0 <= k < |s| ==> IsAsciiDigit(s[k]) || (k == 0 && (s[k] == '+' || s[k] == '-'))
    ensures r.Some? <==> IntShape(s) && Int64Min <= LiteralValue(s) <= Int64Max
    ensures r.Some? ==> r.value == LiteralValue(s)
  {
    var signed := |s| > 0 && (s[0] == '+' || s[0] == '-');
    var digits := if signed then s[1..] else s;
    if |digits| == 0 || !AllAsciiDigits(digits) then None
    else
      var v: int := if signed && s[0] == '-' then 0 - DigitsValue(digits) as int else DigitsValue(digits);
      if Int64Min <= v <= Int64Max then Some(v) else None
  }

  /** Decimal digits of `n`, without leading zeros. */
  function ShowNat(n: nat): (s: string)
    ensures |s| > 0 && AllAsciiDigits(s)
  {
    if n < 10 then [DigitChar(n)] else ShowNat(n / 10) + [DigitChar(n % 10)]
  }

  /** `String(n)` for an integer. */
  function ShowInt(n: int): string {
    if n < 0 then "-" + ShowNat(-n) else ShowNat(n)
  }

  lemma {:induction false} DigitsOfShowNat(n: nat)
    ensures DigitsValue(ShowNat(n)) == n
  {
    if n >= 10 {
      DigitsOfShowNat(n / 10);
      var s := ShowNat(n);
      assert s[..|s| - 1] == ShowNat(n / 10);
    }
  }

  /** Every 64-bit integer printed in decimal parses back to itself. */
  lemma ParseShowInt(n: int)
    requires Int64Min <= n <= Int64Max
    ensures ParseInt(ShowInt(n)) == Some(n)
  {
    DigitsOfShowNat(if n < 0 then -n else n);
    if n < 0 {
      assert ShowInt(n)[1..] == ShowNat(-n);
    }
  }

  /** A leading zero adds nothing to a digit string's value. */
  lemma {:induction false} DigitsLeadingZero(d: string)
    requires AllAsciiDigits(d)
    ensures DigitsValue("0" + d) == DigitsValue(d)
    decreases |d|
  {
    var s := "0" + d;
    if |d| == 0 {
      assert s[..|s| - 1] == "";
    } else {
      assert s[..|s| - 1] == "0" + d[..|d| - 1];
      assert s[|s| - 1] == d[|d| - 1];
      DigitsLeadingZero(d[..|d| - 1]);
    }
  }

  /** The value a sign (or none) gives to a digit string. */
  function SignedValue(sign: string, d: string): int
    requires AllAsciiDigits(d)
  {
    if sign == "-" then 0 - DigitsValue(d) as int else DigitsValue(d) as int
  }

  function InRange(v: int): Option<int> {
    if Int64Min <= v <= Int64Max then Some(v) else None
  }

  lemma ParseUnsignedDigits(d: string)
    requires |d| > 0 && AllAsciiDigits(d)
    ensures ParseInt(d) == InRange(DigitsValue(d))
  {
  }

  lemma ParseSignDigits(c: char, d: string)
    requires c == '+' || c == '-'
    requires |d| > 0 && AllAsciiDigits(d)
    ensures ParseInt([c] + d) == InRange(SignedValue([c], d))
  {
    assert ([c] + d)[1..] == d;
  }

  /** What `Int` reads from a sign (or none) followed by ASCII digits. */
  lemma ParseSignedDigits(sign: string, d: string)
    requires sign == "" || sign == "+" || sign == "-"
    requires |d| > 0 && AllAsciiDigits(d)
    ensures ParseInt(sign + d) == InRange(SignedValue(sign, d))
  {
    if sign == "" {
      assert sign + d == d;
      ParseUnsignedDigits(d);
    } else {
      assert sign == [sign[0]];
      ParseSignDigits(sign[0], d);
    }
  }

  /** `Int("+5") == Int("5")`: a leading plus sign changes nothing. */
  lemma LeadingPlusIgnored(d: string)
    requires |d| > 0 && AllAsciiDigits(d)
    ensures ParseInt("+" + d) == ParseInt(d)
  {
    ParseSignedDigits("+", d);
    ParseSignedDigits("", d);
    assert "" + d == d;
  }

  /** `Int("007") == Int("7")` and `Int("-05") == Int("-5")`: a zero right
      after the sign, or at the start, changes nothing. */
  lemma LeadingZeroIgnored(sign: string, d: string)
    requires sign == "" || sign == "+" || sign == "-"
    requires |d| > 0 && AllAsciiDigits(d)
    ensures ParseInt(sign + "0" + d) == ParseInt(sign + d)
  {
    DigitsLeadingZero(d);
    assert sign + "0" + d == sign + ("0" + d);
    ParseSignedDigits(sign, "0" + d);
    ParseSignedDigits(sign, d);
  }

  /** `Int("-0")` is zero. */
  lemma NegativeZero()
    ensures ParseInt("-0") == Some(0)
  {
    assert "-0"[1..] == "0";
    assert "0"[..0] == "";
  }

  /** Two-digit, zero-padded decimal, as in "09". */
  function Pad2(n: nat): (s: string)
    requires n < 100
    ensures |s| == 2 && AllAsciiDigits(s) && DigitsValue(s) == n
  {
    var s := [DigitChar(n / 10), DigitChar(n % 10)];
    assert s[..1] == [DigitChar(n / 10)] && s[..1][..0] == [];
    assert DigitsValue(s[..1]) == n / 10;
    s
  }
}
