/** `ShiftMappingService`: classifying a day's recognised text against the
    ordered shift catalog, and turning a recognition result into drafts. */
module ShiftMapping {
  import opened Wrappers
  import opened Text
  import opened Calendar
  import opened Models
  import opened Ocr

  /** A day with its recognised text and the shift name assigned to it;
      `date` is a day number. */
  datatype DayPlanDraft = DayPlanDraft(date: int, rawText: string, shiftName: string)

  /** Some keyword of `shift` occurs in `t`. */
  predicate ShiftMatches(shift: ShiftType, t: string) {
    exists j :: 0 <= j < |shift.keywordRules| && Contains(t, shift.keywordRules[j])
  }

  /** The inner loop over a shift's rules, from rule `j` on. */
  function AnyRuleFrom(t: string, rules: seq<string>, j: nat): (b: bool)
    requires j <= |rules|
    ensures b <==> exists q :: j <= q < |rules| && Contains(t, rules[q])
    decreases |rules| - j
  {
    if j == |rules| then false
    else if Contains(t, rules[j]) then true
    else AnyRuleFrom(t, rules, j + 1)
  }

  /** The outer loop over the catalog, from shift `i` on: the index of the
      first shift with a matching rule. */
  function FirstMatchFrom(t: string, shifts: seq<ShiftType>, i: nat): (r: Option<nat>)
    requires i <= |shifts|
    ensures r.Some? ==> i <= r.value < |shifts| && ShiftMatches(shifts[r.value], t)
    ensures r.Some? ==> forall q :: i <= q < r.value ==> !ShiftMatches(shifts[q], t)
    ensures r.None? ==> forall q :: i <= q < |shifts| ==> !ShiftMatches(shifts[q], t)
    decreases |shifts| - i
  {
    if i == |shifts| then None
    else if AnyRuleFrom(t, shifts[i].keywordRules, 0) then Some(i)
    else FirstMatchFrom(t, shifts, i + 1)
  }

  /** `matchShiftName(for:)`: strip U+0020 from the text, then the name of the
      first shift (catalog order) one of whose rules occurs in it; with no
      match, the first shift's name, or "" for an empty catalog. */
  function MatchShiftName(text: string, shifts: seq<ShiftType>): (r: string)
    ensures r == "" || exists i :: 0 <= i < |shifts| && r == shifts[i].name
    ensures |shifts| == 0 ==> r == ""
    ensures |shifts| > 0 && (forall q :: 0 <= q < |shifts| ==> !ShiftMatches(shifts[q], RemoveSpaces(text)))
            ==> r == shifts[0].name
  {
    var trimmed := RemoveSpaces(text);
    match FirstMatchFrom(trimmed, shifts, 0)
    case Some(i) => shifts[i].name
    case None => if |shifts| == 0 then "" else shifts[0].name
  }

  /** The first shift, in catalog order, with a rule occurring in the
      space-stripped text is the one chosen. */
  lemma FirstMatchWins(text: string, shifts: seq<ShiftType>, i: nat)
    requires i < |shifts| && ShiftMatches(shifts[i], RemoveSpaces(text))
    requires forall q :: 0 <= q < i ==> !ShiftMatches(shifts[q], RemoveSpaces(text))
    ensures MatchShiftName(text, shifts) == shifts[i].name
  {
    var first := FirstMatchFrom(RemoveSpaces(text), shifts, 0);
    assert first == Some(i);
  }

  /** Growing the rule list of a shift that comes after the one a text
      already matches does not change how that text is classified. */
  lemma LaterRulesIrrelevant(text: string, shifts: seq<ShiftType>, i: nat, j: nat, extra: seq<string>)
    requires i < j < |shifts|
    requires ShiftMatches(shifts[i], RemoveSpaces(text))
    ensures MatchShiftName(text, shifts[j := shifts[j].(keywordRules := shifts[j].keywordRules + extra)])
            == MatchShiftName(text, shifts)
  {
    var t := RemoveSpaces(text);
    var grown := shifts[j := shifts[j].(keywordRules := shifts[j].keywordRules + extra)];
    var first := FirstMatchFrom(t, shifts, 0);
    assert first.Some? && first.value <= i;
    var f := first.value;
    assert forall q :: 0 <= q <= f ==> grown[q] == shifts[q];
    FirstMatchWins(text, shifts, f);
    FirstMatchWins(text, grown, f);
  }

  /** `mapToDrafts(from:)`: one draft per entry, in entry order, dated by the
      lenient calendar (so no entry is skipped), carrying the entry's text
      verbatim and its classification. */
  function MapToDrafts(result: OCRMonthResult, shifts: seq<ShiftType>): (r: seq<DayPlanDraft>)
    ensures |r| == |result.entries|
    ensures forall k :: 0 <= k < |r| ==>
              && r[k].rawText == result.entries[k].rawText
              && r[k].shiftName == MatchShiftName(result.entries[k].rawText, shifts)
              && r[k].date == DateFromComponents(result.year, result.month, result.entries[k].dateNumber)
  {
    DraftsFor(result.year, result.month, result.entries, shifts)
  }

  function DraftsFor(year: int, month: int, entries: seq<OCRDayEntry>, shifts: seq<ShiftType>): (r: seq<DayPlanDraft>)
    ensures |r| == |entries|
    ensures forall k :: 0 <= k < |r| ==>
              r[k] == DayPlanDraft(DateFromComponents(year, month, entries[k].dateNumber),
                                   entries[k].rawText, MatchShiftName(entries[k].rawText, shifts))
  {
    if |entries| == 0 then []
    else
      var date := DateFromComponents(year, month, entries[0].dateNumber);
      [DayPlanDraft(date, entries[0].rawText, MatchShiftName(entries[0].rawText, shifts))]
      + DraftsFor(year, month, entries[1..], shifts)
  }

  /** When the header names a real month and every day number exists in it,
      each draft falls on that very year, month and day. */
  lemma DraftsOnTheirDays(result: OCRMonthResult, shifts: seq<ShiftType>, k: nat)
    requires k < |result.entries|
    requires IsValidDate(CivilDate(result.year, result.month, result.entries[k].dateNumber))
    ensures ToCivil(MapToDrafts(result, shifts)[k].date)
            == CivilDate(result.year, result.month, result.entries[k].dateNumber)
  {
    ComponentsRoundTrip(result.year, result.month, result.entries[k].dateNumber);
  }
}
