/** The review screen shown after recognition: the drafts in date order, a
    shift picked per row, and the batch edit that sets one shift on a range
    of days. */
module Review {
  import opened Calendar
  import opened Models
  import opened ShiftMapping

  // ---------------------------------------------------------------------------
  // Date order

  /** Drafts whose days never decrease. */
  predicate Ascending(s: seq<DayPlanDraft>) {
    forall i, j :: 0 <= i < j < |s| ==> s[i].date <= s[j].date
  }

  /** Puts `x` before the first draft of `s` that comes no earlier than it. */
  function InsertByDate(x: DayPlanDraft, s: seq<DayPlanDraft>): (r: seq<DayPlanDraft>)
    requires Ascending(s)
    ensures Ascending(r)
    ensures multiset(r) == multiset(s) + multiset{x}
    ensures |r| == |s| + 1
    ensures r[0] == x || (|s| > 0 && r[0] == s[0])
    decreases |s|
  {
    if |s| == 0 then [x]
    else if x.date <= s[0].date then
      assert Ascending([x] + s);
      [x] + s
    else
      var rest := InsertByDate(x, s[1..]);
      assert multiset(s) == multiset{s[0]} + multiset(s[1..]) by {
        assert s == [s[0]] + s[1..];
      }
      assert s[0].date <= rest[0].date;
      assert Ascending([s[0]] + rest) by {
        forall i, j | 0 <= i < j < |rest| + 1
          ensures ([s[0]] + rest)[i].date <= ([s[0]] + rest)[j].date
        {
          if i == 0 {
            assert rest[0].date <= rest[j - 1].date;
          }
        }
      }
      [s[0]] + rest
  }

  /** The review list: `drafts.sorted(by: { $0.date < $1.date })`. Swift's
      sort is not promised to be stable, so only the order of days and the
      drafts themselves are stated. */
  function SortByDate(drafts: seq<DayPlanDraft>): (r: seq<DayPlanDraft>)
    ensures Ascending(r)
    ensures multiset(r) == multiset(drafts)
    ensures |r| == |drafts|
    decreases |drafts|
  {
    if |drafts| == 0 then []
    else
      var rest := SortByDate(drafts[1..]);
      assert drafts == [drafts[0]] + drafts[1..];
      InsertByDate(drafts[0], rest)
  }

  /** Drafts already in date order are shown as they are. */
  lemma {:induction false} SortedStays(drafts: seq<DayPlanDraft>)
    requires Ascending(drafts)
    ensures SortByDate(drafts) == drafts
    decreases |drafts|
  {
    if |drafts| > 0 {
      var rest := drafts[1..];
      assert Ascending(rest) by {
        forall i, j | 0 <= i < j < |rest|
          ensures rest[i].date <= rest[j].date
        {
          assert rest[i] == drafts[i + 1] && rest[j] == drafts[j + 1];
        }
      }
      SortedStays(rest);
      assert drafts == [drafts[0]] + rest;
    }
  }

  // ---------------------------------------------------------------------------
  // Picking a shift for one row

  /** The row menu's button: sets row `i`'s shift to that of catalog entry
      `q` and leaves every other row, and the row's day and text, alone. */
  function SelectShift(drafts: seq<DayPlanDraft>, i: nat, shifts: seq<ShiftType>, q: nat): (r: seq<DayPlanDraft>)
    requires i < |drafts| && q < |shifts|
    ensures |r| == |drafts|
    ensures r[i].shiftName == shifts[q].name
    ensures r[i].date == drafts[i].date && r[i].rawText == drafts[i].rawText
    ensures forall j :: 0 <= j < |r| && j != i ==> r[j] == drafts[j]
  {
    drafts[i := drafts[i].(shiftName := shifts[q].name)]
  }

  /** Picking twice for the same row keeps only the second pick. */
  lemma SelectShiftLastWins(drafts: seq<DayPlanDraft>, i: nat, shifts: seq<ShiftType>, q1: nat, q2: nat)
    requires i < |drafts| && q1 < |shifts| && q2 < |shifts|
    ensures SelectShift(SelectShift(drafts, i, shifts, q1), i, shifts, q2) == SelectShift(drafts, i, shifts, q2)
  {
  }

  // ---------------------------------------------------------------------------
  // The batch edit

  /** The picker's initial value on appearing: what was chosen before, else
      the first shift's name, else the empty name. */
  function DefaultSelection(current: string, shifts: seq<ShiftType>): (r: string)
    ensures current != "" ==> r == current
    ensures current == "" && |shifts| > 0 ==> r == shifts[0].name
    ensures current == "" && |shifts| == 0 ==> r == ""
  {
    if current != "" then current
    else if |shifts| == 0 then ""
    else shifts[0].name
  }

  /** Whether a draft's day lies between the days of the two picked instants,
      both ends included. */
  predicate InBatch(d: DayPlanDraft, startDate: int, endDate: int) {
    StartOfDay(startDate) <= d.date <= StartOfDay(endDate)
  }

  /** `BatchEditView.apply()`: every draft whose day lies in the picked range
      gets the selected shift; no draft is added, removed, moved or redated,
      and no text changes. A range whose first day is after its last day
      changes nothing. */
  function BatchApply(drafts: seq<DayPlanDraft>, startDate: int, endDate: int, name: string): (r: seq<DayPlanDraft>)
    ensures |r| == |drafts|
    ensures forall k :: 0 <= k < |r| ==>
              && r[k].date == drafts[k].date && r[k].rawText == drafts[k].rawText
              && r[k].shiftName == (if InBatch(drafts[k], startDate, endDate) then name else drafts[k].shiftName)
    ensures StartOfDay(startDate) > StartOfDay(endDate) ==> r == drafts
    decreases |drafts|
  {
    if |drafts| == 0 then []
    else
      var d := drafts[0];
      var d' := if InBatch(d, startDate, endDate) then d.(shiftName := name) else d;
      [d'] + BatchApply(drafts[1..], startDate, endDate, name)
  }

  /** Applying the same batch edit twice is applying it once. */
  lemma BatchApplyIdempotent(drafts: seq<DayPlanDraft>, startDate: int, endDate: int, name: string)
    ensures var once := BatchApply(drafts, startDate, endDate, name);
            BatchApply(once, startDate, endDate, name) == once
  {
    var once := BatchApply(drafts, startDate, endDate, name);
    var twice := BatchApply(once, startDate, endDate, name);
    forall k | 0 <= k < |twice|
      ensures twice[k] == once[k]
    {
      assert InBatch(once[k], startDate, endDate) == InBatch(drafts[k], startDate, endDate);
    }
  }

  /** Two instants on the same day pick the same one-day range: only the
      drafts of that day change, even when the first instant is later. */
  lemma SameDayBatch(drafts: seq<DayPlanDraft>, startDate: int, endDate: int, name: string)
    requires StartOfDay(startDate) == StartOfDay(endDate)
    ensures forall k :: 0 <= k < |drafts| ==>
              (BatchApply(drafts, startDate, endDate, name)[k] != drafts[k] ==> drafts[k].date == StartOfDay(startDate))
  {
  }
}
