/** `SchedulePlanner`: clock-time parsing, alarm derivation for one day's
    shift, and the month reconciler that replaces a month's plans and alarms
    in the store and in the external alarm scheduler. */
module Planner {
  import opened Wrappers
  import opened Seqs
  import opened Text
  import opened Calendar
  import opened Models
  import opened ShiftMapping

  // ---------------------------------------------------------------------------
  // Clock times

  /** `Int(piece) ?? 0`. */
  function PieceValue(piece: string): int {
    ParseInt(piece).GetOr(0)
  }

  /** `dateWithTime(date:time:)`: the instant `hour:minute` on `day`, where
      `time` must split on ':' (empty pieces dropped) into exactly two
      pieces and a piece that does not read as an `Int` counts as 0. Hours
      and minutes beyond a day roll over, as the lenient calendar does. */
  function DateWithTime(day: int, time: string): (r: Option<int>)
    ensures r.Some? <==> |Split(time, ':')| == 2
  {
    var parts := Split(time, ':');
    if |parts| != 2 then None
    else Some(day * MinutesPerDay + 60 * PieceValue(parts[0]) + PieceValue(parts[1]))
  }

  /** A time written the way the editor and the catalog write it, "HH:MM". */
  function Clock(hour: nat, minute: nat): string
    requires hour < 100 && minute < 100
  {
    Pad2(hour) + ":" + Pad2(minute)
  }

  lemma ParsePad2(n: nat)
    requires n < 100
    ensures ParseInt(Pad2(n)) == Some(n)
  {
    var s := Pad2(n);
    assert s[0] != '+' && s[0] != '-' by { assert IsAsciiDigit(s[0]); }
  }

  lemma SplitClock(hour: nat, minute: nat)
    requires hour < 100 && minute < 100
    ensures Split(Clock(hour, minute), ':') == [Pad2(hour), Pad2(minute)]
  {
    var a, b := Pad2(hour), Pad2(minute);
    assert !IsAsciiDigit(':');
    assert ':' !in a && ':' !in b;
    assert Join([a, b], ':') == Clock(hour, minute);
    SplitOfJoin([a, b], ':');
  }

  /** "HH:MM" reads back as HH hours and MM minutes after the day's start. */
  lemma ClockRoundTrip(day: int, hour: nat, minute: nat)
    requires hour < 100 && minute < 100
    ensures DateWithTime(day, Clock(hour, minute)) == Some(day * MinutesPerDay + 60 * hour + minute)
  {
    SplitClock(hour, minute);
    ParsePad2(hour);
    ParsePad2(minute);
  }

  /** A piece that is not a number counts as zero: "xx:30" is half past
      midnight. */
  lemma NonNumericPieceIsZero(day: int, a: string, b: string)
    requires a != "" && ':' !in a && ParseInt(a).None?
    requires b != "" && ':' !in b
    ensures DateWithTime(day, a + ":" + b) == Some(day * MinutesPerDay + PieceValue(b))
  {
    assert Join([a, b], ':') == a + ":" + b;
    SplitOfJoin([a, b], ':');
  }

  // ---------------------------------------------------------------------------
  // One day's alarms

  /** The start and end instants of `shift` on `day`: no window when the
      start time does not parse; an unparseable end counts as the start; an
      end not after the start is moved one day later. */
  function ShiftWindow(shift: ShiftType, day: int): (r: Option<(int, int)>)
    ensures r.Some? <==> DateWithTime(day, shift.startTime).Some?
    ensures r.Some? ==> r.value.0 == DateWithTime(day, shift.startTime).value
    ensures r.Some? ==>
      var end := DateWithTime(day, shift.endTime).GetOr(r.value.0);
      r.value.1 == (if end <= r.value.0 then end + MinutesPerDay else end)
  {
    match DateWithTime(day, shift.startTime)
    case None => None
    case Some(start) =>
      var end := DateWithTime(day, shift.endTime).GetOr(start);
      Some((start, if end <= start then end + MinutesPerDay else end))
  }

  /** For times written as valid clock readings the end lies strictly after
      the start and at most one day later; it is the end reading on the next
      day exactly when that reading is not later than the start reading. */
  lemma WindowOfClocks(shift: ShiftType, day: int, h1: nat, m1: nat, h2: nat, m2: nat)
    requires h1 < 24 && m1 < 60 && h2 < 24 && m2 < 60
    requires shift.startTime == Clock(h1, m1) && shift.endTime == Clock(h2, m2)
    ensures ShiftWindow(shift, day).Some?
    ensures var (s, e) := ShiftWindow(shift, day).value;
            && s == day * MinutesPerDay + 60 * h1 + m1
            && s < e <= s + MinutesPerDay
            && e == day * MinutesPerDay + 60 * h2 + m2 + (if 60 * h2 + m2 <= 60 * h1 + m1 then MinutesPerDay else 0)
  {
    ClockRoundTrip(day, h1, m1);
    ClockRoundTrip(day, h2, m2);
  }

  /** An end time that does not parse makes the shift last exactly a day. */
  lemma UnparseableEndIsOneDay(shift: ShiftType, day: int)
    requires DateWithTime(day, shift.startTime).Some? && DateWithTime(day, shift.endTime).None?
    ensures ShiftWindow(shift, day).value.1 == ShiftWindow(shift, day).value.0 + MinutesPerDay
  {
  }

  predicate IsEnabled(t: AlarmTemplate) {
    t.enabled
  }

  /** The templates `buildAlarms` walks: the enabled ones, in order. */
  function EnabledTemplates(shift: ShiftType): (r: seq<AlarmTemplate>)
    ensures forall t :: t in r <==> t in shift.alarmTemplates && t.enabled
  {
    Filter(shift.alarmTemplates, IsEnabled)
  }

  /** An alarm's instant: the template's offset applied to the start or the
      end, as its anchor says. */
  function AlarmTime(t: AlarmTemplate, window: (int, int)): int {
    (if GetAnchor(t) == Start then window.0 else window.1) + t.offsetMinutes
  }

  function AlarmsFrom(ts: seq<AlarmTemplate>, window: (int, int), shiftName: string, firstId: nat): (r: seq<AlarmInstance>)
    ensures |r| == |ts|
    ensures forall k :: 0 <= k < |r| ==>
              r[k] == AlarmInstance(AlarmTime(ts[k], window), ts[k].labelText, true, firstId + k, shiftName)
  {
    if |ts| == 0 then []
    else [AlarmInstance(AlarmTime(ts[0], window), ts[0].labelText, true, firstId, shiftName)]
         + AlarmsFrom(ts[1..], window, shiftName, firstId + 1)
  }

  /** `buildAlarms(for:on:)`: nothing when the start time does not parse;
      otherwise one enabled alarm per enabled template, in template order,
      at the anchored instant plus the offset, labelled as the template and
      tagged with the shift's name. Scheduler tokens are handed out from
      `firstId` on. */
  function BuildAlarms(shift: ShiftType, day: int, firstId: nat): (r: seq<AlarmInstance>)
    ensures ShiftWindow(shift, day).None? ==> r == []
    ensures ShiftWindow(shift, day).Some? ==>
      var ts := EnabledTemplates(shift);
      var (start, end) := ShiftWindow(shift, day).value;
      && |r| == |ts|
      && forall k :: 0 <= k < |r| ==>
           && r[k].dateTime == (if ts[k].anchorRaw == "end" then end else start) + ts[k].offsetMinutes
           && r[k].labelText == ts[k].labelText
           && r[k].enabled
           && r[k].shiftName == shift.name
           && r[k].alarmKitId == firstId + k
  {
    match ShiftWindow(shift, day)
    case None => []
    case Some(window) => AlarmsFrom(EnabledTemplates(shift), window, shift.name, firstId)
  }

  /** A shift whose templates are all disabled rings nothing. */
  lemma DisabledTemplatesRingNothing(shift: ShiftType, day: int, firstId: nat)
    requires forall k :: 0 <= k < |shift.alarmTemplates| ==> !shift.alarmTemplates[k].enabled
    ensures BuildAlarms(shift, day, firstId) == []
  {
    FilterDropsAll(shift.alarmTemplates, IsEnabled);
  }

  // ---------------------------------------------------------------------------
  // One draft's alarms

  /** The name of the rest-day shift, which never rings. */
  const RestShiftName: string := "休"

  /** `shifts.first(where: { $0.name == name })`, as an index, from `i` on. */
  function FirstNamed(shifts: seq<ShiftType>, name: string, i: nat): (r: Option<nat>)
    requires i <= |shifts|
    ensures r.Some? ==> i <= r.value < |shifts| && shifts[r.value].name == name
    ensures r.Some? ==> forall q :: i <= q < r.value ==> shifts[q].name != name
    ensures r.None? ==> forall q :: i <= q < |shifts| ==> shifts[q].name != name
    decreases |shifts| - i
  {
    if i == |shifts| then None
    else if shifts[i].name == name then Some(i)
    else FirstNamed(shifts, name, i + 1)
  }

  /** The alarms one draft contributes: none when no shift carries the
      draft's name or the name is the rest day's; otherwise those of the
      first shift with that name. */
  function DraftAlarms(draft: DayPlanDraft, shifts: seq<ShiftType>, firstId: nat): (r: seq<AlarmInstance>)
    ensures (forall q :: 0 <= q < |shifts| ==> shifts[q].name != draft.shiftName) ==> r == []
    ensures draft.shiftName == RestShiftName ==> r == []
    ensures |r| == AlarmsPerDraft(draft, shifts)
    ensures forall k :: 0 <= k < |r| ==> r[k].alarmKitId == firstId + k && r[k].enabled && r[k].shiftName == draft.shiftName
  {
    match FirstNamed(shifts, draft.shiftName, 0)
    case None => []
    case Some(i) =>
      if shifts[i].name == RestShiftName then [] else BuildAlarms(shifts[i], draft.date, firstId)
  }

  /** A draft naming a working shift gets exactly that shift's alarms for
      the draft's day, from the first shift of that name. */
  lemma DraftUsesFirstNamedShift(draft: DayPlanDraft, shifts: seq<ShiftType>, firstId: nat, i: nat)
    requires i < |shifts| && shifts[i].name == draft.shiftName && draft.shiftName != RestShiftName
    requires forall q :: 0 <= q < i ==> shifts[q].name != draft.shiftName
    ensures DraftAlarms(draft, shifts, firstId) == BuildAlarms(shifts[i], draft.date, firstId)
  {
    assert FirstNamed(shifts, draft.shiftName, 0) == Some(i);
  }

  /** How many alarms a draft rings: the enabled templates of the first
      shift of its name, unless there is none, it is the rest day, or its
      start time does not parse. */
  function AlarmsPerDraft(draft: DayPlanDraft, shifts: seq<ShiftType>): nat {
    match FirstNamed(shifts, draft.shiftName, 0)
    case None => 0
    case Some(i) =>
      if shifts[i].name == RestShiftName || ShiftWindow(shifts[i], draft.date).None? then 0
      else |EnabledTemplates(shifts[i])|
  }

  function AlarmTotal(drafts: seq<DayPlanDraft>, shifts: seq<ShiftType>): nat {
    if |drafts| == 0 then 0 else AlarmsPerDraft(drafts[0], shifts) + AlarmTotal(drafts[1..], shifts)
  }

  /** All drafts' alarms in draft order, with consecutive scheduler tokens
      from `firstId` on. */
  function NewAlarms(drafts: seq<DayPlanDraft>, shifts: seq<ShiftType>, firstId: nat): (r: seq<AlarmInstance>)
    ensures |r| == AlarmTotal(drafts, shifts)
    ensures forall k :: 0 <= k < |r| ==> r[k].alarmKitId == firstId + k && r[k].enabled
  {
    if |drafts| == 0 then []
    else DraftAlarms(drafts[0], shifts, firstId) + NewAlarms(drafts[1..], shifts, firstId + AlarmsPerDraft(drafts[0], shifts))
  }

  /** The first draft's alarms lead the import's new alarms. */
  lemma FirstDraftAlarmsLead(drafts: seq<DayPlanDraft>, shifts: seq<ShiftType>, firstId: nat, k: nat)
    requires |drafts| > 0 && k < |DraftAlarms(drafts[0], shifts, firstId)|
    ensures NewAlarms(drafts, shifts, firstId)[k] == DraftAlarms(drafts[0], shifts, firstId)[k]
  {
  }

  /** The plan stored for a draft, marked as coming from recognition. */
  function DraftPlan(draft: DayPlanDraft): DayPlan {
    DayPlan(draft.date, "OCR", draft.shiftName)
  }

  /** One plan per draft, in draft order, marked as coming from recognition. */
  function PlansFor(drafts: seq<DayPlanDraft>): (r: seq<DayPlan>)
    ensures |r| == |drafts|
    ensures forall k :: 0 <= k < |r| ==>
              r[k].date == drafts[k].date && r[k].source == "OCR" && r[k].shiftName == drafts[k].shiftName
  {
    if |drafts| == 0 then [] else [DraftPlan(drafts[0])] + PlansFor(drafts[1..])
  }


  /** The alarms of a non-empty draft list's first `k` drafts: the first
      draft's, then those of the next `k - 1`. */
  lemma AlarmTotalPrefix(drafts: seq<DayPlanDraft>, shifts: seq<ShiftType>, k: nat)
    requires 0 < k <= |drafts|
    ensures AlarmTotal(drafts[..k], shifts) == AlarmsPerDraft(drafts[0], shifts) + AlarmTotal(drafts[1..][..k - 1], shifts)
  {
    assert drafts[..k][0] == drafts[0];
    assert drafts[..k][1..] == drafts[1..][..k - 1];
  }

  /** Each draft's alarms, as handed out in draft order from `firstId` on. */
  function AlarmChunks(drafts: seq<DayPlanDraft>, shifts: seq<ShiftType>, firstId: nat): (r: seq<seq<AlarmInstance>>)
    ensures |r| == |drafts|
  {
    if |drafts| == 0 then []
    else [DraftAlarms(drafts[0], shifts, firstId)] + AlarmChunks(drafts[1..], shifts, firstId + AlarmsPerDraft(drafts[0], shifts))
  }

  lemma ChunkHead(drafts: seq<DayPlanDraft>, shifts: seq<ShiftType>, firstId: nat)
    requires |drafts| > 0
    ensures AlarmChunks(drafts, shifts, firstId)[0] == DraftAlarms(drafts[0], shifts, firstId)
  {
  }

  lemma ChunkTail(drafts: seq<DayPlanDraft>, shifts: seq<ShiftType>, firstId: nat, k: nat)
    requires 0 < k < |drafts|
    ensures AlarmChunks(drafts, shifts, firstId)[k] == AlarmChunks(drafts[1..], shifts, firstId + AlarmsPerDraft(drafts[0], shifts))[k - 1]
  {
  }

  /** The first token of draft `k`'s alarms, counted along the draft list. */
  function ChunkStart(drafts: seq<DayPlanDraft>, shifts: seq<ShiftType>, firstId: nat, k: nat): nat
    requires k <= |drafts|
    decreases k
  {
    if k == 0 then firstId else ChunkStart(drafts[1..], shifts, firstId + AlarmsPerDraft(drafts[0], shifts), k - 1)
  }

  lemma {:induction false} ChunkStartIsTotal(drafts: seq<DayPlanDraft>, shifts: seq<ShiftType>, firstId: nat, k: nat)
    requires k <= |drafts|
    ensures ChunkStart(drafts, shifts, firstId, k) == firstId + AlarmTotal(drafts[..k], shifts)
    decreases k
  {
    if k == 0 {
      assert drafts[..0] == [];
    } else {
      ChunkStartIsTotal(drafts[1..], shifts, firstId + AlarmsPerDraft(drafts[0], shifts), k - 1);
      AlarmTotalPrefix(drafts, shifts, k);
    }
  }

  lemma {:induction false} ChunkAtStart(drafts: seq<DayPlanDraft>, shifts: seq<ShiftType>, firstId: nat, k: nat)
    requires k < |drafts|
    ensures AlarmChunks(drafts, shifts, firstId)[k] == DraftAlarms(drafts[k], shifts, ChunkStart(drafts, shifts, firstId, k))
    decreases k
  {
    if k == 0 {
      ChunkHead(drafts, shifts, firstId);
    } else {
      ChunkTail(drafts, shifts, firstId, k);
      ChunkAtStart(drafts[1..], shifts, firstId + AlarmsPerDraft(drafts[0], shifts), k - 1);
      assert drafts[1..][k - 1] == drafts[k];
    }
  }

  /** Draft `k` gets its own alarms, with tokens following those of every
      draft before it. */
  lemma AlarmChunkAt(drafts: seq<DayPlanDraft>, shifts: seq<ShiftType>, firstId: nat, k: nat)
    requires k < |drafts|
    ensures AlarmChunks(drafts, shifts, firstId)[k] == DraftAlarms(drafts[k], shifts, ChunkStart(drafts, shifts, firstId, k))
    ensures ChunkStart(drafts, shifts, firstId, k) == firstId + AlarmTotal(drafts[..k], shifts)
  {
    ChunkAtStart(drafts, shifts, firstId, k);
    ChunkStartIsTotal(drafts, shifts, firstId, k);
  }

  lemma {:induction false} ChunksMakeNewAlarms(drafts: seq<DayPlanDraft>, shifts: seq<ShiftType>, firstId: nat)
    ensures Flatten(AlarmChunks(drafts, shifts, firstId)) == NewAlarms(drafts, shifts, firstId)
    decreases |drafts|
  {
    if |drafts| > 0 {
      var next := firstId + AlarmsPerDraft(drafts[0], shifts);
      ChunksMakeNewAlarms(drafts[1..], shifts, next);
      assert AlarmChunks(drafts, shifts, firstId)[1..] == AlarmChunks(drafts[1..], shifts, next);
    }
  }
}
