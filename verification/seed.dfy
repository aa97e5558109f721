/** The catalog the app seeds on first launch, and what it implies: which
    shift runs overnight, when its alarms ring, and why importing a month
    twice can duplicate alarms. */
module Seed {
  import opened Wrappers
  import opened Seqs
  import opened Text
  import opened Calendar
  import opened Models
  import opened ShiftMapping
  import opened Planner
  import opened Reconciler

  /** `defaultTemplates()`: wake up 90 minutes before the start, clock in 10
      minutes before it, clock out 10 minutes after the end. */
  function DefaultTemplates(): (r: seq<AlarmTemplate>)
    ensures |r| == 3
    ensures forall k :: 0 <= k < 3 ==> r[k].enabled && IsAnchorRaw(r[k].anchorRaw)
  {
    [ NewTemplate("起床", Start, -90, true),
      NewTemplate("上班卡", Start, -10, true),
      NewTemplate("下班卡", End, 10, true) ]
  }

  const RestRules: seq<string> := ["公休", "节假日", "休"]

  /** The four seeded shifts, in insertion order; each working shift carries
      its own copies of the default templates and the rest day none. */
  function SeedShifts(): (r: seq<ShiftType>)
    ensures |r| == 4
  {
    var ts := CopyAll(DefaultTemplates());
    [ NewShiftType("A", "09:00", "18:00", ["A班", "A"]).(alarmTemplates := ts),
      NewShiftType("C", "08:00", "20:00", ["C班", "C"]).(alarmTemplates := ts),
      NewShiftType("D", "20:00", "08:00", ["D班", "D"]).(alarmTemplates := ts),
      NewShiftType(RestShiftName, "00:00", "00:00", RestRules) ]
  }

  const DefaultSettings: AppSettings := AppSettings(-90, -10, 10)

  /** The settings and the shift catalog as stored. */
  datatype Store = Store(settings: seq<AppSettings>, shifts: seq<ShiftType>)

  /** `seedIfNeeded()`: with any settings stored nothing happens; otherwise
      one settings record and the four shifts are added. */
  function SeedIfNeeded(s: Store): (r: Store)
    ensures |s.settings| > 0 ==> r == s
    ensures |s.settings| == 0 ==> r.settings == [DefaultSettings]
    ensures |s.settings| == 0 ==> |r.shifts| == |s.shifts| + 4 && r.shifts[..|s.shifts|] == s.shifts
    ensures |s.settings| == 0 ==> r.shifts[|s.shifts|..] == SeedShifts()
  {
    if |s.settings| > 0 then s
    else Store(s.settings + [DefaultSettings], s.shifts + SeedShifts())
  }

  /** Seeding a second time adds nothing. */
  lemma SeedOnce(s: Store)
    ensures SeedIfNeeded(SeedIfNeeded(s)) == SeedIfNeeded(s)
  {
  }

  /** The seeded catalog's names, rules and templates: A, C and D each carry
      the three default templates, enabled and with valid anchors, and the
      rest day carries none. */
  lemma SeededCatalog()
    ensures var r := SeedShifts();
            && r[0].name == "A" && r[1].name == "C" && r[2].name == "D" && r[3].name == RestShiftName
            && r[0].keywordRules == ["A班", "A"] && r[1].keywordRules == ["C班", "C"] && r[2].keywordRules == ["D班", "D"]
            && r[3].alarmTemplates == [] && r[3].keywordRules == RestRules
            && forall i :: 0 <= i < 3 ==> r[i].alarmTemplates == DefaultTemplates()
  {
    forall k | 0 <= k < 3
      ensures Copy(DefaultTemplates()[k]) == DefaultTemplates()[k]
    {
      CopyNormalises(DefaultTemplates()[k]);
    }
  }

  // ---------------------------------------------------------------------------
  // Shift windows

  lemma ClockReadings()
    ensures Clock(9, 0) == "09:00" && Clock(18, 0) == "18:00"
    ensures Clock(8, 0) == "08:00" && Clock(20, 0) == "20:00"
    ensures Clock(0, 0) == "00:00"
  {
  }

  /** A runs from 09:00 to 18:00 on the day itself. */
  lemma DayShiftWindow(shift: ShiftType, day: int)
    requires shift == SeedShifts()[0]
    ensures ShiftWindow(shift, day).Some?
    ensures ShiftWindow(shift, day).value.0 == day * MinutesPerDay + 540 && ShiftWindow(shift, day).value.1 == day * MinutesPerDay + 1080
  {
    ClockReadings();
    WindowOfClocks(shift, day, 9, 0, 18, 0);
  }

  /** C runs from 08:00 to 20:00 on the day itself. */
  lemma LongShiftWindow(shift: ShiftType, day: int)
    requires shift == SeedShifts()[1]
    ensures ShiftWindow(shift, day).Some?
    ensures ShiftWindow(shift, day).value.0 == day * MinutesPerDay + 480 && ShiftWindow(shift, day).value.1 == day * MinutesPerDay + 1200
  {
    ClockReadings();
    WindowOfClocks(shift, day, 8, 0, 20, 0);
  }

  /** D, the only seeded working shift whose end reading is not after its
      start reading, runs from 20:00 to 08:00 the next morning. */
  lemma NightShiftWindow(shift: ShiftType, day: int)
    requires shift == SeedShifts()[2]
    ensures ShiftWindow(shift, day).Some?
    ensures ShiftWindow(shift, day).value.0 == day * MinutesPerDay + 1200 && ShiftWindow(shift, day).value.1 == (day + 1) * MinutesPerDay + 480
  {
    ClockReadings();
    WindowOfClocks(shift, day, 20, 0, 8, 0);
  }

  /** Of the three working shifts only D ends on the following day. */
  lemma OnlyNightShiftCrossesMidnight(a: ShiftType, c: ShiftType, d: ShiftType, day: int)
    requires a == SeedShifts()[0] && c == SeedShifts()[1] && d == SeedShifts()[2]
    ensures ShiftWindow(a, day).Some? && ShiftWindow(a, day).value.1 < (day + 1) * MinutesPerDay
    ensures ShiftWindow(c, day).Some? && ShiftWindow(c, day).value.1 < (day + 1) * MinutesPerDay
    ensures ShiftWindow(d, day).Some? && ShiftWindow(d, day).value.1 >= (day + 1) * MinutesPerDay
  {
    DayShiftWindow(a, day);
    LongShiftWindow(c, day);
    NightShiftWindow(d, day);
  }

  /** The day's alarms of a draft naming D: wake-up at 18:30, clock-in at
      19:50, and clock-out at 08:10 the following day. */
  lemma NightShiftAlarms(draft: DayPlanDraft, firstId: nat)
    requires draft.shiftName == "D"
    ensures var r := DraftAlarms(draft, SeedShifts(), firstId);
            && |r| == 3
            && r[0].dateTime == draft.date * MinutesPerDay + 1110
            && r[1].dateTime == draft.date * MinutesPerDay + 1190
            && r[2].dateTime == (draft.date + 1) * MinutesPerDay + 490
  {
    var shifts := SeedShifts();
    SeededCatalog();
    DraftUsesFirstNamedShift(draft, shifts, firstId, 2);
    NightShiftWindow(shifts[2], draft.date);
    FilterKeepsAll(shifts[2].alarmTemplates, IsEnabled);
  }

  /** A rest-day draft rings nothing, though the rest day has a clock window. */
  lemma RestDayRingsNothing(draft: DayPlanDraft, firstId: nat)
    requires draft.shiftName == RestShiftName
    ensures DraftAlarms(draft, SeedShifts(), firstId) == []
  {
  }

  // ---------------------------------------------------------------------------
  // The month boundary

  /** The first import's alarms include one outside the month: the night
      shift's clock-out on the next month's first day. */
  lemma NightShiftLeavesMonth(nextId: nat, drafts: seq<DayPlanDraft>)
    requires |drafts| > 0 && drafts[0].shiftName == "D"
    requires NextMonthStart(drafts[0].date) == drafts[0].date + 1
    ensures exists a :: a in NewAlarms(drafts, SeedShifts(), nextId) && !AlarmWithin(a, MonthOf(drafts).0, MonthOf(drafts).1)
  {
    NightShiftAlarms(drafts[0], nextId);
    FirstDraftAlarmsLead(drafts, SeedShifts(), nextId, 2);
    var all := NewAlarms(drafts, SeedShifts(), nextId);
    assert all[2].dateTime == (drafts[0].date + 1) * MinutesPerDay + 490;
    assert !AlarmWithin(all[2], MonthOf(drafts).0, MonthOf(drafts).1);
  }

  /** Importing a month whose first listed draft is a D shift on the month's
      last day, then importing the same drafts again, leaves more alarms than
      the first import did: that night's clock-out rings on the next month's
      first day, outside the range the second import clears. */
  lemma NightShiftAtMonthEndDuplicates(w: World, drafts: seq<DayPlanDraft>)
    requires |drafts| > 0 && drafts[0].shiftName == "D"
    requires NextMonthStart(drafts[0].date) == drafts[0].date + 1
    ensures var once := ApplyMonthPlans(w, drafts, SeedShifts());
            |ApplyMonthPlans(once, drafts, SeedShifts()).alarms| > |once.alarms|
  {
    NightShiftLeavesMonth(w.nextId, drafts);
    var a :| a in NewAlarms(drafts, SeedShifts(), w.nextId) && !AlarmWithin(a, MonthOf(drafts).0, MonthOf(drafts).1);
    ReimportNotIdempotent(w, drafts, SeedShifts(), a);
  }
}
