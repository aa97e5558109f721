/** The reconciler of `SchedulePlanner.applyMonthPlans`: the calls it makes
    on the store and on the alarm scheduler, what they leave behind, and the
    order in which they are made. */
module Reconciler {
  import opened Wrappers
  import opened Seqs
  import opened Calendar
  import opened Models
  import opened ShiftMapping
  import opened Planner

  // ---------------------------------------------------------------------------
  // The store, the scheduler and the calls made on them

  /** One call the reconciler makes: on the store (`delete`, `insert`) or
      on the external alarm scheduler (`cancel`, `schedule`). */
  datatype Effect =
    | DeletePlan(plan: DayPlan)
    | CancelAlarm(alarm: AlarmInstance)
    | DeleteAlarm(alarm: AlarmInstance)
    | InsertPlan(plan: DayPlan)
    | InsertAlarm(alarm: AlarmInstance)
    | ScheduleAlarm(alarm: AlarmInstance)

  /** The store's plans and alarms, every call made so far in order, and the
      next unused scheduler token. */
  datatype World = World(plans: seq<DayPlan>, alarms: seq<AlarmInstance>, journal: seq<Effect>, nextId: nat)

  /** Making one call: deleting removes the value, inserting appends it,
      scheduler calls leave the store alone; every call is journalled. */
  function Perform(w: World, e: Effect): (r: World)
    ensures r.journal == w.journal + [e] && r.nextId == w.nextId
  {
    var w' := w.(journal := w.journal + [e]);
    match e
    case DeletePlan(p) => w'.(plans := Remove(w.plans, p))
    case CancelAlarm(_) => w'
    case DeleteAlarm(a) => w'.(alarms := Remove(w.alarms, a))
    case InsertPlan(p) => w'.(plans := w.plans + [p])
    case InsertAlarm(a) => w'.(alarms := w.alarms + [a])
    case ScheduleAlarm(_) => w'
  }

  /** Making calls in order. */
  function Run(w: World, es: seq<Effect>): (r: World)
    decreases |es|
  {
    if |es| == 0 then w else Run(Perform(w, es[0]), es[1..])
  }

  lemma {:induction false} RunConcat(w: World, a: seq<Effect>, b: seq<Effect>)
    ensures Run(w, a + b) == Run(Run(w, a), b)
    decreases |a|
  {
    if |a| == 0 {
      assert a + b == b;
    } else {
      assert (a + b)[0] == a[0];
      assert (a + b)[1..] == a[1..] + b;
      assert Run(w, a + b) == Run(Perform(w, a[0]), a[1..] + b);
      RunConcat(Perform(w, a[0]), a[1..], b);
    }
  }

  /** The journal records exactly the calls made. */
  lemma {:induction false} RunJournals(w: World, es: seq<Effect>)
    ensures Run(w, es).journal == w.journal + es
    ensures Run(w, es).nextId == w.nextId
    decreases |es|
  {
    if |es| > 0 {
      RunJournals(Perform(w, es[0]), es[1..]);
      assert es == [es[0]] + es[1..];
    }
  }

  // ---------------------------------------------------------------------------
  // The month's range

  /** `fetchDayPlans(from:to:)`'s predicate, on the day a plan stands for. */
  predicate PlanWithin(p: DayPlan, lo: int, hi: int) {
    lo <= p.date < hi
  }

  /** `fetchAlarmInstances(from:to:)`'s predicate: the alarm's instant lies
      in [lo, hi) counted in days. */
  predicate AlarmWithin(a: AlarmInstance, lo: int, hi: int) {
    lo * MinutesPerDay <= a.dateTime < hi * MinutesPerDay
  }

  function PlanIn(lo: int, hi: int): DayPlan -> bool {
    p => PlanWithin(p, lo, hi)
  }

  function AlarmIn(lo: int, hi: int): AlarmInstance -> bool {
    a => AlarmWithin(a, lo, hi)
  }

  // ---------------------------------------------------------------------------
  // The calls of one import

  function DeletePlanCalls(ps: seq<DayPlan>): (r: seq<Effect>)
    ensures |r| == |ps| && forall k :: 0 <= k < |r| ==> r[k] == DeletePlan(ps[k])
  {
    if |ps| == 0 then [] else [DeletePlan(ps[0])] + DeletePlanCalls(ps[1..])
  }

  /** Each alarm is cancelled with the scheduler, then deleted. */
  function CancelDeleteCalls(xs: seq<AlarmInstance>): (r: seq<Effect>)
    ensures |r| == 2 * |xs|
    ensures forall k :: 0 <= k < |xs| ==> r[2 * k] == CancelAlarm(xs[k]) && r[2 * k + 1] == DeleteAlarm(xs[k])
  {
    if |xs| == 0 then [] else [CancelAlarm(xs[0]), DeleteAlarm(xs[0])] + CancelDeleteCalls(xs[1..])
  }

  /** Each alarm is inserted, then scheduled. */
  function InsertScheduleCalls(xs: seq<AlarmInstance>): (r: seq<Effect>)
    ensures |r| == 2 * |xs|
    ensures forall k :: 0 <= k < |xs| ==> r[2 * k] == InsertAlarm(xs[k]) && r[2 * k + 1] == ScheduleAlarm(xs[k])
  {
    if |xs| == 0 then [] else [InsertAlarm(xs[0]), ScheduleAlarm(xs[0])] + InsertScheduleCalls(xs[1..])
  }

  /** The loop over the drafts, for plans `ps` and the alarm chunks `cs`
      that go with them: insert the plan, then insert and schedule each of
      its alarms. */
  function Interleave(ps: seq<DayPlan>, cs: seq<seq<AlarmInstance>>): (r: seq<Effect>)
    requires |ps| == |cs|
    decreases |ps|
  {
    if |ps| == 0 then []
    else [InsertPlan(ps[0])] + InsertScheduleCalls(cs[0]) + Interleave(ps[1..], cs[1..])
  }

  function InsertCalls(drafts: seq<DayPlanDraft>, shifts: seq<ShiftType>, firstId: nat): seq<Effect> {
    Interleave(PlansFor(drafts), AlarmChunks(drafts, shifts, firstId))
  }

  function MonthOf(drafts: seq<DayPlanDraft>): (int, int)
    requires |drafts| > 0
  {
    (MonthStart(drafts[0].date), NextMonthStart(drafts[0].date))
  }

  /** The calls `applyMonthPlans` makes, in order, for a non-empty draft
      list: delete the month's plans, cancel and delete the month's alarms,
      then insert each draft's plan and insert and schedule its alarms. */
  function MonthCalls(w: World, drafts: seq<DayPlanDraft>, shifts: seq<ShiftType>): seq<Effect>
    requires |drafts| > 0
  {
    var (lo, hi) := MonthOf(drafts);
    DeletePlanCalls(Filter(w.plans, PlanIn(lo, hi)))
    + CancelDeleteCalls(Filter(w.alarms, AlarmIn(lo, hi)))
    + InsertCalls(drafts, shifts, w.nextId)
  }

  // ---------------------------------------------------------------------------
  // What the calls do to the store


  lemma {:induction false} RunDeletePlans(w: World, ps: seq<DayPlan>)
    ensures Run(w, DeletePlanCalls(ps)).plans == RemoveEach(w.plans, ps)
    ensures Run(w, DeletePlanCalls(ps)).alarms == w.alarms
    decreases |ps|
  {
    if |ps| > 0 {
      assert DeletePlanCalls(ps)[1..] == DeletePlanCalls(ps[1..]);
      RunDeletePlans(Perform(w, DeletePlan(ps[0])), ps[1..]);
    }
  }

  lemma {:induction false} RunCancelDeletes(w: World, xs: seq<AlarmInstance>)
    ensures Run(w, CancelDeleteCalls(xs)).alarms == RemoveEach(w.alarms, xs)
    ensures Run(w, CancelDeleteCalls(xs)).plans == w.plans
    decreases |xs|
  {
    if |xs| > 0 {
      var es := CancelDeleteCalls(xs);
      assert es[1..][1..] == CancelDeleteCalls(xs[1..]);
      var w2 := Perform(Perform(w, CancelAlarm(xs[0])), DeleteAlarm(xs[0]));
      RunCancelDeletes(w2, xs[1..]);
    }
  }

  lemma {:induction false} RunInsertSchedules(w: World, xs: seq<AlarmInstance>)
    ensures Run(w, InsertScheduleCalls(xs)).alarms == w.alarms + xs
    ensures Run(w, InsertScheduleCalls(xs)).plans == w.plans
    decreases |xs|
  {
    if |xs| > 0 {
      var pair := [InsertAlarm(xs[0]), ScheduleAlarm(xs[0])];
      assert InsertScheduleCalls(xs) == pair + InsertScheduleCalls(xs[1..]);
      RunConcat(w, pair, InsertScheduleCalls(xs[1..]));
      var w1 := Perform(w, InsertAlarm(xs[0]));
      var w2 := Perform(w1, ScheduleAlarm(xs[0]));
      assert pair[1..][1..] == [];
      assert Run(w, pair) == Run(w1, pair[1..]) == Run(w2, []);
      assert w2.alarms == w.alarms + [xs[0]] && w2.plans == w.plans;
      RunInsertSchedules(w2, xs[1..]);
      assert w.alarms + xs == w2.alarms + xs[1..];
    }
  }

  lemma RunInsertThenSchedules(w: World, p: DayPlan, xs: seq<AlarmInstance>)
    ensures Run(w, [InsertPlan(p)] + InsertScheduleCalls(xs)).plans == w.plans + [p]
    ensures Run(w, [InsertPlan(p)] + InsertScheduleCalls(xs)).alarms == w.alarms + xs
  {
    RunConcat(w, [InsertPlan(p)], InsertScheduleCalls(xs));
    var w1 := Run(w, [InsertPlan(p)]);
    assert w1 == Perform(w, InsertPlan(p));
    RunInsertSchedules(w1, xs);
  }

  lemma {:induction false} RunInterleave(w: World, ps: seq<DayPlan>, cs: seq<seq<AlarmInstance>>)
    requires |ps| == |cs|
    ensures Run(w, Interleave(ps, cs)).plans == w.plans + ps
    ensures Run(w, Interleave(ps, cs)).alarms == w.alarms + Flatten(cs)
    decreases |ps|
  {
    if |ps| == 0 {
      assert w.plans + [] == w.plans && w.alarms + [] == w.alarms;
    } else {
      var head := [InsertPlan(ps[0])] + InsertScheduleCalls(cs[0]);
      RunConcat(w, head, Interleave(ps[1..], cs[1..]));
      RunInsertThenSchedules(w, ps[0], cs[0]);
      RunInterleave(Run(w, head), ps[1..], cs[1..]);
      ConcatAssoc(w.plans, [ps[0]], ps[1..]);
      ConcatAssoc(w.alarms, cs[0], Flatten(cs[1..]));
      assert ps == [ps[0]] + ps[1..];
    }
  }

  lemma RunInserts(w: World, drafts: seq<DayPlanDraft>, shifts: seq<ShiftType>, firstId: nat)
    ensures Run(w, InsertCalls(drafts, shifts, firstId)).plans == w.plans + PlansFor(drafts)
    ensures Run(w, InsertCalls(drafts, shifts, firstId)).alarms == w.alarms + NewAlarms(drafts, shifts, firstId)
  {
    RunInterleave(w, PlansFor(drafts), AlarmChunks(drafts, shifts, firstId));
    ChunksMakeNewAlarms(drafts, shifts, firstId);
  }


  // ---------------------------------------------------------------------------
  // The reconciler

  /** `applyMonthPlans(drafts:shifts:)` as a transformer of the world. With
      no drafts nothing happens. Otherwise the month is the calendar month
      of the first draft's day; afterwards the store holds the plans outside
      that month followed by one plan per draft, and the alarms outside it
      followed by the drafts' new alarms; the journal gains the calls made
      and the token counter moves past the tokens handed out. */
  function ApplyMonthPlans(w: World, drafts: seq<DayPlanDraft>, shifts: seq<ShiftType>): (r: World)
    ensures |drafts| == 0 ==> r == w
    ensures |drafts| > 0 ==>
      var (lo, hi) := MonthOf(drafts);
      && r.plans == Filter(w.plans, Negation(PlanIn(lo, hi))) + PlansFor(drafts)
      && r.alarms == Filter(w.alarms, Negation(AlarmIn(lo, hi))) + NewAlarms(drafts, shifts, w.nextId)
      && r.journal == w.journal + MonthCalls(w, drafts, shifts)
      && r.nextId == w.nextId + |NewAlarms(drafts, shifts, w.nextId)|
  {
    if |drafts| == 0 then w
    else
      ImportEffects(w, drafts, shifts);
      var r := Run(w, MonthCalls(w, drafts, shifts));
      r.(nextId := w.nextId + |NewAlarms(drafts, shifts, w.nextId)|)
  }

  lemma ImportEffects(w: World, drafts: seq<DayPlanDraft>, shifts: seq<ShiftType>)
    requires |drafts| > 0
    ensures var (lo, hi) := MonthOf(drafts);
      var r := Run(w, MonthCalls(w, drafts, shifts));
      && r.plans == Filter(w.plans, Negation(PlanIn(lo, hi))) + PlansFor(drafts)
      && r.alarms == Filter(w.alarms, Negation(AlarmIn(lo, hi))) + NewAlarms(drafts, shifts, w.nextId)
      && r.journal == w.journal + MonthCalls(w, drafts, shifts)
  {
    var (lo, hi) := MonthOf(drafts);
    var ps := Filter(w.plans, PlanIn(lo, hi));
    var xs := Filter(w.alarms, AlarmIn(lo, hi));
    var c1, c2, c3 := DeletePlanCalls(ps), CancelDeleteCalls(xs), InsertCalls(drafts, shifts, w.nextId);
    RunConcat(w, c1 + c2, c3);
    RunConcat(w, c1, c2);
    RunDeletePlans(w, ps);
    var w1 := Run(w, c1);
    RunCancelDeletes(w1, xs);
    var w2 := Run(w1, c2);
    RunInserts(w2, drafts, shifts, w.nextId);
    RemoveSelected(w.plans, PlanIn(lo, hi));
    RemoveSelected(w.alarms, AlarmIn(lo, hi));
    RunJournals(w, MonthCalls(w, drafts, shifts));
  }

  // ---------------------------------------------------------------------------
  // Order of the calls

  /** Every alarm deletion comes right after the scheduler cancellation of
      the same alarm. */
  predicate CancelledBeforeDeleted(es: seq<Effect>) {
    forall j :: 0 <= j < |es| && es[j].DeleteAlarm? ==> 0 < j && es[j - 1] == CancelAlarm(es[j].alarm)
  }

  /** Every alarm insertion is followed right away by scheduling it. */
  predicate ScheduledWhenInserted(es: seq<Effect>) {
    forall j :: 0 <= j < |es| && es[j].InsertAlarm? ==> j + 1 < |es| && es[j + 1] == ScheduleAlarm(es[j].alarm)
  }

  /** A left-to-right reading of a call list in which each alarm insertion
      is paired with the scheduling that follows it and each alarm deletion
      with the cancellation just before it. */
  predicate Paired(es: seq<Effect>)
    decreases |es|
  {
    if |es| == 0 then true
    else if es[0].DeleteAlarm? then false
    else if es[0].InsertAlarm? then 2 <= |es| && es[1] == ScheduleAlarm(es[0].alarm) && Paired(es[2..])
    else if es[0].CancelAlarm? && 2 <= |es| && es[1] == DeleteAlarm(es[0].alarm) then Paired(es[2..])
    else Paired(es[1..])
  }

  lemma {:induction false} PairedMeaning(es: seq<Effect>)
    requires Paired(es)
    ensures CancelledBeforeDeleted(es) && ScheduledWhenInserted(es)
    decreases |es|
  {
    if |es| > 0 {
      var n := if es[0].InsertAlarm? || (es[0].CancelAlarm? && 2 <= |es| && es[1] == DeleteAlarm(es[0].alarm)) then 2 else 1;
      var rest := es[n..];
      PairedMeaning(rest);
      forall j | 0 <= j < |es|
        ensures es[j].DeleteAlarm? ==> 0 < j && es[j - 1] == CancelAlarm(es[j].alarm)
        ensures es[j].InsertAlarm? ==> j + 1 < |es| && es[j + 1] == ScheduleAlarm(es[j].alarm)
      {
        if j >= n {
          assert es[j] == rest[j - n];
          if j + 1 < |es| {
            assert es[j + 1] == rest[j + 1 - n];
          }
          if j > n {
            assert es[j - 1] == rest[j - 1 - n];
          }
        }
      }
    }
  }

  lemma {:induction false} PairedConcat(a: seq<Effect>, b: seq<Effect>)
    requires Paired(a) && Paired(b)
    ensures Paired(a + b)
    decreases |a|
  {
    if |a| == 0 {
      assert a + b == b;
    } else if a[0].InsertAlarm? || (a[0].CancelAlarm? && 2 <= |a| && a[1] == DeleteAlarm(a[0].alarm)) {
      PairedConcat(a[2..], b);
      assert (a + b)[2..] == a[2..] + b;
    } else {
      assert (a + b)[1..] == a[1..] + b;
      PairedConcat(a[1..], b);
    }
  }

  lemma {:induction false} PairedPieces(ps: seq<DayPlan>, xs: seq<AlarmInstance>)
    ensures Paired(DeletePlanCalls(ps))
    ensures Paired(CancelDeleteCalls(xs))
    ensures Paired(InsertScheduleCalls(xs))
    decreases |ps| + |xs|
  {
    if |ps| > 0 {
      PairedPieces(ps[1..], xs);
      assert DeletePlanCalls(ps)[1..] == DeletePlanCalls(ps[1..]);
    }
    if |xs| > 0 {
      PairedPieces([], xs[1..]);
      assert CancelDeleteCalls(xs)[2..] == CancelDeleteCalls(xs[1..]);
      assert InsertScheduleCalls(xs)[2..] == InsertScheduleCalls(xs[1..]);
    }
  }

  lemma {:induction false} PairedInterleave(ps: seq<DayPlan>, cs: seq<seq<AlarmInstance>>)
    requires |ps| == |cs|
    ensures Paired(Interleave(ps, cs))
    decreases |ps|
  {
    if |ps| > 0 {
      PairedInterleave(ps[1..], cs[1..]);
      PairedPieces([], cs[0]);
      assert Paired([InsertPlan(ps[0])]) by {
        assert [InsertPlan(ps[0])][1..] == [];
      }
      PairedConcat([InsertPlan(ps[0])], InsertScheduleCalls(cs[0]));
      PairedConcat([InsertPlan(ps[0])] + InsertScheduleCalls(cs[0]), Interleave(ps[1..], cs[1..]));
    }
  }

  /** Deleting plans, then cancelling and deleting alarms `xs`, then making
      the interleaved insertions: every deletion follows its cancellation,
      every insertion precedes its scheduling, and every one of `xs` is
      cancelled and deleted. */
  lemma OrderOfPieces(ps: seq<DayPlan>, xs: seq<AlarmInstance>, qs: seq<DayPlan>, cs: seq<seq<AlarmInstance>>)
    requires |qs| == |cs|
    ensures var es := DeletePlanCalls(ps) + CancelDeleteCalls(xs) + Interleave(qs, cs);
      && CancelledBeforeDeleted(es) && ScheduledWhenInserted(es)
      && forall a :: a in xs ==> CancelAlarm(a) in es && DeleteAlarm(a) in es
  {
    var c1, c2, c3 := DeletePlanCalls(ps), CancelDeleteCalls(xs), Interleave(qs, cs);
    PairedPieces(ps, xs);
    PairedInterleave(qs, cs);
    PairedConcat(c1, c2);
    PairedConcat(c1 + c2, c3);
    PairedMeaning(c1 + c2 + c3);
    CancelDeleteCover(c1, xs, c3);
  }

  /** Every alarm handed to `CancelDeleteCalls` is cancelled and deleted,
      whatever calls come before and after. */
  lemma CancelDeleteCover(pre: seq<Effect>, xs: seq<AlarmInstance>, post: seq<Effect>)
    ensures forall a :: a in xs ==>
              CancelAlarm(a) in pre + CancelDeleteCalls(xs) + post && DeleteAlarm(a) in pre + CancelDeleteCalls(xs) + post
  {
    var c2 := CancelDeleteCalls(xs);
    var es := pre + c2 + post;
    forall a | a in xs
      ensures CancelAlarm(a) in es && DeleteAlarm(a) in es
    {
      var k :| 0 <= k < |xs| && xs[k] == a;
      assert es[|pre| + 2 * k] == c2[2 * k] == CancelAlarm(a);
      assert es[|pre| + 2 * k + 1] == c2[2 * k + 1] == DeleteAlarm(a);
    }
  }

  /** In the calls of an import, every alarm is cancelled with the scheduler
      immediately before it is deleted from the store, and scheduled
      immediately after it is inserted; every alarm of the month is
      cancelled and deleted. */
  lemma ImportCallOrder(w: World, drafts: seq<DayPlanDraft>, shifts: seq<ShiftType>)
    requires |drafts| > 0
    ensures CancelledBeforeDeleted(MonthCalls(w, drafts, shifts))
    ensures ScheduledWhenInserted(MonthCalls(w, drafts, shifts))
    ensures forall a :: a in w.alarms && AlarmWithin(a, MonthOf(drafts).0, MonthOf(drafts).1) ==>
              CancelAlarm(a) in MonthCalls(w, drafts, shifts) && DeleteAlarm(a) in MonthCalls(w, drafts, shifts)
  {
    var (lo, hi) := MonthOf(drafts);
    OrderOfPieces(Filter(w.plans, PlanIn(lo, hi)), Filter(w.alarms, AlarmIn(lo, hi)),
                  PlansFor(drafts), AlarmChunks(drafts, shifts, w.nextId));
  }

  // ---------------------------------------------------------------------------
  // What the store holds afterwards

  /** After an import the month holds only the imported plans: a plan is in
      the store exactly when it was there before and lies outside the month,
      or it is the plan of one of the drafts. */
  lemma ImportedPlans(w: World, drafts: seq<DayPlanDraft>, shifts: seq<ShiftType>, p: DayPlan)
    requires |drafts| > 0
    ensures p in ApplyMonthPlans(w, drafts, shifts).plans <==>
              (p in w.plans && !PlanWithin(p, MonthOf(drafts).0, MonthOf(drafts).1)) || p in PlansFor(drafts)
  {
  }

  /** Alarms outside the month survive an import and alarms inside it are
      replaced: an alarm is in the store afterwards exactly when it was there
      before and lies outside the month, or it is one of the new alarms. */
  lemma ImportedAlarms(w: World, drafts: seq<DayPlanDraft>, shifts: seq<ShiftType>, a: AlarmInstance)
    requires |drafts| > 0
    ensures a in ApplyMonthPlans(w, drafts, shifts).alarms <==>
              (a in w.alarms && !AlarmWithin(a, MonthOf(drafts).0, MonthOf(drafts).1)) || a in NewAlarms(drafts, shifts, w.nextId)
  {
  }

  // ---------------------------------------------------------------------------
  // The scheduler's view

  predicate IsSchedulerCall(e: Effect) {
    e.CancelAlarm? || e.ScheduleAlarm?
  }

  /** The calls that reached the alarm scheduler, in order. */
  function SchedulerLog(es: seq<Effect>): (r: seq<Effect>)
    ensures forall k :: 0 <= k < |r| ==> IsSchedulerCall(r[k]) && r[k] in es
    decreases |es|
  {
    if |es| == 0 then []
    else (if IsSchedulerCall(es[0]) then [es[0]] else []) + SchedulerLog(es[1..])
  }

  lemma {:induction false} SchedulerLogConcat(a: seq<Effect>, b: seq<Effect>)
    ensures SchedulerLog(a + b) == SchedulerLog(a) + SchedulerLog(b)
    decreases |a|
  {
    if |a| == 0 {
      assert a + b == b;
    } else {
      assert (a + b)[1..] == a[1..] + b;
      SchedulerLogConcat(a[1..], b);
    }
  }

  function Cancels(xs: seq<AlarmInstance>): (r: seq<Effect>)
    ensures |r| == |xs| && forall k :: 0 <= k < |xs| ==> r[k] == CancelAlarm(xs[k])
  {
    if |xs| == 0 then [] else [CancelAlarm(xs[0])] + Cancels(xs[1..])
  }

  function Schedules(xs: seq<AlarmInstance>): (r: seq<Effect>)
    ensures |r| == |xs| && forall k :: 0 <= k < |xs| ==> r[k] == ScheduleAlarm(xs[k])
  {
    if |xs| == 0 then [] else [ScheduleAlarm(xs[0])] + Schedules(xs[1..])
  }

  lemma SchedulesConcat(a: seq<AlarmInstance>, b: seq<AlarmInstance>)
    ensures Schedules(a + b) == Schedules(a) + Schedules(b)
  {
    var l, r := Schedules(a + b), Schedules(a) + Schedules(b);
    forall k | 0 <= k < |l|
      ensures l[k] == r[k]
    {
      if k < |a| {
        assert (a + b)[k] == a[k];
      } else {
        assert (a + b)[k] == b[k - |a|];
      }
    }
  }

  lemma {:induction false} SchedulerSeesNoPlans(ps: seq<DayPlan>)
    ensures SchedulerLog(DeletePlanCalls(ps)) == []
    decreases |ps|
  {
    if |ps| > 0 {
      SchedulerSeesNoPlans(ps[1..]);
      assert DeletePlanCalls(ps)[1..] == DeletePlanCalls(ps[1..]);
    }
  }

  lemma {:induction false} SchedulerSeesCancels(xs: seq<AlarmInstance>)
    ensures SchedulerLog(CancelDeleteCalls(xs)) == Cancels(xs)
    decreases |xs|
  {
    if |xs| > 0 {
      SchedulerSeesCancels(xs[1..]);
      var es := CancelDeleteCalls(xs);
      assert es[1..][1..] == CancelDeleteCalls(xs[1..]);
    }
  }

  lemma {:induction false} SchedulerSeesSchedules(xs: seq<AlarmInstance>)
    ensures SchedulerLog(InsertScheduleCalls(xs)) == Schedules(xs)
    decreases |xs|
  {
    if |xs| > 0 {
      SchedulerSeesSchedules(xs[1..]);
      var es := InsertScheduleCalls(xs);
      assert es[1..][1..] == InsertScheduleCalls(xs[1..]);
    }
  }

  lemma {:induction false} SchedulerSeesInterleave(ps: seq<DayPlan>, cs: seq<seq<AlarmInstance>>)
    requires |ps| == |cs|
    ensures SchedulerLog(Interleave(ps, cs)) == Schedules(Flatten(cs))
    decreases |ps|
  {
    if |ps| > 0 {
      SchedulerSeesInterleave(ps[1..], cs[1..]);
      SchedulerSeesSchedules(cs[0]);
      var head := [InsertPlan(ps[0])] + InsertScheduleCalls(cs[0]);
      SchedulerLogConcat([InsertPlan(ps[0])], InsertScheduleCalls(cs[0]));
      SchedulerLogConcat(head, Interleave(ps[1..], cs[1..]));
      SchedulesConcat(cs[0], Flatten(cs[1..]));
    }
  }

  lemma SchedulerSeesPieces(ps: seq<DayPlan>, xs: seq<AlarmInstance>, qs: seq<DayPlan>, cs: seq<seq<AlarmInstance>>)
    requires |qs| == |cs|
    ensures SchedulerLog(DeletePlanCalls(ps) + CancelDeleteCalls(xs) + Interleave(qs, cs))
            == Cancels(xs) + Schedules(Flatten(cs))
  {
    var c1, c2, c3 := DeletePlanCalls(ps), CancelDeleteCalls(xs), Interleave(qs, cs);
    SchedulerSeesNoPlans(ps);
    SchedulerSeesCancels(xs);
    SchedulerSeesInterleave(qs, cs);
    SchedulerLogConcat(c1 + c2, c3);
    SchedulerLogConcat(c1, c2);
    assert SchedulerLog(c1 + c2) == [] + Cancels(xs) == Cancels(xs);
  }

  /** What the scheduler sees of the calls of an import. */
  lemma SchedulerSeesMonthCalls(w: World, drafts: seq<DayPlanDraft>, shifts: seq<ShiftType>)
    requires |drafts| > 0
    ensures SchedulerLog(MonthCalls(w, drafts, shifts))
            == Cancels(Filter(w.alarms, AlarmIn(MonthOf(drafts).0, MonthOf(drafts).1)))
               + Schedules(NewAlarms(drafts, shifts, w.nextId))
  {
    var (lo, hi) := MonthOf(drafts);
    SchedulerSeesPieces(Filter(w.plans, PlanIn(lo, hi)), Filter(w.alarms, AlarmIn(lo, hi)),
                        PlansFor(drafts), AlarmChunks(drafts, shifts, w.nextId));
    ChunksMakeNewAlarms(drafts, shifts, w.nextId);
  }

  /** The scheduler is told to cancel exactly the month's stored alarms, in
      store order, and then to schedule exactly the new alarms, in order;
      before the import it had seen what it had seen. */
  lemma ImportSchedulerLog(w: World, drafts: seq<DayPlanDraft>, shifts: seq<ShiftType>)
    requires |drafts| > 0
    ensures SchedulerLog(ApplyMonthPlans(w, drafts, shifts).journal)
            == SchedulerLog(w.journal)
               + Cancels(Filter(w.alarms, AlarmIn(MonthOf(drafts).0, MonthOf(drafts).1)))
               + Schedules(NewAlarms(drafts, shifts, w.nextId))
  {
    SchedulerSeesMonthCalls(w, drafts, shifts);
    var (lo, hi) := MonthOf(drafts);
    LogAfter(w.journal, MonthCalls(w, drafts, shifts),
             Cancels(Filter(w.alarms, AlarmIn(lo, hi))), Schedules(NewAlarms(drafts, shifts, w.nextId)));
  }

  lemma LogAfter(before: seq<Effect>, calls: seq<Effect>, cancels: seq<Effect>, schedules: seq<Effect>)
    requires SchedulerLog(calls) == cancels + schedules
    ensures SchedulerLog(before + calls) == SchedulerLog(before) + cancels + schedules
  {
    SchedulerLogConcat(before, calls);
  }

  /** Importing nothing touches neither the store nor the scheduler. */
  lemma EmptyImportSchedulesNothing(w: World, shifts: seq<ShiftType>)
    ensures SchedulerLog(ApplyMonthPlans(w, [], shifts).journal) == SchedulerLog(w.journal)
    ensures ApplyMonthPlans(w, [], shifts).plans == w.plans
    ensures ApplyMonthPlans(w, [], shifts).alarms == w.alarms
  {
  }

  // ---------------------------------------------------------------------------
  // Scheduler tokens

  /** Every stored alarm's token was handed out before the counter. */
  predicate TokensBelow(w: World) {
    forall k :: 0 <= k < |w.alarms| ==> w.alarms[k].alarmKitId < w.nextId
  }

  /** Appending alarms whose tokens run from `n` on to alarms whose tokens
      are below `n` leaves every token below `n` plus the number appended. */
  lemma TokensAfterAppend(kept: seq<AlarmInstance>, made: seq<AlarmInstance>, n: nat)
    requires forall k :: 0 <= k < |kept| ==> kept[k].alarmKitId < n
    requires forall k :: 0 <= k < |made| ==> made[k].alarmKitId == n + k
    ensures forall k :: 0 <= k < |kept + made| ==> (kept + made)[k].alarmKitId < n + |made|
  {
    forall k | 0 <= k < |kept + made|
      ensures (kept + made)[k].alarmKitId < n + |made|
    {
      if k >= |kept| {
        assert (kept + made)[k] == made[k - |kept|];
      }
    }
  }

  /** An import keeps the counter ahead of every stored token, and the new
      alarms' tokens are all at least the old counter, so none of them
      equals the token of an alarm that was already stored. */
  lemma ImportTokensFresh(w: World, drafts: seq<DayPlanDraft>, shifts: seq<ShiftType>)
    requires TokensBelow(w)
    ensures TokensBelow(ApplyMonthPlans(w, drafts, shifts))
    ensures forall a :: a in NewAlarms(drafts, shifts, w.nextId) ==> w.nextId <= a.alarmKitId
    ensures forall a, b :: a in w.alarms && b in NewAlarms(drafts, shifts, w.nextId) ==> a.alarmKitId != b.alarmKitId
  {
    if |drafts| > 0 {
      var (lo, hi) := MonthOf(drafts);
      var kept := Filter(w.alarms, Negation(AlarmIn(lo, hi)));
      forall k | 0 <= k < |kept|
        ensures kept[k].alarmKitId < w.nextId
      {
        assert kept[k] in w.alarms;
      }
      TokensAfterAppend(kept, NewAlarms(drafts, shifts, w.nextId), w.nextId);
    }
  }

  // ---------------------------------------------------------------------------
  // Importing the same month twice

  predicate DraftsInMonth(drafts: seq<DayPlanDraft>)
    requires |drafts| > 0
  {
    forall k :: 0 <= k < |drafts| ==> PlanWithin(DraftPlan(drafts[k]), MonthOf(drafts).0, MonthOf(drafts).1)
  }

  /** Filtering out what lies in a range, then appending `added`, all of
      which lies in it, changes nothing when done a second time. */
  lemma ReplaceTwice<T(!new)>(kept: seq<T>, added: seq<T>, out: T -> bool)
    requires forall k :: 0 <= k < |kept| ==> out(kept[k])
    requires forall k :: 0 <= k < |added| ==> !out(added[k])
    ensures Filter(kept + added, out) + added == kept + added
  {
    FilterConcat(kept, added, out);
    FilterKeepsAll(kept, out);
    FilterDropsAll(added, out);
    assert Filter(kept + added, out) == kept + [];
    assert kept + [] == kept;
  }

  /** When every draft lies in the month of the first, importing the same
      drafts again leaves the same plans. */
  lemma ReimportPlansStable(w: World, drafts: seq<DayPlanDraft>, shifts: seq<ShiftType>)
    requires |drafts| > 0 && DraftsInMonth(drafts)
    ensures var once := ApplyMonthPlans(w, drafts, shifts);
            ApplyMonthPlans(once, drafts, shifts).plans == once.plans
  {
    var (lo, hi) := MonthOf(drafts);
    var out := Negation(PlanIn(lo, hi));
    var kept := Filter(w.plans, out);
    var added := PlansFor(drafts);
    forall k | 0 <= k < |added|
      ensures !out(added[k])
    {
      assert PlanWithin(DraftPlan(drafts[k]), lo, hi);
    }
    ReplaceTwice(kept, added, out);
  }

  /** Importing the same drafts again replaces the month's alarms once more,
      but the first import's alarms that fall outside the month (an overnight
      check-out on the next month's first day, a wake-up before the month's
      first midnight) survive and are joined by fresh copies. */
  lemma ReimportAlarms(w: World, drafts: seq<DayPlanDraft>, shifts: seq<ShiftType>)
    requires |drafts| > 0
    ensures var once := ApplyMonthPlans(w, drafts, shifts);
            var twice := ApplyMonthPlans(once, drafts, shifts);
            var out := Negation(AlarmIn(MonthOf(drafts).0, MonthOf(drafts).1));
            && twice.alarms == Filter(w.alarms, out) + Filter(NewAlarms(drafts, shifts, w.nextId), out)
                               + NewAlarms(drafts, shifts, once.nextId)
            && |twice.alarms| == |once.alarms| + |Filter(NewAlarms(drafts, shifts, w.nextId), out)|
  {
    var (lo, hi) := MonthOf(drafts);
    var out := Negation(AlarmIn(lo, hi));
    var kept := Filter(w.alarms, out);
    var once := ApplyMonthPlans(w, drafts, shifts);
    FilterConcat(kept, NewAlarms(drafts, shifts, w.nextId), out);
    FilterKeepsAll(kept, out);
  }

  /** So an import is not idempotent: as soon as one of its alarms falls
      outside the month, importing the same drafts again leaves more alarms. */
  lemma ReimportNotIdempotent(w: World, drafts: seq<DayPlanDraft>, shifts: seq<ShiftType>, a: AlarmInstance)
    requires |drafts| > 0
    requires a in NewAlarms(drafts, shifts, w.nextId) && !AlarmWithin(a, MonthOf(drafts).0, MonthOf(drafts).1)
    ensures var once := ApplyMonthPlans(w, drafts, shifts);
            |ApplyMonthPlans(once, drafts, shifts).alarms| > |once.alarms|
  {
    ReimportAlarms(w, drafts, shifts);
    var (lo, hi) := MonthOf(drafts);
    assert a in Filter(NewAlarms(drafts, shifts, w.nextId), Negation(AlarmIn(lo, hi)));
  }
}
