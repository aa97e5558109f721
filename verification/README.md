# WorkShiftAlarm schedule-to-alarm core, in Dafny

WorkShiftAlarm is an iOS app that reads a photographed monthly duty roster and
turns it into alarms. This project models the part of the app between the
text recogniser and the alarm API, and proves properties of it. That part
works on strings, integers and small records:

1. **Roster parsing** (`ScheduleOCRService`, module `Ocr`).
   - Finds the `dddd年d月` header.
   - Picks the fragments that read as day numbers 1...31.
   - Collects, for each day number, the text of the fragments in its column.
2. **Shift classification** (`ShiftMappingService`, module `ShiftMapping`).
   - The first shift in catalog order with a keyword rule in the space-stripped text wins.
   - Otherwise the first shift wins.
   - Each entry becomes a dated draft.
3. **Alarm derivation and month reconciliation** (`SchedulePlanner`, modules `Planner` and `Reconciler`).
   - Parses `HH:MM`.
   - Rolls an overnight end to the next day.
   - Applies each enabled template's anchor and offset.
   - Replaces the month's day plans and alarms in the store, cancelling each alarm with the scheduler before deleting it.
4. **Supporting value logic.**
   - Template anchor decoding and copying (module `Models`).
   - The review screen's sort, per-row pick and batch edit (module `Review`).
   - The shift editor's keyword field, defaults, save and deletions (module `ShiftEditor`).
   - The catalog seeded on first launch (module `Seed`).

Time model (module `Calendar`):
- A date is an integer day number. Day 0 is 0001-01-01 of the proleptic Gregorian calendar.
- An instant is `day * 1440 + minute of day`.
- There are no time zones and no daylight-saving time.
- Building a date from components is lenient, as Foundation's is: day 0 is the previous month's last day, month 13 is the next January, and hour 25 is the next day.

The store and the alarm scheduler are one value, `Reconciler.World`. It holds:
- the day plans and the alarm instances, as two sequences;
- a journal of every store and scheduler call, in order;
- the next scheduler token.

`Reconciler.ApplyMonthPlans` is a pure transformer of this value. `Reconciler.SchedulerLog` projects the journal onto the scheduler's calls.

Modules, in dependency order:
- `Wrappers`, `Seqs`, `Text` and `Calendar` (generic support);
- `Models` and `Ocr`, then `ShiftMapping`, `Planner` and `Reconciler`;
- `Review`, `ShiftEditor` and `Seed`;
- `OcrExamples`, which holds worked cases on literal fragments.

## Model

| member | source | states |
|---|---|---|
| Models.NewTemplate | Sources/WorkShiftAlarm/Models.swift:44-50 | a new template stores a valid raw anchor that reads back as the anchor given, with label, offset and flag verbatim |
| Models.GetAnchor | Sources/WorkShiftAlarm/Models.swift:52-53 | the anchor is `.end` exactly when the raw string is "end"; anything else reads as `.start` |
| Models.SetAnchor | Sources/WorkShiftAlarm/Models.swift:54 | reading the anchor after setting it gives the value set; the raw string is valid; the other fields are unchanged |
| Models.Copy | Sources/WorkShiftAlarm/Models.swift:57-59 | a copy keeps label, offset, flag and the anchor as read, and always has a valid raw anchor |
| Models.CopyNormalises | Sources/WorkShiftAlarm/Models.swift:53-58 | a copy equals the original exactly when its raw anchor is valid; an invalid one becomes "start" |
| Models.CopyIdempotent | Sources/WorkShiftAlarm/Models.swift:57-59 | copying a copy changes nothing |
| Models.CopyAll | Sources/WorkShiftAlarm/Views/ShiftListView.swift:68 | the templates are copied one by one, in order |
| Models.NewShiftType | Sources/WorkShiftAlarm/Models.swift:26-33 | a new shift has no templates and stores name, times and rules verbatim |
| Text.RemoveSpaces | Sources/WorkShiftAlarm/Services/ShiftMappingService.swift:32 | only U+0020 is removed; every other character keeps its count; a text without U+0020 is unchanged |
| Text.Contains | Sources/WorkShiftAlarm/Services/ShiftMappingService.swift:35 | true exactly when the rule occurs as a contiguous substring |
| Text.Trim | Sources/WorkShiftAlarm/Services/OCRService.swift:37 | the result is the contiguous middle of the input; everything cut from either end is droppable; the result neither starts nor ends with a droppable character |
| Text.TrimEmptyIff | Sources/WorkShiftAlarm/Views/ShiftListView.swift:109 | trimming gives "" exactly when every character is droppable |
| Text.Split | Sources/WorkShiftAlarm/Views/ShiftListView.swift:116 | the pieces are non-empty and free of the separator |
| Text.SplitOfJoin | Sources/WorkShiftAlarm/Views/ShiftListView.swift:67-116 | splitting the join of non-empty, separator-free parts gives the parts back |
| Text.SplitConcat | Sources/WorkShiftAlarm/Views/ShiftListView.swift:116 | splitting two texts joined by the separator gives the first text's pieces followed by the second's |
| Text.ParseInt | Sources/WorkShiftAlarm/Services/OCRService.swift:61 | `Int(text)` succeeds exactly when the text is an optional sign followed by one or more ASCII digits and the number they denote fits 64 bits, and then gives that number |
| Text.LeadingPlusIgnored | Sources/WorkShiftAlarm/Services/OCRService.swift:61 | a leading `+` before digits reads as the digits alone |
| Text.LeadingZeroIgnored | Sources/WorkShiftAlarm/Services/OCRService.swift:61 | a zero at the start of the digits, after any sign, does not change what is read |
| Text.ParseShowInt | Sources/WorkShiftAlarm/Services/OCRService.swift:61 | every 64-bit integer reads back from its decimal text |
| Calendar.ToCivil | Sources/WorkShiftAlarm/Services/ShiftMappingService.swift:20-24 | a day number has a valid (year, month, day) that maps back to it |
| Calendar.CivilRoundTrip | Sources/WorkShiftAlarm/Services/ShiftMappingService.swift:20-24 | a valid calendar date survives the trip to a day number and back |
| Calendar.ComponentsRoundTrip | Sources/WorkShiftAlarm/Services/ShiftMappingService.swift:20-24 | for valid components the date built carries those components |
| Calendar.MonthStart | Sources/WorkShiftAlarm/Services/SchedulePlanner.swift:14-18 | the month start is the first of the date's month, `day - 1` days before the date |
| Calendar.NextMonthStart | Sources/WorkShiftAlarm/Services/SchedulePlanner.swift:19 | one month later is the length of the date's month after the month start, and after the date itself |
| Calendar.SameMonthIff | Sources/WorkShiftAlarm/Services/SchedulePlanner.swift:18-19 | a day lies in [month start, next month start) exactly when it has the date's year and month |
| Calendar.StartOfDay | Sources/WorkShiftAlarm/Views/ManualReviewView.swift:106-109 | the start of day is the day whose minutes contain the instant |
| Ocr.HeaderAt | Sources/WorkShiftAlarm/Services/OCRService.swift:46 | a match anchored at a position is laid out as four digits, spaces, 年, spaces, one or two digits, spaces, 月 |
| Ocr.HeaderAtComplete | Sources/WorkShiftAlarm/Services/OCRService.swift:46 | wherever the header is laid out, the anchored match finds exactly its two groups |
| Ocr.HeaderIndexFrom | Sources/WorkShiftAlarm/Services/OCRService.swift:49 | the match position is the leftmost one: it matches and no earlier position does; with no match, no position matches |
| Ocr.FirstHeader | Sources/WorkShiftAlarm/Services/OCRService.swift:49 | a text has no header exactly when no position of it matches |
| Ocr.FirstHeaderIs | Sources/WorkShiftAlarm/Services/OCRService.swift:49 | a match with none before it gives the text's header groups |
| Ocr.ParseYearMonth | Sources/WorkShiftAlarm/Services/OCRService.swift:45-56 | the first text in order with a header gives (year, month), with `now` standing in for an unreadable group; with no header, `now` |
| Ocr.AsciiHeaderValues | Sources/WorkShiftAlarm/Services/OCRService.swift:50-51 | ASCII digit groups give a year in 0...9999 and a month in 0...99, read from the digits |
| Ocr.DayCandidates | Sources/WorkShiftAlarm/Services/OCRService.swift:60-63 | a fragment is a candidate exactly when it reads as an `Int` in 1...31; candidates keep source multiplicity |
| Ocr.NearbyFragments | Sources/WorkShiftAlarm/Services/OCRService.swift:69-74 | a fragment is in the column exactly when it is in the input and passes the x and y tests |
| Ocr.MapTextsToDates | Sources/WorkShiftAlarm/Services/OCRService.swift:59-79 | one entry per candidate, in source order, with the day number in 1...31, the column text and the candidate's confidence |
| Ocr.NumbersNeverNearby | Sources/WorkShiftAlarm/Services/OCRService.swift:70 | a fragment that reads as an `Int`, in range or not, is never in any column |
| Ocr.EmptyColumnEmptyText | Sources/WorkShiftAlarm/Services/OCRService.swift:75 | a candidate with nothing in its column gets the empty text |
| Ocr.Recognize | Sources/WorkShiftAlarm/Services/OCRService.swift:35-42 | the month is read from the trimmed texts and the entries from the trimmed fragments, one pass over the same list |
| Ocr.Trimmed | Sources/WorkShiftAlarm/Services/OCRService.swift:37 | each fragment keeps its place and box, with its text trimmed of whitespace and newlines |
| OcrExamples.HeaderExample | Sources/WorkShiftAlarm/Services/OCRService.swift:45-52 | "2024年5月" gives (2024, 5) whatever `now` is |
| OcrExamples.UnanchoredHeader | Sources/WorkShiftAlarm/Services/OCRService.swift:46 | in "12024年13月" the header is found one character in |
| OcrExamples.MonthNotChecked | Sources/WorkShiftAlarm/Services/OCRService.swift:50-52 | month 13 is returned unchecked |
| OcrExamples.NoHeaderUsesNow | Sources/WorkShiftAlarm/Services/OCRService.swift:55-56 | texts without a header give `now` |
| OcrExamples.ThreeFragments | Sources/WorkShiftAlarm/Services/OCRService.swift:59-79 | a header, a day number and text lower in its column give one entry for day 15 with that text and the number's confidence |
| ShiftMapping.AnyRuleFrom | Sources/WorkShiftAlarm/Services/ShiftMappingService.swift:34-38 | the rule loop succeeds exactly when some remaining rule occurs in the text |
| ShiftMapping.FirstMatchFrom | Sources/WorkShiftAlarm/Services/ShiftMappingService.swift:33-39 | the shift found matches and no earlier one does; with none found, no shift matches |
| ShiftMapping.MatchShiftName | Sources/WorkShiftAlarm/Services/ShiftMappingService.swift:31-41 | the result is "" or a catalog name; "" for an empty catalog; the first shift's name when nothing matches the space-stripped text |
| ShiftMapping.FirstMatchWins | Sources/WorkShiftAlarm/Services/ShiftMappingService.swift:33-37 | the first matching shift in catalog order is the one named |
| ShiftMapping.LaterRulesIrrelevant | Sources/WorkShiftAlarm/Services/ShiftMappingService.swift:33-37 | adding rules to a shift after one that already matches does not change the result |
| ShiftMapping.MapToDrafts | Sources/WorkShiftAlarm/Services/ShiftMappingService.swift:16-29 | one draft per entry, in order, with the text verbatim, its classification and the lenient date of (year, month, day) |
| ShiftMapping.DraftsOnTheirDays | Sources/WorkShiftAlarm/Services/ShiftMappingService.swift:20-24 | for a valid (year, month, day) the draft's date is that calendar day |
| Planner.DateWithTime | Sources/WorkShiftAlarm/Services/SchedulePlanner.swift:65-75 | there is an instant exactly when the time splits on ':' into two non-empty pieces |
| Planner.ClockRoundTrip | Sources/WorkShiftAlarm/Services/SchedulePlanner.swift:65-75 | a zero-padded `HH:MM` gives the instant HH hours MM minutes into the day |
| Planner.NonNumericPieceIsZero | Sources/WorkShiftAlarm/Services/SchedulePlanner.swift:68 | an hour piece that is not an `Int` counts as 0 |
| Planner.ShiftWindow | Sources/WorkShiftAlarm/Services/SchedulePlanner.swift:50-54 | the window exists exactly when the start time parses; the end is the parsed end or the start, pushed one day on when it is not after the start |
| Planner.WindowOfClocks | Sources/WorkShiftAlarm/Services/SchedulePlanner.swift:50-54 | for in-range clock times the window starts at the start time, ends at the end time (next day when not later), and lasts at most one day |
| Planner.UnparseableEndIsOneDay | Sources/WorkShiftAlarm/Services/SchedulePlanner.swift:51-54 | an end time that does not parse makes the window exactly one day long |
| Planner.EnabledTemplates | Sources/WorkShiftAlarm/Services/SchedulePlanner.swift:56 | the templates walked are exactly the enabled ones |
| Planner.BuildAlarms | Sources/WorkShiftAlarm/Services/SchedulePlanner.swift:47-63 | no window, no alarms; otherwise one alarm per enabled template in order, at the anchor's end of the window plus the offset, with the template's label, enabled, the shift's name and consecutive tokens |
| Planner.DisabledTemplatesRingNothing | Sources/WorkShiftAlarm/Services/SchedulePlanner.swift:56 | a shift whose templates are all disabled builds no alarms |
| Planner.FirstNamed | Sources/WorkShiftAlarm/Services/SchedulePlanner.swift:34 | the lookup finds the first shift with the draft's name, or none exists |
| Planner.DraftAlarms | Sources/WorkShiftAlarm/Services/SchedulePlanner.swift:34-39 | an unknown name or "休" gives no alarms; every alarm is enabled and carries the draft's shift name and a consecutive token |
| Planner.DraftUsesFirstNamedShift | Sources/WorkShiftAlarm/Services/SchedulePlanner.swift:34-39 | a working shift's draft gets the alarms built from the first shift with its name |
| Planner.NewAlarms | Sources/WorkShiftAlarm/Services/SchedulePlanner.swift:30-44 | the month's new alarms number as many as the drafts ring together, carry consecutive tokens from the counter and are enabled |
| Planner.AlarmChunkAt | Sources/WorkShiftAlarm/Services/SchedulePlanner.swift:30-43 | draft `k` contributes exactly its own alarms, numbered from the counter plus the count of alarms of the drafts before it |
| Planner.PlansFor | Sources/WorkShiftAlarm/Services/SchedulePlanner.swift:31-32 | one plan per draft, in order, with its date, source "OCR" and its shift name |
| Planner.ChunksMakeNewAlarms | Sources/WorkShiftAlarm/Services/SchedulePlanner.swift:30-44 | the month's new alarms are each draft's own alarms, in draft order, one after another |
| Reconciler.RunConcat | Sources/WorkShiftAlarm/Services/SchedulePlanner.swift:12-45 | running two call lists one after the other is running their concatenation |
| Reconciler.RunJournals | Sources/WorkShiftAlarm/Services/SchedulePlanner.swift:12-45 | every call made is appended to the journal, in order |
| Reconciler.RunDeletePlans | Sources/WorkShiftAlarm/Services/SchedulePlanner.swift:21-22 | deleting the fetched plans removes them and leaves the alarms alone |
| Reconciler.RunCancelDeletes | Sources/WorkShiftAlarm/Services/SchedulePlanner.swift:24-28 | cancelling and deleting the fetched alarms removes them and leaves the plans alone |
| Reconciler.RunInsertSchedules | Sources/WorkShiftAlarm/Services/SchedulePlanner.swift:40-43 | inserting and scheduling appends the alarms and leaves the plans alone |
| Reconciler.RunInterleave | Sources/WorkShiftAlarm/Services/SchedulePlanner.swift:30-44 | the draft loop appends every plan and, after them in turn, every alarm |
| Reconciler.RunInserts | Sources/WorkShiftAlarm/Services/SchedulePlanner.swift:30-44 | the draft loop appends the drafts' plans and the month's new alarms |
| Reconciler.ApplyMonthPlans | Sources/WorkShiftAlarm/Services/SchedulePlanner.swift:12-85 | no drafts, no change; otherwise plans and alarms outside the first draft's month are kept in order, the new plans and alarms are appended, the calls are journalled and the token counter advances by the number of new alarms |
| Reconciler.ImportEffects | Sources/WorkShiftAlarm/Services/SchedulePlanner.swift:12-85 | making the month's calls one by one on the store gives the import's plans, alarms and journal |
| Reconciler.PairedMeaning | Sources/WorkShiftAlarm/Services/SchedulePlanner.swift:24-43 | in a paired call list every alarm deletion directly follows its cancellation and every insertion is directly followed by its scheduling |
| Reconciler.OrderOfPieces | Sources/WorkShiftAlarm/Services/SchedulePlanner.swift:21-43 | the import's three phases keep cancel-before-delete and insert-then-schedule, and cancel and delete every fetched alarm |
| Reconciler.ImportCallOrder | Sources/WorkShiftAlarm/Services/SchedulePlanner.swift:24-43 | in an import every alarm is cancelled right before it is deleted and scheduled right after it is inserted; every stored alarm of the month is cancelled and deleted |
| Reconciler.ImportedPlans | Sources/WorkShiftAlarm/Services/SchedulePlanner.swift:21-79 | a plan is stored afterwards exactly when it was stored before outside the month, or it is one of the drafts' plans |
| Reconciler.ImportedAlarms | Sources/WorkShiftAlarm/Services/SchedulePlanner.swift:24-84 | an alarm is stored afterwards exactly when it was stored before outside the month, or it is one of the new alarms |
| Reconciler.SchedulerLogConcat | Sources/WorkShiftAlarm/Services/SchedulePlanner.swift:12-45 | the scheduler's view of concatenated calls is the concatenation of the views |
| Reconciler.SchedulerSeesMonthCalls | Sources/WorkShiftAlarm/Services/SchedulePlanner.swift:21-43 | the scheduler sees the month's stored alarms cancelled, then the new alarms scheduled, and nothing about plans |
| Reconciler.ImportSchedulerLog | Sources/WorkShiftAlarm/Services/SchedulePlanner.swift:12-45 | an import adds to the scheduler log exactly the month's cancellations followed by the new alarms' schedulings |
| Reconciler.EmptyImportSchedulesNothing | Sources/WorkShiftAlarm/Services/SchedulePlanner.swift:13 | an empty draft list changes neither the store nor the scheduler log |
| Reconciler.ImportTokensFresh | Sources/WorkShiftAlarm/Services/SchedulePlanner.swift:59 | new alarms get tokens no stored alarm has, and every token stays below the counter |
| Reconciler.ReimportPlansStable | Sources/WorkShiftAlarm/Services/SchedulePlanner.swift:18-32 | with every draft in the first draft's month, importing the same drafts again leaves the same plans |
| Reconciler.ReimportAlarms | Sources/WorkShiftAlarm/Services/SchedulePlanner.swift:18-43 | importing again keeps the first import's alarms that fall outside the month and adds a fresh set, so the count grows by the number outside |
| Reconciler.ReimportNotIdempotent | Sources/WorkShiftAlarm/Services/SchedulePlanner.swift:18-84 | one new alarm outside the month makes the second import store more alarms than the first |
| Review.InsertByDate | Sources/WorkShiftAlarm/Views/ManualReviewView.swift:14 | inserting into an ascending list keeps it ascending and adds exactly that draft |
| Review.SortByDate | Sources/WorkShiftAlarm/Views/ManualReviewView.swift:14 | the review list is a permutation of the drafts in ascending date order |
| Review.SortedStays | Sources/WorkShiftAlarm/Views/ManualReviewView.swift:14 | an already ascending list is left as it is |
| Review.SelectShift | Sources/WorkShiftAlarm/Views/ManualReviewView.swift:32-35 | picking a shift sets that row's shift name to the shift's name and changes nothing else |
| Review.SelectShiftLastWins | Sources/WorkShiftAlarm/Views/ManualReviewView.swift:32-35 | picking twice on a row is picking the second shift |
| Review.DefaultSelection | Sources/WorkShiftAlarm/Views/ManualReviewView.swift:98-100 | an empty selection becomes the first shift's name, or "" with no shifts; a set one stays |
| Review.BatchApply | Sources/WorkShiftAlarm/Views/ManualReviewView.swift:105-114 | exactly the drafts whose day lies between the start and end days, both included, get the name; count, order, dates and texts are kept; a start day after the end day changes nothing |
| Review.BatchApplyIdempotent | Sources/WorkShiftAlarm/Views/ManualReviewView.swift:105-114 | applying the same batch twice is applying it once |
| Review.SameDayBatch | Sources/WorkShiftAlarm/Views/ManualReviewView.swift:106-110 | with start and end on the same day only that day's drafts can change |
| ShiftEditor.ParseKeywords | Sources/WorkShiftAlarm/Views/ShiftListView.swift:116 | every rule parsed is non-empty, comma-free and has no space or tab at either end |
| ShiftEditor.ParseKeywordsConcat | Sources/WorkShiftAlarm/Views/ShiftListView.swift:116 | the rules of two fields joined by a comma are the first's rules followed by the second's |
| ShiftEditor.KeywordsRoundTrip | Sources/WorkShiftAlarm/Views/ShiftListView.swift:67-116 | clean rules joined with commas and parsed again come back unchanged |
| ShiftEditor.ParseJoinParse | Sources/WorkShiftAlarm/Views/ShiftListView.swift:67-116 | showing parsed rules and parsing them again gives the same rules |
| ShiftEditor.OpenEditor | Sources/WorkShiftAlarm/Views/ShiftListView.swift:62-69 | a new shift opens with name "", 09:00-18:00, no keywords and no templates; an existing one with its fields, its rules joined by commas and copies of its templates |
| ShiftEditor.AddAlarm | Sources/WorkShiftAlarm/Views/ShiftListView.swift:94-96 | one template ("新闹钟", start, 0, enabled) is appended and nothing else changes |
| ShiftEditor.DeleteTemplates | Sources/WorkShiftAlarm/Views/ShiftListView.swift:91-93 | the rows named go, the others stay, and one row goes per position named |
| ShiftEditor.DeleteTemplatesKeepsOrder | Sources/WorkShiftAlarm/Views/ShiftListView.swift:91-93 | deleting keeps the surviving rows in their order: a row added at the end survives after the others unless its position is named |
| Seqs.RemoveOffsetsSnoc | Sources/WorkShiftAlarm/Views/ShiftListView.swift:92 | removing by position from a list with one more element at the end keeps the earlier survivors in order, then that element unless named |
| ShiftEditor.AddThenDelete | Sources/WorkShiftAlarm/Views/ShiftListView.swift:91-96 | deleting the row just added restores the sheet |
| ShiftEditor.DeleteShifts | Sources/WorkShiftAlarm/Views/ShiftListView.swift:46-48 | the shifts at the positions named leave the catalog, the others stay |
| ShiftEditor.DeleteNoShifts | Sources/WorkShiftAlarm/Views/ShiftListView.swift:46-48 | naming no position deletes nothing |
| ShiftEditor.CanSaveIff | Sources/WorkShiftAlarm/Views/ShiftListView.swift:109 | saving is enabled exactly when the name holds a character other than a space or tab |
| ShiftEditor.Save | Sources/WorkShiftAlarm/Views/ShiftListView.swift:115-128 | an edited shift gets the sheet's name, times, parsed rules and template copies and no other shift changes; a new shift built the same way is appended |
| ShiftEditor.OpenThenSaveUnchanged | Sources/WorkShiftAlarm/Views/ShiftListView.swift:62-122 | opening a shift with clean rules and valid anchors and saving it untouched changes nothing |
| Seed.DefaultTemplates | Sources/WorkShiftAlarm/ContentView.swift:56-62 | three enabled templates with valid anchors |
| Seed.SeedIfNeeded | Sources/WorkShiftAlarm/ContentView.swift:30-54 | with settings stored nothing changes; otherwise one settings record (-90, -10, 10) is stored and the seeded catalog A, C, D, 休 is appended after the existing shifts |
| Seed.SeedOnce | Sources/WorkShiftAlarm/ContentView.swift:31-32 | seeding a second time adds nothing |
| Seed.SeededCatalog | Sources/WorkShiftAlarm/ContentView.swift:41-53 | A, C, D and 休 in that order, with their rules; A, C and D carry the three default templates and 休 none |
| Seed.DayShiftWindow | Sources/WorkShiftAlarm/ContentView.swift:41 | A runs 09:00-18:00 on its day |
| Seed.LongShiftWindow | Sources/WorkShiftAlarm/ContentView.swift:42 | C runs 08:00-20:00 on its day |
| Seed.NightShiftWindow | Sources/WorkShiftAlarm/ContentView.swift:43 | D runs from 20:00 to 08:00 the next day |
| Seed.OnlyNightShiftCrossesMidnight | Sources/WorkShiftAlarm/ContentView.swift:41-43 | of the working shifts only D ends on the following day |
| Seed.NightShiftAlarms | Sources/WorkShiftAlarm/ContentView.swift:41-62 | a D day rings at 18:30 and 19:50, and at 08:10 the next day |
| Seed.RestDayRingsNothing | Sources/WorkShiftAlarm/ContentView.swift:44 | a 休 day rings nothing |
| Seed.NightShiftLeavesMonth | Sources/WorkShiftAlarm/ContentView.swift:43 | a D shift on the month's last day has an alarm outside the month |
| Seed.NightShiftAtMonthEndDuplicates | Sources/WorkShiftAlarm/ContentView.swift:43 | importing such a month twice stores more alarms than importing it once |

## Left out

- Image decoding and recognition (`OCRService.swift:18-43` up to the fragment list). These are outside the model. The recogniser's output arrives as a sequence of fragments (text, confidence, box centre x and y). Confidence is a `real` carried along untouched.
- Box coordinates and the column tolerances: the box centres, their differences and the constants 0.08 and -0.01 are exact reals. The app computes them in `CGFloat` (binary floating point), so a fragment lying at a tolerance boundary may fall on the other side in the app.
- The "now" fallback of the header and the scheduler tokens. Both are parameters: the year and month of `now`, and a token counter in `World` that stands for `UUID().uuidString`.
- The alarm API itself: authorization, the asynchronous tasks, and errors swallowed by `try?`. The scheduler is the journal of `CancelAlarm`/`ScheduleAlarm` calls.
- Persistence.
  - The store is two sequences.
  - A fetch that fails, which the app turns into an empty list, is not modelled.
  - The order of fetch results and of `@Query` results is an explicit input. This includes the catalog's sort by name in the shift list.
  - Deleting a record removes every value-equal copy, since identity is not modelled.
- The record identifiers (`id: UUID`) of shifts, templates, plans and alarms: not modelled.
- Time zones, daylight-saving time, and the Julian dates Foundation uses before 1582: not modelled.
  - Dates use the proleptic Gregorian calendar in whole minutes.
  - Component overflow follows Foundation's lenient rules.
  - So `calendar.date(from:)` never fails, and `mapToDrafts` never skips an entry.
- `date(byAdding:)` falling back to its input when it returns nil: not modelled. With integer instants it always succeeds.
- Unicode.
  - Strings are sequences of code points.
  - `\d` and `\s` of the header pattern are modelled on the ASCII, Arabic-Indic, extended Arabic-Indic and fullwidth digits and on the listed separators.
  - Grapheme clusters are not modelled.
  - `contains` with an empty rule is taken to be true.
- The layout of the sheets and lists, the template row's field bindings, `AlarmListView`, `ScheduleImportView` and the app entry point: pure UI with no logic, not modelled.
- Review.SortByDate: the model's insertion sort is stable. The contract states only what `sorted(by:)` promises, permutation and ascending order, because Swift's sort is not documented as stable.
- ShiftEditor.Save: does not check `CanSave` itself, as `save()` does not. The button's `disabled` state is modelled separately by `CanSave`.
- Page direction of the column test: it keeps a fragment whose centre's y is more than 0.01 less than the day number's. The recogniser's boxes have a lower-left origin, so this is a fragment below the day number on the page. The model states the raw comparison and says nothing about page layout.
- Review.BatchApply compares whole days. A range whose start and end fall on the same day applies to that day even when the start instant is later than the end instant.
