/** The shift editor sheet: its initial state, the keyword field's parsing,
    the "add alarm" button, whether saving is allowed, and what saving does
    to the catalog. */
module ShiftEditor {
  import opened Wrappers
  import opened Seqs
  import opened Text
  import opened Models

  // ---------------------------------------------------------------------------
  // The keyword field

  /** Each piece trimmed of spaces and tabs at both ends. */
  function TrimEach(pieces: seq<string>): (r: seq<string>)
    ensures |r| == |pieces|
    ensures forall k :: 0 <= k < |r| ==> r[k] == Trim(pieces[k], IsSpaceOrTab)
  {
    if |pieces| == 0 then [] else [Trim(pieces[0], IsSpaceOrTab)] + TrimEach(pieces[1..])
  }

  /** A rule as the editor can produce it: non-empty, free of commas, with
      no space or tab at either end. */
  predicate CleanRule(rule: string) {
    rule != "" && ',' !in rule && !IsSpaceOrTab(rule[0]) && !IsSpaceOrTab(rule[|rule| - 1])
  }

  /** Trimming a comma-free piece leaves a clean rule or nothing. */
  lemma TrimmedPieceClean(piece: string)
    requires ',' !in piece
    ensures Trim(piece, IsSpaceOrTab) != "" ==> CleanRule(Trim(piece, IsSpaceOrTab))
  {
  }

  /** Trimming comma-free pieces leaves clean rules or empty strings. */
  lemma TrimmedPiecesClean(pieces: seq<string>)
    requires forall k :: 0 <= k < |pieces| ==> ',' !in pieces[k]
    ensures forall x :: x in TrimEach(pieces) && x != "" ==> CleanRule(x)
  {
    var trimmed := TrimEach(pieces);
    forall k | 0 <= k < |trimmed|
      ensures trimmed[k] != "" ==> CleanRule(trimmed[k])
    {
      TrimmedPieceClean(pieces[k]);
    }
  }

  /** `keywords.split(separator: ",").map { trim }.filter { !$0.isEmpty }`. */
  function ParseKeywords(keywords: string): (r: seq<string>)
    ensures forall k :: 0 <= k < |r| ==> CleanRule(r[k])
  {
    TrimmedPiecesClean(Split(keywords, ','));
    var r := Filter(TrimEach(Split(keywords, ',')), IsNonEmpty);
    assert forall k :: 0 <= k < |r| ==> r[k] in r;
    r
  }

  lemma {:induction false} TrimEachConcat(a: seq<string>, b: seq<string>)
    ensures TrimEach(a + b) == TrimEach(a) + TrimEach(b)
    decreases |a|
  {
    if |a| == 0 {
      assert a + b == b;
    } else {
      assert (a + b)[0] == a[0] && (a + b)[1..] == a[1..] + b;
      TrimEachConcat(a[1..], b);
    }
  }

  /** The rules of a field keep the order of their pieces: the rules of two
      pieces of text joined by a comma are those of the first followed by
      those of the second. */
  lemma ParseKeywordsConcat(a: string, b: string)
    ensures ParseKeywords(a + "," + b) == ParseKeywords(a) + ParseKeywords(b)
  {
    SplitConcat(a, b, ',');
    TrimEachConcat(Split(a, ','), Split(b, ','));
    FilterConcat(TrimEach(Split(a, ',')), TrimEach(Split(b, ',')), IsNonEmpty);
  }

  /** `keywordRules.joined(separator: ",")`, the field's initial text. */
  function JoinKeywords(rules: seq<string>): (r: string)
    ensures |rules| == 0 ==> r == ""
  {
    Join(rules, ',')
  }

  /** Clean rules survive being shown in the field and saved back unchanged. */
  lemma KeywordsRoundTrip(rules: seq<string>)
    requires forall k :: 0 <= k < |rules| ==> CleanRule(rules[k])
    ensures ParseKeywords(JoinKeywords(rules)) == rules
  {
    SplitOfJoin(rules, ',');
    forall k | 0 <= k < |rules|
      ensures Trim(rules[k], IsSpaceOrTab) == rules[k]
    {
      TrimKeeps(rules[k], IsSpaceOrTab);
    }
    assert TrimEach(rules) == rules;
    FilterKeepsAll(rules, IsNonEmpty);
  }

  /** Rules the editor produced itself are clean, so showing and re-parsing
      them is a fixed point. */
  lemma ParseJoinParse(keywords: string)
    ensures ParseKeywords(JoinKeywords(ParseKeywords(keywords))) == ParseKeywords(keywords)
  {
    KeywordsRoundTrip(ParseKeywords(keywords));
  }

  // ---------------------------------------------------------------------------
  // The editor's state

  /** The sheet's fields, and which catalog entry it edits (none for a new
      shift). */
  datatype Editor = Editor(
    name: string,
    startTime: string,
    endTime: string,
    keywords: string,
    templates: seq<AlarmTemplate>,
    editing: Option<nat>)

  const DefaultStartTime: string := "09:00"
  const DefaultEndTime: string := "18:00"

  /** `ShiftEditorView.init(shift:)` for catalog entry `target`, or for a new
      shift: a new shift starts empty at 09:00-18:00; an existing one shows
      its fields, its rules joined by commas, and copies of its templates. */
  function OpenEditor(catalog: seq<ShiftType>, target: Option<nat>): (e: Editor)
    requires target.Some? ==> target.value < |catalog|
    ensures e.editing == target
    ensures target.None? ==>
              e.name == "" && e.startTime == DefaultStartTime && e.endTime == DefaultEndTime
              && e.keywords == "" && e.templates == []
    ensures target.Some? ==>
              var s := catalog[target.value];
              && e.name == s.name && e.startTime == s.startTime && e.endTime == s.endTime
              && e.keywords == JoinKeywords(s.keywordRules)
              && e.templates == CopyAll(s.alarmTemplates)
  {
    match target
    case None => Editor("", DefaultStartTime, DefaultEndTime, "", [], None)
    case Some(i) =>
      var s := catalog[i];
      Editor(s.name, s.startTime, s.endTime, JoinKeywords(s.keywordRules), CopyAll(s.alarmTemplates), target)
  }

  /** The label, anchor, offset and flag of a template added by the button. */
  const NewAlarmLabel: string := "新闹钟"

  /** "Add alarm": one enabled template at the shift's start with no offset
      goes at the end; nothing else changes. */
  function AddAlarm(e: Editor): (r: Editor)
    ensures |r.templates| == |e.templates| + 1
    ensures r.templates[..|e.templates|] == e.templates
    ensures r.templates[|e.templates|] == AlarmTemplate(NewAlarmLabel, "start", 0, true)
    ensures r.(templates := e.templates) == e
  {
    e.(templates := e.templates + [NewTemplate(NewAlarmLabel, Start, 0, true)])
  }

  /** Swipe-to-delete on the template rows: the rows at `offsets` go, the
      others stay in order, and nothing else in the sheet changes. */
  function DeleteTemplates(e: Editor, offsets: set<int>): (r: Editor)
    ensures r.(templates := e.templates) == e
    ensures |r.templates| == |e.templates| - |set k | 0 <= k < |e.templates| && k in offsets|
    ensures forall k :: 0 <= k < |e.templates| && k !in offsets ==> e.templates[k] in r.templates
    ensures forall t :: t in r.templates ==> t in e.templates
  {
    RemoveOffsetsLength(e.templates, offsets);
    e.(templates := RemoveOffsets(e.templates, offsets))
  }

  /** Deleting keeps the rows' order: with one more row at the end, the
      same rows survive in front of it, and the new row follows unless its
      position is named. */
  lemma DeleteTemplatesKeepsOrder(e: Editor, t: AlarmTemplate, offsets: set<int>)
    ensures DeleteTemplates(e.(templates := e.templates + [t]), offsets).templates
            == DeleteTemplates(e, offsets).templates + (if |e.templates| in offsets then [] else [t])
  {
    RemoveOffsetsSnoc(e.templates, t, offsets);
  }

  /** Deleting the row just added undoes "Add alarm". */
  lemma AddThenDelete(e: Editor)
    ensures DeleteTemplates(AddAlarm(e), {|e.templates|}) == e
  {
    KeptFromDropLast(e.templates, NewTemplate(NewAlarmLabel, Start, 0, true), 0);
  }

  /** `ShiftListView.delete(at:)`: the shifts shown at `offsets` leave the
      catalog, the others stay in order. */
  function DeleteShifts(shown: seq<ShiftType>, offsets: set<int>): (r: seq<ShiftType>)
    ensures |r| == |shown| - |set k | 0 <= k < |shown| && k in offsets|
    ensures forall k :: 0 <= k < |shown| && k !in offsets ==> shown[k] in r
    ensures forall s :: s in r ==> exists k :: 0 <= k < |shown| && k !in offsets && shown[k] == s
  {
    RemoveOffsetsLength(shown, offsets);
    RemoveOffsets(shown, offsets)
  }

  /** A swipe that names no row deletes nothing. */
  lemma DeleteNoShifts(shown: seq<ShiftType>, offsets: set<int>)
    requires forall k :: 0 <= k < |shown| ==> k !in offsets
    ensures DeleteShifts(shown, offsets) == shown
  {
    KeptFromNone(shown, offsets, 0);
  }

  /** The Save button is enabled when the name trimmed of spaces and tabs is
      not empty. */
  predicate CanSave(e: Editor) {
    Trim(e.name, IsSpaceOrTab) != ""
  }

  /** Saving is allowed exactly when the name holds a character other than a
      space or tab. */
  lemma CanSaveIff(e: Editor)
    ensures CanSave(e) <==> exists k :: 0 <= k < |e.name| && !IsSpaceOrTab(e.name[k])
  {
    TrimEmptyIff(e.name, IsSpaceOrTab);
  }

  /** `save()`: an edited entry gets the sheet's name and times, the parsed
      rules and fresh copies of the templates, and no other entry changes; a
      new shift built the same way is appended. The name is stored as
      typed, untrimmed. */
  function Save(e: Editor, catalog: seq<ShiftType>): (r: seq<ShiftType>)
    requires e.editing.Some? ==> e.editing.value < |catalog|
    ensures e.editing.Some? ==> |r| == |catalog| && forall j :: 0 <= j < |r| && j != e.editing.value ==> r[j] == catalog[j]
    ensures e.editing.None? ==> |r| == |catalog| + 1 && r[..|catalog|] == catalog
    ensures var s := r[if e.editing.Some? then e.editing.value else |catalog|];
            && s.name == e.name && s.startTime == e.startTime && s.endTime == e.endTime
            && s.keywordRules == ParseKeywords(e.keywords)
            && s.alarmTemplates == CopyAll(e.templates)
  {
    var rules := ParseKeywords(e.keywords);
    match e.editing
    case Some(i) =>
      catalog[i := catalog[i].(name := e.name, startTime := e.startTime, endTime := e.endTime,
                               keywordRules := rules, alarmTemplates := CopyAll(e.templates))]
    case None =>
      catalog + [NewShiftType(e.name, e.startTime, e.endTime, rules).(alarmTemplates := CopyAll(e.templates))]
  }

  /** A stored template whose anchor is already valid. */
  predicate CleanTemplate(t: AlarmTemplate) {
    IsAnchorRaw(t.anchorRaw)
  }

  /** Opening an entry and saving it untouched changes nothing when its rules
      are clean and its templates' anchors valid: the round trip through the
      comma-joined field gives the rules back and copying a copy gives the
      template back. */
  lemma OpenThenSaveUnchanged(catalog: seq<ShiftType>, i: nat)
    requires i < |catalog|
    requires forall k :: 0 <= k < |catalog[i].keywordRules| ==> CleanRule(catalog[i].keywordRules[k])
    requires forall k :: 0 <= k < |catalog[i].alarmTemplates| ==> CleanTemplate(catalog[i].alarmTemplates[k])
    ensures Save(OpenEditor(catalog, Some(i)), catalog) == catalog
  {
    var s := catalog[i];
    KeywordsRoundTrip(s.keywordRules);
    forall k | 0 <= k < |s.alarmTemplates|
      ensures Copy(Copy(s.alarmTemplates[k])) == s.alarmTemplates[k]
    {
      CopyNormalises(s.alarmTemplates[k]);
    }
    assert CopyAll(CopyAll(s.alarmTemplates)) == s.alarmTemplates;
    var r := Save(OpenEditor(catalog, Some(i)), catalog);
    assert r[i] == s;
  }
}
