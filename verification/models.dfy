/** The persisted records of the app: shift types with their alarm templates,
    day plans, alarm instances and the settings record. Object identities
    (`UUID` ids) are left out: a value's place in its sequence stands for it,
    and an alarm's scheduler id is a natural-number token. */
module Models {

  datatype AlarmAnchor = Start | End

  /** `AlarmAnchor.rawValue`. */
  function AnchorRawValue(a: AlarmAnchor): string {
    match a
    case Start => "start"
    case End => "end"
  }

  predicate IsAnchorRaw(raw: string) {
    raw == "start" || raw == "end"
  }

  /** A template as stored: the anchor is kept as its raw string, so any
      string can sit there. */
  datatype AlarmTemplate = AlarmTemplate(labelText: string, anchorRaw: string, offsetMinutes: int, enabled: bool)

  /** `AlarmTemplate.init`. */
  function NewTemplate(labelText: string, anchor: AlarmAnchor, offsetMinutes: int, enabled: bool): (t: AlarmTemplate)
    ensures IsAnchorRaw(t.anchorRaw)
    ensures GetAnchor(t) == anchor
    ensures t.labelText == labelText && t.offsetMinutes == offsetMinutes && t.enabled == enabled
  {
    AlarmTemplate(labelText, AnchorRawValue(anchor), offsetMinutes, enabled)
  }

  /** The `anchor` getter: `AlarmAnchor(rawValue: anchorRaw) ?? .start`. */
  function GetAnchor(t: AlarmTemplate): (a: AlarmAnchor)
    ensures a == End <==> t.anchorRaw == "end"
  {
    if t.anchorRaw == "end" then End
    else if t.anchorRaw == "start" then Start
    else Start
  }

  /** The `anchor` setter: stores the raw value and touches nothing else. */
  function SetAnchor(t: AlarmTemplate, a: AlarmAnchor): (r: AlarmTemplate)
    ensures GetAnchor(r) == a
    ensures IsAnchorRaw(r.anchorRaw)
    ensures r.labelText == t.labelText && r.offsetMinutes == t.offsetMinutes && r.enabled == t.enabled
  {
    t.(anchorRaw := AnchorRawValue(a))
  }

  /** `copy()`: a fresh template built from the labelText, the anchor as read
      through the getter, the offset and the flag. */
  function Copy(t: AlarmTemplate): (r: AlarmTemplate)
    ensures r.labelText == t.labelText && r.offsetMinutes == t.offsetMinutes && r.enabled == t.enabled
    ensures GetAnchor(r) == GetAnchor(t)
    ensures IsAnchorRaw(r.anchorRaw)
  {
    NewTemplate(t.labelText, GetAnchor(t), t.offsetMinutes, t.enabled)
  }

  /** A copy equals its original exactly when the original's raw anchor is
      valid; any other raw anchor is normalised to "start". */
  lemma CopyNormalises(t: AlarmTemplate)
    ensures Copy(t) == t <==> IsAnchorRaw(t.anchorRaw)
    ensures !IsAnchorRaw(t.anchorRaw) ==> Copy(t).anchorRaw == "start"
  {
  }

  /** Copying a copy changes nothing further. */
  lemma CopyIdempotent(t: AlarmTemplate)
    ensures Copy(Copy(t)) == Copy(t)
  {
    CopyNormalises(Copy(t));
  }

  /** `templates.map { $0.copy() }`. */
  function CopyAll(ts: seq<AlarmTemplate>): (r: seq<AlarmTemplate>)
    ensures |r| == |ts|
    ensures forall k :: 0 <= k < |r| ==> r[k] == Copy(ts[k])
  {
    if |ts| == 0 then [] else [Copy(ts[0])] + CopyAll(ts[1..])
  }

  datatype ShiftType = ShiftType(
    name: string,
    startTime: string,
    endTime: string,
    keywordRules: seq<string>,
    alarmTemplates: seq<AlarmTemplate>)

  /** `ShiftType.init`: fields stored verbatim, no templates yet. */
  function NewShiftType(name: string, startTime: string, endTime: string, keywordRules: seq<string>): (s: ShiftType)
    ensures s.alarmTemplates == []
    ensures s.name == name && s.startTime == startTime && s.endTime == endTime && s.keywordRules == keywordRules
  {
    ShiftType(name, startTime, endTime, keywordRules, [])
  }

  /** A day plan; `date` is a day number. */
  datatype DayPlan = DayPlan(date: int, source: string, shiftName: string)

  /** An alarm; `dateTime` is an instant in minutes, `alarmKitId` the token
      the external scheduler knows it by. */
  datatype AlarmInstance = AlarmInstance(dateTime: int, labelText: string, enabled: bool, alarmKitId: nat, shiftName: string)

  datatype AppSettings = AppSettings(defaultWakeOffsetMinutes: int, defaultStartOffsetMinutes: int, defaultEndOffsetMinutes: int)
}
