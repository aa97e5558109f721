/** Worked cases of the recogniser's parsing, on literal fragments. */
module OcrExamples {
  import opened Wrappers
  import opened Text
  import opened Seqs
  import opened Ocr

  lemma ParseYear2024()
    ensures ParseInt("2024") == Some(2024)
  {
    assert "2024"[..3] == "202" && "202"[..2] == "20" && "20"[..1] == "2" && "2"[..0] == "";
    assert DigitsValue("2024") == 2024;
  }

  lemma ParseMonth5()
    ensures ParseInt("5") == Some(5)
  {
  }

  lemma ParseMonth13()
    ensures ParseInt("13") == Some(13)
  {
    assert "13"[..1] == "1" && "1"[..0] == "";
  }

  /** "2024年5月" sets the month to May 2024, whatever the current date. */
  lemma HeaderExample()
    ensures ParseYearMonth(["2024年5月"], (1999, 1)) == (2024, 5)
  {
    MayHeader();
    ParseYear2024();
    ParseMonth5();
    SingleText(["2024年5月"], (1999, 1));
  }

  lemma SingleText(texts: seq<string>, now: (int, int))
    requires |texts| == 1 && FirstHeader(texts[0]).Some?
    ensures ParseYearMonth(texts, now) == GroupValues(FirstHeader(texts[0]).value, now)
  {
  }

  lemma MayHeader()
    ensures FirstHeader("2024年5月") == Some(("2024", "5"))
  {
    var t := "2024年5月";
    assert HeaderLayout(t, 0, "2024", "5", 0, 0, 0);
    HeaderAtComplete(t, 0, "2024", "5", 0, 0, 0);
    FirstHeaderIs(t, 0, ("2024", "5"));
  }

  /** The header is not anchored: inside "12024年13月" it is found one
      character in, after the leading "1". */
  lemma UnanchoredHeader()
    ensures FirstHeader("12024年13月") == Some(("2024", "13"))
  {
    var t := "12024年13月";
    NoHeaderAtStart();
    assert HeaderLayout(t, 1, "2024", "13", 0, 0, 0);
    HeaderAtComplete(t, 1, "2024", "13", 0, 0, 0);
    FirstHeaderIs(t, 1, ("2024", "13"));
  }

  lemma NoHeaderAtStart()
    ensures HeaderAt("12024年13月", 0) == None
  {
    var t := "12024年13月";
    assert t[4] == '4';
    assert SkipSpaces(t, 4) == 4;
  }

  /** The month group is not range-checked: month 13 is passed on as is. */
  lemma MonthNotChecked()
    ensures ParseYearMonth(["12024年13月"], (1999, 1)) == (2024, 13)
  {
    UnanchoredHeader();
    ParseYear2024();
    ParseMonth13();
    var hs := HeadersOf(["12024年13月"]);
    assert hs == [Some(("2024", "13"))];
    assert FirstFound(hs, 0) == Some(("2024", "13"));
  }

  /** With no header in any text, the current year and month are used. */
  lemma NoHeaderUsesNow()
    ensures ParseYearMonth(["A班", "15"], (2026, 10)) == (2026, 10)
  {
    assert HeaderAt("A班", 0) == None && HeaderAt("A班", 1) == None && HeaderAt("A班", 2) == None;
    assert HeaderIndexFrom("A班", 0) == None;
    assert HeaderAt("15", 0) == None && HeaderAt("15", 1) == None && HeaderAt("15", 2) == None;
    assert HeaderIndexFrom("15", 0) == None;
    assert HeadersOf(["A班", "15"]) == [None, None];
  }

  /** A day number, the shift text printed under it, and the month header:
      one entry for day 15 carrying the shift text and the number's own
      confidence. The header lies above the number and is not taken. */
  lemma ThreeFragments()
    ensures MapTextsToDates([Fragment("2024年5月", 0.9, 0.5, 0.9),
                             Fragment("15", 0.95, 0.5, 0.5),
                             Fragment("A班", 0.9, 0.5, 0.45)])
            == [OCRDayEntry(15, "A班", 0.95)]
  {
    var header := Fragment("2024年5月", 0.9, 0.5, 0.9);
    var day := Fragment("15", 0.95, 0.5, 0.5);
    var shift := Fragment("A班", 0.9, 0.5, 0.45);
    var texts := [header, day, shift];
    ThreeFragmentsReadings();
    FilterKeepsNone(texts, day);
    ThreeFragmentsColumn(texts, header, day, shift);
    assert TextsOf([shift]) == ["A班"];
    assert Join(["A班"], ' ') == "A班";
    assert EntryFor(texts, day) == OCRDayEntry(15, "A班", 0.95);
  }

  lemma ThreeFragmentsReadings()
    ensures ParseInt("15") == Some(15)
    ensures ParseInt("2024年5月") == None
    ensures ParseInt("A班") == None
  {
    assert "15"[..1] == "1" && "1"[..0] == "";
    assert !IsAsciiDigit("2024年5月"[4]);
    assert !IsAsciiDigit("A班"[0]);
  }

  lemma ThreeFragmentsColumn(texts: seq<Fragment>, header: Fragment, day: Fragment, shift: Fragment)
    requires texts == [header, day, shift]
    requires ParseInt(header.text).None? && ParseInt(day.text).Some? && ParseInt(shift.text).None?
    requires header.midX == day.midX == shift.midX
    requires header.midY == 0.9 && day.midY == 0.5 && shift.midY == 0.45
    ensures NearbyFragments(texts, day) == [shift]
  {
    var p := NearbyPredicate(day);
    assert !p(header) && !p(day) && p(shift);
    assert Filter(texts[2..], p) == [shift] + Filter(texts[3..], p);
    assert Filter(texts[1..], p) == [] + Filter(texts[1..][1..], p);
    assert texts[1..][1..] == texts[2..];
    assert Filter(texts, p) == [] + Filter(texts[1..], p);
  }

  lemma FilterKeepsNone(texts: seq<Fragment>, day: Fragment)
    requires |texts| == 3 && texts[1] == day
    requires !IsDayFragment(texts[0]) && IsDayFragment(day) && !IsDayFragment(texts[2])
    ensures DayCandidates(texts) == [day]
  {
    var p: Fragment -> bool := IsDayFragment;
    assert Filter(texts[2..], p) == [] + Filter(texts[3..], p);
    assert Filter(texts[1..], p) == [day] + Filter(texts[1..][1..], p);
    assert texts[1..][1..] == texts[2..];
    assert Filter(texts, p) == [] + Filter(texts[1..], p);
  }
}
