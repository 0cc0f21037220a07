/**
 * How the three programs read each other's output: the intake lines
 * `format_data` appends are read by `parse_event_line`, and the snapshot
 * lines `write_latest_events` writes are read by the bell's
 * `process_latest_events` and acted on by its tick.
 */
module Pipeline {
  import opened Basics
  import opened Text
  import opened Calendar
  import opened EventRecords
  import opened Intake
  import Writers
  import BellEvents
  import BellTick

  // ---------------------------------------------------------------------
  // Intake lines read by the normaliser
  // ---------------------------------------------------------------------

  /** Text that reads as a date has no comma in it. */
  lemma DateTextHasNoComma(s: string)
    requires ParseDate(s).Some?
    ensures ',' !in s
  {
    FormatParseDate(s);
    FormatDateEndsInDigit(ParseDate(s).value);
  }

  lemma KindText(k: int)
    requires 0 <= k <= 9
    ensures FormatInt(k) == [DigitChar(k)] && ParseInt([DigitChar(k)]) == Some(k)
  {
    ParseFormatInt(k);
  }

  /** A mode-0 line with one date is read back as a one-day holiday. */
  lemma SingleHolidayReparses(d: Date)
    requires ValidDate(d)
    ensures ParseEventLine(Render(HolidayOn(d))) == Parsed(Record(0, None, d, d, None))
  {
    KindText(0);
    RenderJoinsFields(HolidayOn(d));
    Writers.HolidayLineReparses(0, d);
  }

  /**
   * A mode-0 range is read back as a holiday range with the dates as
   * submitted; when the end precedes the start the range covers no day.
   */
  lemma HolidayRangeReparses(a: Date, b: Date)
    requires ValidDate(a) && ValidDate(b)
    ensures ParseEventLine(Render(HolidaysBetween(a, b))) == Parsed(Record(0, None, a, b, None))
    ensures DateLess(b, a) ==> DateRange(a, b) == []
  {
    var parts := ["0", FormatDate(a), FormatDate(b)];
    RenderJoinsFields(HolidaysBetween(a, b));
    FormatDateEndsInDigit(a);
    FormatDateEndsInDigit(b);
    FieldsOfJoin(parts);
    KindText(0);
    ParseFormatDate(a);
    ParseFormatDate(b);
    OrdinalOrder(a, b);
  }

  /**
   * A mode-1 line is read back as a timed exam range when its slot text is
   * an integer, and is rejected for its slot otherwise.
   */
  lemma ExamRangeReparses(slot: string, a: Date, b: Date, t: Time)
    requires ValidDate(a) && ValidDate(b) && ',' !in slot
    ensures ParseInt(slot).Some? ==>
              ParseEventLine(Render(ExamBetween(slot, a, b, t))) == Parsed(Record(1, ParseInt(slot), a, b, Some(t)))
    ensures ParseInt(slot).None? ==> ParseEventLine(Render(ExamBetween(slot, a, b, t))) == Failed(BadInteger)
  {
    var parts := ["1", slot, FormatDate(a), FormatDate(b), FormatTime(t)];
    RenderJoinsFields(ExamBetween(slot, a, b, t));
    FormatDateEndsInDigit(a);
    FormatDateEndsInDigit(b);
    FormatTimeEndsInDigit(t);
    FieldsOfJoin(parts);
    var line := Render(ExamBetween(slot, a, b, t));
    assert Fields(line) == parts;
    KindText(1);
    if ParseInt(slot).Some? {
      ParseFormatDate(a);
      ParseFormatDate(b);
      ParseFormatTime(t);
      ParseFiveFields(line, 1, a, b, t);
    } else {
      ParseBadSlot(line);
    }
  }

  /** The fields of a mode-2 line whose dates are date texts. */
  lemma ExamDaysFields(slot: string, ds: seq<string>, t: Time)
    requires ',' !in slot
    requires forall i :: 0 <= i < |ds| ==> ParseDate(ds[i]).Some?
    ensures ds == [] ==> Fields(Render(ExamDays(slot, ds, t))) == ["2", slot, "", FormatTime(t)]
    ensures ds != [] ==> Fields(Render(ExamDays(slot, ds, t))) == ["2", slot] + ds + [FormatTime(t)]
  {
    RenderJoinsFields(ExamDays(slot, ds, t));
    FormatTimeEndsInDigit(t);
    var parts := if ds == [] then ["2", slot, "", FormatTime(t)] else ["2", slot] + ds + [FormatTime(t)];
    forall i | 0 <= i < |parts| ensures ',' !in parts[i] {
      if 2 <= i < 2 + |ds| {
        DateTextHasNoComma(ds[i - 2]);
      }
    }
    FieldsOfJoin(parts);
  }

  /** With no dates the empty date field is rejected. */
  lemma NoExamDaysRejected(slot: string, t: Time)
    requires ',' !in slot && ParseInt(slot).Some?
    ensures ParseEventLine(Render(ExamDays(slot, [], t))) == Failed(BadDate)
  {
    ExamDaysFields(slot, [], t);
    KindText(2);
  }

  /** One date: a single exam day at the submitted time. */
  lemma OneExamDayReparses(slot: string, x: string, t: Time)
    requires ',' !in slot && ParseInt(slot).Some? && ParseDate(x).Some?
    ensures ParseEventLine(Render(ExamDays(slot, [x], t)))
         == Parsed(Record(2, ParseInt(slot), ParseDate(x).value, ParseDate(x).value, Some(t)))
  {
    ExamDaysFields(slot, [x], t);
    KindText(2);
    ParseFormatTime(t);
    DateAndTimeTextsDiffer(ParseDate(x).value, t);
  }

  /** Two dates: an inclusive range from the first text to the second. */
  lemma TwoExamDaysReparse(slot: string, x: string, y: string, t: Time)
    requires ',' !in slot && ParseInt(slot).Some? && ParseDate(x).Some? && ParseDate(y).Some?
    ensures ParseEventLine(Render(ExamDays(slot, [x, y], t)))
         == Parsed(Record(2, ParseInt(slot), ParseDate(x).value, ParseDate(y).value, Some(t)))
  {
    var line := Render(ExamDays(slot, [x, y], t));
    ExamDaysFields(slot, [x, y], t);
    assert Fields(line) == ["2", slot, x, y, FormatTime(t)];
    KindText(2);
    ParseFormatTime(t);
    ParseFiveFields(line, 2, ParseDate(x).value, ParseDate(y).value, t);
  }

  /** Three dates or more: the third date is read as a time, and the line is dropped. */
  lemma ManyExamDaysRejected(slot: string, ds: seq<string>, t: Time)
    requires ',' !in slot && ParseInt(slot).Some? && |ds| >= 3
    requires forall i :: 0 <= i < |ds| ==> ParseDate(ds[i]).Some?
    ensures ParseEventLine(Render(ExamDays(slot, ds, t))) == Failed(BadTime)
  {
    var line := Render(ExamDays(slot, ds, t));
    ExamDaysFields(slot, ds, t);
    var parts := ["2", slot] + ds + [FormatTime(t)];
    assert Fields(line) == parts;
    assert parts[0] == "2" && parts[1] == slot && parts[2] == ds[0] && parts[3] == ds[1] && parts[4] == ds[2];
    KindText(2);
    FormatParseDate(ds[2]);
    DateAndTimeTextsDiffer(ParseDate(ds[2]).value, 0);
    ParseBadFifthTime(line);
  }

  /**
   * What the normaliser makes of a mode-2 line: one date is an exam day, two
   * dates are a range between them in the order written, no date or three
   * dates and more are rejected.
   */
  lemma ExamDaysReparse(slot: string, ds: seq<string>, t: Time)
    requires ',' !in slot && ParseInt(slot).Some?
    requires forall i :: 0 <= i < |ds| ==> ParseDate(ds[i]).Some?
    ensures var n, r := ParseInt(slot), ParseEventLine(Render(ExamDays(slot, ds, t)));
            && (|ds| == 0 ==> r == Failed(BadDate))
            && (|ds| == 1 ==> r == Parsed(Record(2, n, ParseDate(ds[0]).value, ParseDate(ds[0]).value, Some(t))))
            && (|ds| == 2 ==> r == Parsed(Record(2, n, ParseDate(ds[0]).value, ParseDate(ds[1]).value, Some(t))))
            && (|ds| >= 3 ==> r == Failed(BadTime))
  {
    if |ds| == 0 {
      NoExamDaysRejected(slot, t);
    } else if |ds| == 1 {
      assert ds == [ds[0]];
      OneExamDayReparses(slot, ds[0], t);
    } else if |ds| == 2 {
      assert ds == [ds[0], ds[1]];
      TwoExamDaysReparse(slot, ds[0], ds[1], t);
    } else {
      ManyExamDaysRejected(slot, ds, t);
    }
  }

  /** The same for a mode-2 submission as `format_data` formats it. */
  lemma ModeTwoMisread(data: Json)
    requires Decode(data).Submitted? && Decode(data).sub.ExamDays?
    requires ',' !in Decode(data).sub.slot && ParseInt(Decode(data).sub.slot).Some?
    ensures var sub := Decode(data).sub;
            var ds, n, r := sub.dates, ParseInt(sub.slot), ParseEventLine(FormatResult(data).text);
            && (|ds| == 0 ==> r == Failed(BadDate))
            && (|ds| == 1 ==>
                  ParseDate(ds[0]).Some?
                  && r == Parsed(Record(2, n, ParseDate(ds[0]).value, ParseDate(ds[0]).value, Some(sub.time))))
            && (|ds| == 2 ==>
                  ParseDate(ds[0]).Some? && ParseDate(ds[1]).Some?
                  && r == Parsed(Record(2, n, ParseDate(ds[0]).value, ParseDate(ds[1]).value, Some(sub.time))))
            && (|ds| >= 3 ==> r == Failed(BadTime))
  {
    var sub := Decode(data).sub;
    assert FormatResult(data) == Line(Render(sub));
    forall i | 0 <= i < |sub.dates| ensures ParseDate(sub.dates[i]).Some? {
      ExamDaysDateTexts(data, i);
    }
    ExamDaysReparse(sub.slot, sub.dates, sub.time);
  }

  lemma ExamDaysDateTexts(data: Json, i: int)
    requires Decode(data).Submitted? && Decode(data).sub.ExamDays?
    requires 0 <= i < |Decode(data).sub.dates|
    ensures ParseDate(Decode(data).sub.dates[i]).Some?
  {
    var items := DateItems(Get(data.members, "date").value);
    ExamDaysSorted(data);
    ExamDaysNameSubmittedDays(data, i);
    var j :| 0 <= j < |items| && items[j].JStr?
             && ParseDate(Decode(data).sub.dates[i]) == ParseShortYearDate(items[j].s);
    assert IsShortDate(items[j]);
  }

  /**
   * Two exam days either side of New Year, 15 June 2024 and 2 January 2025,
   * come out of the intake in string order and are read as a range from
   * 2 January 2025 back to 15 June 2024, which covers no day at all.
   */
  lemma ExamPairOutOfOrder(slot: string, t: Time)
    requires ',' !in slot && ParseInt(slot).Some?
    ensures var june, january := Date(15, 6, 2024), Date(2, 1, 2025);
            var ds := SortStrings([FormatDate(june), FormatDate(january)]);
            && ParseEventLine(Render(ExamDays(slot, ds, t)))
               == Parsed(Record(2, ParseInt(slot), january, june, Some(t)))
            && DateRange(january, june) == []
  {
    var june, january := Date(15, 6, 2024), Date(2, 1, 2025);
    assert ValidDate(june) && ValidDate(january);
    SortIsNotChronological();
    ParseFormatDate(june);
    ParseFormatDate(january);
    TwoExamDaysReparse(slot, FormatDate(january), FormatDate(june), t);
    OrdinalOrder(january, june);
  }

  // ---------------------------------------------------------------------
  // Snapshot lines read by the bell
  // ---------------------------------------------------------------------

  /** A holiday line of the snapshot marks its date's text as a holiday. */
  lemma BellReadsHolidayLine(s: BellEvents.Snapshot, d: Date)
    requires BellEvents.ValidSnapshot(s) && ValidDate(d)
    ensures BellEvents.ApplyLine(s, Writers.HolidayLine(0, d))
         == BellEvents.Ok(s.(days := s.days[FormatDate(d) := BellEvents.Holiday]))
  {
    KindText(0);
    FormatDateEndsInDigit(d);
    var parts := [FormatInt(0), FormatDate(d)];
    JoinCons(parts, ",");
    assert Join(parts[1..], ",") == FormatDate(d);
    assert Writers.HolidayLine(0, d) == "0," + FormatDate(d);
    BellEvents.UncheckedHolidayText(s, FormatDate(d));
  }

  /**
   * The bell still rings the weekly timetable on a date the snapshot marks
   * as a holiday (on Sundays it rests as on any Sunday).
   */
  lemma HolidaySnapshotStillRings(s: BellEvents.Snapshot, d: Date, now: Time)
    requires BellEvents.ValidSnapshot(s) && ValidDate(d) && Weekday(d) != Sunday
    ensures var s' := s.(days := s.days[FormatDate(d) := BellEvents.Holiday]);
            var first := if s.immediate then [BellTick.ImmediateRing] else [];
            && BellEvents.ValidSnapshot(s')
            && BellTick.TickSpec(s', d, now)
               == BellTick.TickResult(first + BellTick.WeeklyRings(Weekday(d), FormatTime(now)), BellTick.Completed)
  {
    BellReadsHolidayLine(s, d);
    BellEvents.ApplyLineValid(s, Writers.HolidayLine(0, d));
    var s' := s.(days := s.days[FormatDate(d) := BellEvents.Holiday]);
    BellTick.HolidayStillRingsWeekly(s', d, now);
  }

  /** The text of a slot line has nothing to strip and splits into its four fields. */
  lemma SlotLineFields(kind: int, slot: int, d: Date, t: Option<Time>)
    requires ValidDate(d) && 1 <= kind <= 2
    ensures Split(Strip(Writers.SlotLine(kind, slot, d, t)), ',')
         == [FormatInt(kind), FormatInt(slot), FormatDate(d), Writers.TimeText(t)]
  {
    var parts := [FormatInt(kind), FormatInt(slot), FormatDate(d), Writers.TimeText(t)];
    var line := Join(parts, ",");
    KindText(kind);
    Writers.NoCommas(kind, slot, d);
    if t.Some? {
      FormatTimeEndsInDigit(t.value);
      JoinEndsWithLast(parts, ",");
      JoinCons(parts, ",");
      StripNoSpace(line);
    } else {
      Writers.StripSlotLine(parts);
    }
    SplitJoin(parts, ',');
  }

  /**
   * A slot line of the snapshot stores its slot under the date's text with
   * the time text as written: an untimed slot gets the empty text.
   */
  lemma BellReadsSlotLine(s: BellEvents.Snapshot, kind: int, slot: int, d: Date, t: Option<Time>)
    requires BellEvents.ValidSnapshot(s) && ValidDate(d) && 1 <= kind <= 2
    ensures BellEvents.ApplyLine(s, Writers.SlotLine(kind, slot, d, t))
         == BellEvents.Ok(s.(days := BellEvents.AddSlot(s.days, FormatDate(d), slot,
                                                         BellEvents.SlotCell(kind, Some(Writers.TimeText(t))))))
  {
    SlotLineFields(kind, slot, d, t);
    KindText(kind);
    ParseFormatInt(slot);
    BellEvents.ApplyFourFieldSlot(s, Writers.SlotLine(kind, slot, d, t), kind, slot);
  }

  /** A slot the snapshot wrote without a time never rings and never crashes the tick. */
  lemma UntimedSnapshotSlotSilent(kind: int, slot: int, now: Time, rings: seq<BellTick.Ring>)
    requires 1 <= kind <= 2
    ensures BellTick.SlotRing(slot, BellEvents.SlotCell(kind, Some(Writers.TimeText(None))), now, rings)
         == BellTick.TickResult(rings, BellTick.Completed)
  {
    BellTick.UntimedSlotSilent(slot, BellEvents.SlotCell(kind, Some(Writers.TimeText(None))), now, rings);
  }

  /**
   * A timed slot the snapshot wrote rings at the second one of its kind's
   * offsets lands on, for slots 1 to 3 only.
   */
  lemma TimedSnapshotSlotRings(kind: int, slot: int, t: Time, now: Time, rings: seq<BellTick.Ring>)
    requires 1 <= kind <= 2
    ensures var r := BellTick.SlotRing(slot, BellEvents.SlotCell(kind, Some(Writers.TimeText(Some(t)))), now, rings);
            && r.end == BellTick.Completed
            && (r.rings == rings + [BellTick.ExamRing(slot)]
                <==> 1 <= slot <= 3 && exists i :: 0 <= i < 5 && Later(t, BellTick.KindTimes(kind)[i]) == now)
  {
    ParseFormatTime(t);
    BellTick.SlotRingsIff(slot, BellEvents.SlotCell(kind, Some(FormatTime(t))), t, now, rings);
  }

  /**
   * A dated line of kind 3 (neither a holiday nor a slot) is written to the
   * snapshot like a holiday line; the bell reads it as an immediate ring
   * for its date text, so every tick starts by ringing.
   */
  lemma DatedKindThreeRingsEveryTick(s: BellEvents.Snapshot, d: Date, today: Date, now: Time)
    requires BellEvents.ValidSnapshot(s) && ValidDate(d) && ValidDate(today)
    ensures BellEvents.ApplyLine(s, Writers.HolidayLine(3, d))
         == BellEvents.Ok(s.(immediate := true, specific := Some(FormatDate(d))))
    ensures var s' := s.(immediate := true, specific := Some(FormatDate(d)));
            |BellTick.TickSpec(s', today, now).rings| >= 1
            && BellTick.TickSpec(s', today, now).rings[0] == BellTick.ImmediateRing
  {
    var parts := [FormatInt(3), FormatDate(d)];
    KindText(3);
    FormatDateEndsInDigit(d);
    JoinCons(parts, ",");
    JoinEndsWithLast(parts, ",");
    StripNoSpace(Writers.HolidayLine(3, d));
    SplitJoin(parts, ',');
    var s' := s.(immediate := true, specific := Some(FormatDate(d)));
    BellTick.ImmediateRingFirst(s', today, now);
  }

  // ---------------------------------------------------------------------
  // Report times and ring times
  // ---------------------------------------------------------------------

  /** A time `x` after the base that no offset names is not among the bell times. */
  lemma NotAmongBellTimes(b: Time, offsets: seq<int>, x: int)
    requires BellTick.WithinDay(offsets) && 0 <= x < SecondsPerDay
    requires forall i :: 0 <= i < |offsets| ==> offsets[i] != x
    ensures FormatTime(Later(b, x)) !in BellTick.ShiftedTimes(b, offsets)
  {
    var times := BellTick.ShiftedTimes(b, offsets);
    forall i | 0 <= i < |times| ensures times[i] != FormatTime(Later(b, x)) {
      LaterDistinct(b, x, offsets[i]);
      FormatTimeInjective(Later(b, x), Later(b, offsets[i]));
    }
  }

  /**
   * The CSV report and the bell use different offsets: the report's last
   * Midsem time (base + 2 h 30 min) and last Endsem time (base + 3 h 30 min)
   * are never rung, and its second time (base + 15 min) is the bell's third.
   */
  lemma ReportTimesAreNotRingTimes(b: Time)
    ensures Writers.ReportTimings(b, Writers.MidReportOffsets)[4] !in BellTick.ShiftedTimes(b, BellTick.MidsemTimes)
    ensures Writers.ReportTimings(b, Writers.EndReportOffsets)[4] !in BellTick.ShiftedTimes(b, BellTick.EndsemTimes)
    ensures Writers.ReportTimings(b, Writers.MidReportOffsets)[1] == BellTick.ShiftedTimes(b, BellTick.MidsemTimes)[2]
  {
    NotAmongBellTimes(b, BellTick.MidsemTimes, 9000);
    NotAmongBellTimes(b, BellTick.EndsemTimes, 12600);
  }
}
