/**
 * The two serialisations of the normalised map: the snapshot file the bell
 * reads (`write_latest_events`, identical in processing.py and test.py) and
 * the CSV report (`write_to_csv`, whose test.py variant differs in its header
 * and calls a `calculate_bell_times` it never defines).
 *
 * Files are modelled as the sequence of lines (snapshot) or rows (CSV)
 * written to them, without line terminators.
 */
module Writers {
  import opened Basics
  import opened Text
  import opened Calendar
  import opened Ordering
  import opened EventRecords
  import opened Normaliser

  // ---------------------------------------------------------------------
  // Snapshot lines
  // ---------------------------------------------------------------------

  /** `event_time.strftime('%H:%M:%S') if event_time else ''`. */
  function TimeText(t: Option<Time>): string {
    if t.Some? then FormatTime(t.value) else ""
  }

  /** `f"{event_type},{date}"` for a holiday date. */
  function HolidayLine(kind: int, d: Date): string
    requires ValidDate(d)
  {
    Join([FormatInt(kind), FormatDate(d)], ",")
  }

  /** `f"{event_type},{slot},{date},{time}"` for one slot of a date. */
  function SlotLine(kind: int, slot: int, d: Date, t: Option<Time>): string
    requires ValidDate(d)
  {
    Join([FormatInt(kind), FormatInt(slot), FormatDate(d), TimeText(t)], ",")
  }

  /** The integer keys of a dict, in the order given. */
  function SlotNumbers(keys: seq<Option<int>>): (r: seq<int>)
    ensures forall s :: s in r <==> Some(s) in keys
  {
    if keys == [] then []
    else
      var init := SlotNumbers(keys[..|keys| - 1]);
      assert keys == keys[..|keys| - 1] + [keys[|keys| - 1]];
      if keys[|keys| - 1].Some? then init + [keys[|keys| - 1].value] else init
  }

  /** The slots among `slots` that get a snapshot line: those holding kind 1 or 2. */
  function Written(t: DayTable, slots: seq<int>): (r: seq<int>)
    ensures forall s :: s in r <==> s in slots && Some(s) in t.cells && t.cells[Some(s)].kind in {1, 2}
  {
    if slots == [] then []
    else
      var init := Written(t, slots[..|slots| - 1]);
      var s := slots[|slots| - 1];
      assert slots == slots[..|slots| - 1] + [s];
      if Some(s) in t.cells && t.cells[Some(s)].kind in {1, 2} then init + [s] else init
  }

  /** The slot lines of a date for the slots `ws`, in that order. */
  function LinesOfSlots(d: Date, t: DayTable, ws: seq<int>): (r: seq<string>)
    requires ValidDate(d)
    requires forall s :: s in ws ==> Some(s) in t.cells
    ensures |r| == |ws|
  {
    if ws == [] then []
    else
      var s := ws[|ws| - 1];
      LinesOfSlots(d, t, ws[..|ws| - 1]) + [SlotLine(t.cells[Some(s)].kind, s, d, t.cells[Some(s)].time)]
  }

  /** The slots of a date, ascending, as `sorted(events.items())` visits them. */
  function SortedSlots(t: DayTable): seq<int> {
    SortInts(SlotNumbers(t.keys))
  }

  /** The snapshot lines of one date. */
  function DateLines(d: Date, t: DayTable): seq<string>
    requires ValidDate(d)
  {
    if IsHoliday(t) then [HolidayLine(t.cells[None].kind, d)]
    else LinesOfSlots(d, t, Written(t, SortedSlots(t)))
  }

  /** The snapshot lines of the dates `ds`, in that order. */
  function LinesFor(ev: Events, ds: seq<Date>): seq<string>
    requires forall x :: x in ds ==> x in ev && ValidDate(x)
  {
    if ds == [] then []
    else LinesFor(ev, ds[..|ds| - 1]) + DateLines(ds[|ds| - 1], ev[ds[|ds| - 1]])
  }

  lemma LinesForLast(ev: Events, ds: seq<Date>)
    requires ds != []
    requires forall x :: x in ds ==> x in ev && ValidDate(x)
    ensures LinesFor(ev, ds) == LinesFor(ev, ds[..|ds| - 1]) + DateLines(ds[|ds| - 1], ev[ds[|ds| - 1]])
  {
  }

  /** The whole snapshot: the dates in ascending order, each with its lines. */
  ghost function Snapshot(ev: Events): seq<string>
    requires ValidEvents(ev)
  {
    LinesFor(ev, SortedDates(ev.Keys))
  }

  /** `write_latest_events`: the lines written to the snapshot file. */
  method WriteLatestEvents(ev: Events) returns (out: seq<string>)
    requires ValidEvents(ev)
    ensures out == Snapshot(ev)
  {
    out := [];
    var remaining := ev.Keys;
    ghost var done: seq<Date> := [];
    while remaining != {}
      invariant Visiting(ev.Keys, done, remaining)
      invariant out == LinesFor(ev, done)
      decreases |remaining|
    {
      LeastDateExists(remaining);
      var d :| IsLeastDate(d, remaining);
      VisitNext(ev.Keys, done, remaining, d);
      var lines := WriteDate(d, ev[d]);
      AdvanceSnapshot(ev, done, d);
      out := out + lines;
      done := done + [d];
      remaining := remaining - {d};
    }
    VisitDone(ev.Keys, done);
  }

  /** Visiting one more date extends the snapshot by that date's lines. */
  lemma AdvanceSnapshot(ev: Events, done: seq<Date>, d: Date)
    requires ValidEvents(ev) && d in ev && forall x :: x in done ==> x in ev
    ensures LinesFor(ev, done + [d]) == LinesFor(ev, done) + DateLines(d, ev[d])
  {
    assert (done + [d])[..|done|] == done;
    LinesForLast(ev, done + [d]);
  }

  /** The lines `write_latest_events` writes for one date. */
  method WriteDate(d: Date, t: DayTable) returns (out: seq<string>)
    requires ValidDate(d) && ValidTable(t)
    ensures out == DateLines(d, t)
  {
    if IsHoliday(t) {
      return [HolidayLine(t.cells[None].kind, d)];
    }
    out := [];
    var slots := SortedSlots(t);
    for j := 0 to |slots|
      invariant out == LinesOfSlots(d, t, Written(t, slots[..j]))
    {
      SortedSlotInCells(t, j);
      var c := t.cells[Some(slots[j])];
      WrittenLinesNext(d, t, slots, j);
      if c.kind == 1 || c.kind == 2 {
        out := out + [SlotLine(c.kind, slots[j], d, c.time)];
      }
    }
    assert slots[..|slots|] == slots;
  }

  lemma SortedSlotInCells(t: DayTable, j: int)
    requires ValidTable(t) && 0 <= j < |SortedSlots(t)|
    ensures Some(SortedSlots(t)[j]) in t.cells
  {
    var slots := SortedSlots(t);
    assert slots[j] in multiset(slots);
    assert slots[j] in multiset(SlotNumbers(t.keys));
  }

  lemma WrittenLinesNext(d: Date, t: DayTable, slots: seq<int>, j: int)
    requires ValidDate(d) && 0 <= j < |slots| && Some(slots[j]) in t.cells
    ensures var c := t.cells[Some(slots[j])];
            LinesOfSlots(d, t, Written(t, slots[..j + 1]))
            == LinesOfSlots(d, t, Written(t, slots[..j]))
               + if c.kind == 1 || c.kind == 2 then [SlotLine(c.kind, slots[j], d, c.time)] else []
  {
    var prefix := slots[..j + 1];
    assert prefix[..j] == slots[..j];
  }

  // ---------------------------------------------------------------------
  // What the snapshot says
  // ---------------------------------------------------------------------

  /**
   * The slots written for a non-holiday date are exactly its kind-1/2 slots,
   * each once, in ascending order.
   */
  lemma WrittenSlotsAscending(d: Date, t: DayTable)
    requires ValidTable(t) && !IsHoliday(t)
    ensures Ascending(Written(t, SortedSlots(t)))
    ensures forall s :: s in Written(t, SortedSlots(t)) <==> Some(s) in t.cells && t.cells[Some(s)].kind in {1, 2}
  {
    var nums := SlotNumbers(t.keys);
    DistinctSlotNumbers(t.keys);
    SortIntsAscending(nums);
    forall s ensures s in SortedSlots(t) <==> Some(s) in t.keys {
      assert s in SortedSlots(t) <==> s in multiset(SortedSlots(t));
      assert s in nums <==> s in multiset(nums);
    }
    WrittenAscending(t, SortedSlots(t));
  }

  lemma {:induction false} DistinctSlotNumbers(keys: seq<Option<int>>)
    requires forall i, j :: 0 <= i < j < |keys| ==> keys[i] != keys[j]
    ensures forall i, j :: 0 <= i < j < |SlotNumbers(keys)| ==> SlotNumbers(keys)[i] != SlotNumbers(keys)[j]
  {
    if keys != [] {
      var init := keys[..|keys| - 1];
      DistinctSlotNumbers(init);
      if keys[|keys| - 1].Some? {
        assert keys[|keys| - 1] !in init;
      }
    }
  }

  lemma {:induction false} WrittenAscending(t: DayTable, slots: seq<int>)
    requires Ascending(slots)
    ensures Ascending(Written(t, slots))
  {
    if slots != [] {
      var init := slots[..|slots| - 1];
      WrittenAscending(t, init);
      var w := Written(t, init);
      forall k | 0 <= k < |w| ensures w[k] < slots[|slots| - 1] {
        assert w[k] in init;
      }
    }
  }

  /** A holiday line is read back by the normaliser as a one-day record of its kind. */
  lemma HolidayLineReparses(kind: int, d: Date)
    requires ValidDate(d) && !IsSlotKind(kind)
    ensures ParseEventLine(HolidayLine(kind, d)) == Parsed(Record(kind, None, d, d, None))
  {
    var r := Record(kind, None, d, d, None);
    assert EncodeFields(r) == [FormatInt(kind), FormatDate(d)];
    ParseEncoded(r);
  }

  /** A timed slot line is read back by the normaliser as a one-day record. */
  lemma TimedSlotLineReparses(kind: int, slot: int, d: Date, t: Time)
    requires ValidDate(d) && IsSlotKind(kind)
    ensures ParseEventLine(SlotLine(kind, slot, d, Some(t))) == Parsed(Record(kind, Some(slot), d, d, Some(t)))
  {
    var r := Record(kind, Some(slot), d, d, Some(t));
    assert EncodeFields(r) == [FormatInt(kind), FormatInt(slot), FormatDate(d), FormatTime(t)];
    ParseEncoded(r);
  }

  /**
   * An untimed slot line ends in an empty field, which is neither a date nor
   * a time: the normaliser would drop the snapshot's own line.
   */
  lemma UntimedSlotLineRejected(kind: int, slot: int, d: Date)
    requires ValidDate(d) && IsSlotKind(kind)
    ensures ParseEventLine(SlotLine(kind, slot, d, None)) == Failed(BadTime)
  {
    var parts := [FormatInt(kind), FormatInt(slot), FormatDate(d), ""];
    var line := Join(parts, ",");
    NoCommas(kind, slot, d);
    SplitJoin(parts, ',');
    StripSlotLine(parts);
    ParseFormatInt(kind);
    ParseFormatInt(slot);
    ParseFormatDate(d);
  }

  lemma NoCommas(kind: int, slot: int, d: Date)
    requires ValidDate(d)
    ensures ',' !in FormatInt(kind) && ',' !in FormatInt(slot) && ',' !in FormatDate(d)
  {
    NoCommaInForms(d, 0, kind);
    NoCommaInForms(d, 0, slot);
  }

  /** A line starting with a number and ending in a comma has nothing to strip. */
  lemma StripSlotLine(parts: seq<string>)
    requires |parts| == 4 && parts[0] != [] && (IsDigit(parts[0][0]) || parts[0][0] == '-') && parts[3] == ""
    ensures Strip(Join(parts, ",")) == Join(parts, ",")
  {
    var line := Join(parts, ",");
    JoinCons(parts, ",");
    assert line[0] == parts[0][0];
    JoinEndsWithEmpty(parts, ",");
    StripNoSpace(line);
  }

  /** Joining fields whose last one is empty ends with the separator. */
  lemma {:induction false} JoinEndsWithEmpty(fields: seq<string>, sep: string)
    requires |fields| >= 2 && fields[|fields| - 1] == "" && sep != ""
    ensures |Join(fields, sep)| >= 1 && Join(fields, sep)[|Join(fields, sep)| - 1] == sep[|sep| - 1]
    decreases |fields|
  {
    if |fields| > 2 {
      JoinEndsWithEmpty(fields[1..], sep);
    } else {
      assert Join(fields[1..], sep) == "";
    }
  }

  // ---------------------------------------------------------------------
  // The CSV report
  // ---------------------------------------------------------------------

  /** The two copies of `write_to_csv`: processing.py's and test.py's. */
  datatype CsvVariant = ProcessingCsv | PollingCsv

  type Row = seq<string>

  function Header(v: CsvVariant): Row {
    match v
    case ProcessingCsv => ["Type", "Date", "Timings"]
    case PollingCsv => ["Type", "Date", "Timings for bell"]
  }

  /** `mid_offsets`: 15 min, 30 min, 2 h 15 min, 2 h 30 min. */
  const MidReportOffsets: seq<int> := [900, 1800, 8100, 9000]

  /** `end_offsets`: 15 min, 30 min, 3 h, 3 h 30 min. */
  const EndReportOffsets: seq<int> := [900, 1800, 10800, 12600]

  /**
   * `datetime.combine(date, t) + offset` past 31-12-9999 raises
   * OverflowError: only on the last date, and only once the offset carries
   * past midnight.
   */
  predicate Overflows(d: Date, t: Time, offsets: seq<int>) {
    d == MaxDate && exists i :: 0 <= i < |offsets| && t + offsets[i] >= SecondsPerDay
  }

  /** The base time followed by each offset time, as `HH:MM:SS`, wrapping past midnight. */
  function ReportTimings(t: Time, offsets: seq<int>): (r: seq<string>)
    requires forall i :: 0 <= i < |offsets| ==> 0 <= offsets[i]
    ensures |r| == |offsets| + 1 && r[0] == FormatTime(t)
    ensures forall i :: 0 <= i < |offsets| ==> r[i + 1] == FormatTime(Later(t, offsets[i]))
  {
    [FormatTime(t)] + seq(|offsets|, i requires 0 <= i < |offsets| => FormatTime(Later(t, offsets[i])))
  }

  /** The row of a timed Midsem (kind 1) or Endsem (kind 2) slot. */
  function SlotRow(kind: int, d: Date, t: Time): Row
    requires ValidDate(d)
  {
    var offsets := if kind == 1 then MidReportOffsets else EndReportOffsets;
    [if kind == 1 then "Midsem" else "Endsem", FormatDate(d), Join(ReportTimings(t, offsets), ", ")]
  }

  /** The rows written so far, and whether an exception has ended the report. */
  datatype Progress = Progress(rows: seq<Row>, raised: bool)

  /** What one slot adds: no row, its row, or an exception. */
  function SlotReport(v: CsvVariant, d: Date, c: Cell, p: Progress): Progress
    requires ValidDate(d)
  {
    if p.raised || c.time.None? || !IsSlotKind(c.kind) then p
    else if v == PollingCsv then Progress(p.rows, true)   // NameError: calculate_bell_times is undefined
    else if Overflows(d, c.time.value, if c.kind == 1 then MidReportOffsets else EndReportOffsets) then Progress(p.rows, true)
    else Progress(p.rows + [SlotRow(c.kind, d, c.time.value)], false)
  }

  /** The keys `keys` of a date, in the order given. */
  function SlotsReport(v: CsvVariant, d: Date, t: DayTable, keys: seq<Option<int>>, p: Progress): Progress
    requires ValidDate(d)
  {
    if keys == [] then p
    else
      var q := SlotsReport(v, d, t, keys[..|keys| - 1], p);
      var k := keys[|keys| - 1];
      if k in t.cells then SlotReport(v, d, t.cells[k], q) else q
  }

  /** One date: a holiday row, or the slot rows in insertion order. */
  function DateReport(v: CsvVariant, d: Date, t: DayTable, p: Progress): Progress
    requires ValidDate(d)
  {
    if p.raised then p
    else if IsHoliday(t) then Progress(p.rows + [["Holiday", FormatDate(d), "No bell ringing"]], false)
    else SlotsReport(v, d, t, t.keys, p)
  }

  /** The dates `ds`, in that order, after the header. */
  function DatesReport(v: CsvVariant, ev: Events, ds: seq<Date>): Progress
    requires forall x :: x in ds ==> x in ev && ValidDate(x)
  {
    if ds == [] then Progress([Header(v)], false)
    else DateReport(v, ds[|ds| - 1], ev[ds[|ds| - 1]], DatesReport(v, ev, ds[..|ds| - 1]))
  }

  /** The whole report: the dates in ascending order, up to the first exception. */
  ghost function Report(v: CsvVariant, ev: Events): seq<Row>
    requires ValidEvents(ev)
  {
    DatesReport(v, ev, SortedDates(ev.Keys)).rows
  }

  lemma DatesReportLast(v: CsvVariant, ev: Events, ds: seq<Date>)
    requires ds != []
    requires forall x :: x in ds ==> x in ev && ValidDate(x)
    ensures DatesReport(v, ev, ds) == DateReport(v, ds[|ds| - 1], ev[ds[|ds| - 1]], DatesReport(v, ev, ds[..|ds| - 1]))
  {
  }

  /** Once an exception has ended the report, later dates add nothing. */
  lemma {:induction false} DatesReportRaised(v: CsvVariant, ev: Events, ds: seq<Date>, more: seq<Date>)
    requires forall x :: x in ds + more ==> x in ev && ValidDate(x)
    requires DatesReport(v, ev, ds).raised
    ensures DatesReport(v, ev, ds + more) == DatesReport(v, ev, ds)
  {
    if more == [] {
      assert ds + more == ds;
    } else {
      var all := ds + more;
      assert all[..|all| - 1] == ds + more[..|more| - 1];
      DatesReportRaised(v, ev, ds, more[..|more| - 1]);
    }
  }

  /**
   * `write_to_csv`. The report stops at the first row whose computation
   * raises; the rows written before it stay in the file.
   */
  method WriteToCsv(v: CsvVariant, ev: Events) returns (rows: seq<Row>)
    requires ValidEvents(ev)
    ensures rows == Report(v, ev)
  {
    rows := [Header(v)];
    var remaining := ev.Keys;
    var raised := false;
    ghost var done: seq<Date> := [];
    while remaining != {} && !raised
      invariant Visiting(ev.Keys, done, remaining)
      invariant DatesReport(v, ev, done) == Progress(rows, raised)
      decreases |remaining|
    {
      var d :| IsLeastDate(d, remaining) by {
        LeastDateExists(remaining);
      }
      VisitNext(ev.Keys, done, remaining, d);
      AdvanceReport(v, ev, done, d, rows);
      rows, raised := ReportDate(v, d, ev[d], rows);
      done := done + [d];
      remaining := remaining - {d};
    }
    FinishReport(v, ev, done, remaining, rows, raised);
  }

  /** Visiting one more date extends the report by that date's rows. */
  lemma AdvanceReport(v: CsvVariant, ev: Events, done: seq<Date>, d: Date, rows: seq<Row>)
    requires ValidEvents(ev) && d in ev && forall x :: x in done ==> x in ev
    requires DatesReport(v, ev, done) == Progress(rows, false)
    ensures DatesReport(v, ev, done + [d]) == DateReport(v, d, ev[d], Progress(rows, false))
  {
    assert (done + [d])[..|done|] == done;
    DatesReportLast(v, ev, done + [d]);
  }

  lemma FinishReport(v: CsvVariant, ev: Events, done: seq<Date>, remaining: set<Date>, rows: seq<Row>, raised: bool)
    requires ValidEvents(ev)
    requires Visiting(ev.Keys, done, remaining)
    requires DatesReport(v, ev, done) == Progress(rows, raised)
    requires remaining == {} || raised
    ensures rows == Report(v, ev)
  {
    if raised {
      forall x | x in SortedDates(remaining) ensures x in ev && ValidDate(x) { }
      DatesReportRaised(v, ev, done, SortedDates(remaining));
    } else {
      VisitDone(ev.Keys, done);
    }
  }

  /** The rows `write_to_csv` writes for one date, after `rows`, and whether it raised there. */
  method ReportDate(v: CsvVariant, d: Date, t: DayTable, rows0: seq<Row>) returns (rows: seq<Row>, raised: bool)
    requires ValidDate(d)
    ensures Progress(rows, raised) == DateReport(v, d, t, Progress(rows0, false))
  {
    if IsHoliday(t) {
      return rows0 + [["Holiday", FormatDate(d), "No bell ringing"]], false;
    }
    rows, raised := rows0, false;
    var j := 0;
    while j < |t.keys| && !raised
      invariant 0 <= j <= |t.keys|
      invariant SlotsReport(v, d, t, t.keys[..j], Progress(rows0, false)) == Progress(rows, raised)
    {
      var k := t.keys[j];
      SlotsReportNext(v, d, t, j, Progress(rows0, false));
      if k in t.cells {
        var c := t.cells[k];
        if c.time.Some? && IsSlotKind(c.kind) {
          var time := c.time.value;
          var offsets := if c.kind == 1 then MidReportOffsets else EndReportOffsets;
          OverflowsAtLast(d, time, offsets);
          if v == PollingCsv {
            raised := true;
          } else if d == MaxDate && time + offsets[|offsets| - 1] >= SecondsPerDay {
            raised := true;
          } else {
            rows := rows + [SlotRow(c.kind, d, time)];
          }
        }
      }
      j := j + 1;
    }
    if raised {
      SlotsRest(v, d, t, j, Progress(rows0, false));
    } else {
      assert t.keys[..j] == t.keys;
    }
  }

  lemma SlotsReportNext(v: CsvVariant, d: Date, t: DayTable, j: int, p: Progress)
    requires ValidDate(d) && 0 <= j < |t.keys|
    ensures var q := SlotsReport(v, d, t, t.keys[..j], p);
            SlotsReport(v, d, t, t.keys[..j + 1], p)
            == if t.keys[j] in t.cells then SlotReport(v, d, t.cells[t.keys[j]], q) else q
  {
    assert t.keys[..j + 1][..j] == t.keys[..j];
  }

  /** The report offsets ascend, so a date overflows exactly when its last offset does. */
  lemma OverflowsAtLast(d: Date, t: Time, offsets: seq<int>)
    requires offsets == MidReportOffsets || offsets == EndReportOffsets
    ensures Overflows(d, t, offsets) <==> d == MaxDate && t + offsets[|offsets| - 1] >= SecondsPerDay
  {
    if d == MaxDate && t + offsets[|offsets| - 1] >= SecondsPerDay {
      assert 0 <= |offsets| - 1 < |offsets|;
    }
  }

  /** Once a date has raised, its remaining keys add nothing. */
  lemma {:induction false} SlotsRest(v: CsvVariant, d: Date, t: DayTable, j: int, p: Progress)
    requires ValidDate(d) && 0 <= j <= |t.keys|
    requires SlotsReport(v, d, t, t.keys[..j], p).raised
    ensures SlotsReport(v, d, t, t.keys, p) == SlotsReport(v, d, t, t.keys[..j], p)
    decreases |t.keys| - j
  {
    if j < |t.keys| {
      assert t.keys[..j + 1][..j] == t.keys[..j];
      SlotsRest(v, d, t, j + 1, p);
    } else {
      assert t.keys[..j] == t.keys;
    }
  }

  // ---------------------------------------------------------------------
  // What the report says
  // ---------------------------------------------------------------------

  predicate HolidayRow(row: Row) {
    |row| == 3 && row[0] == "Holiday" && row[2] == "No bell ringing"
  }

  lemma {:induction false} PollingSlotsWriteNothing(d: Date, t: DayTable, keys: seq<Option<int>>, p: Progress)
    requires ValidDate(d)
    ensures SlotsReport(PollingCsv, d, t, keys, p).rows == p.rows
  {
    if keys != [] {
      PollingSlotsWriteNothing(d, t, keys[..|keys| - 1], p);
    }
  }

  /**
   * test.py's report holds its header and holiday rows only: the first timed
   * Midsem or Endsem slot raises NameError before any slot row is written.
   */
  lemma {:induction false} PollingReportOnlyHolidays(ev: Events, ds: seq<Date>)
    requires forall x :: x in ds ==> x in ev && ValidDate(x)
    ensures var rows := DatesReport(PollingCsv, ev, ds).rows;
            |rows| >= 1 && rows[0] == ["Type", "Date", "Timings for bell"]
            && forall i :: 1 <= i < |rows| ==> HolidayRow(rows[i])
  {
    if ds != [] {
      var init, d := ds[..|ds| - 1], ds[|ds| - 1];
      PollingReportOnlyHolidays(ev, init);
      var p := DatesReport(PollingCsv, ev, init);
      if !p.raised && !IsHoliday(ev[d]) {
        PollingSlotsWriteNothing(d, ev[d], ev[d].keys, p);
      }
    }
  }

  lemma {:induction false} SlotsNeverRaiseBeforeMaxDate(d: Date, t: DayTable, keys: seq<Option<int>>, p: Progress)
    requires ValidDate(d) && d != MaxDate && !p.raised
    ensures !SlotsReport(ProcessingCsv, d, t, keys, p).raised
    ensures |SlotsReport(ProcessingCsv, d, t, keys, p).rows| >= |p.rows|
  {
    if keys != [] {
      SlotsNeverRaiseBeforeMaxDate(d, t, keys[..|keys| - 1], p);
    }
  }

  /** A slot that processing.py's report writes a row for: timed, of kind 1 or 2. */
  predicate TimedSlot(t: DayTable, k: Option<int>) {
    k in t.cells && t.cells[k].time.Some? && IsSlotKind(t.cells[k].kind)
  }

  /** The rows of the timed slots among `keys`, first key first. */
  function SlotRows(d: Date, t: DayTable, keys: seq<Option<int>>): seq<Row>
    requires ValidDate(d)
  {
    if keys == [] then []
    else
      var k := keys[0];
      (if TimedSlot(t, k) then [SlotRow(t.cells[k].kind, d, t.cells[k].time.value)] else [])
        + SlotRows(d, t, keys[1..])
  }

  lemma {:induction false} SlotRowsLast(d: Date, t: DayTable, keys: seq<Option<int>>, k: Option<int>)
    requires ValidDate(d)
    ensures SlotRows(d, t, keys + [k])
         == SlotRows(d, t, keys) + (if TimedSlot(t, k) then [SlotRow(t.cells[k].kind, d, t.cells[k].time.value)] else [])
  {
    if keys == [] {
      assert [] + [k] == [k];
    } else {
      assert (keys + [k])[1..] == keys[1..] + [k];
      SlotRowsLast(d, t, keys[1..], k);
    }
  }

  /**
   * Before 31-12-9999 the keys `keys` add exactly the rows of their timed
   * Midsem and Endsem slots, in the order of `keys`, and raise nothing.
   */
  lemma {:induction false} SlotsReportRows(d: Date, t: DayTable, keys: seq<Option<int>>, p: Progress)
    requires ValidDate(d) && d != MaxDate && !p.raised
    ensures SlotsReport(ProcessingCsv, d, t, keys, p) == Progress(p.rows + SlotRows(d, t, keys), false)
  {
    if keys == [] {
      assert p.rows + [] == p.rows;
    } else {
      var init, k := keys[..|keys| - 1], keys[|keys| - 1];
      assert init + [k] == keys;
      SlotsReportRows(d, t, init, p);
      SlotRowsLast(d, t, init, k);
    }
  }

  /** The rows processing.py's report gives one date: the holiday row, or its slot rows. */
  function DateRows(d: Date, t: DayTable): seq<Row>
    requires ValidDate(d)
  {
    if IsHoliday(t) then [["Holiday", FormatDate(d), "No bell ringing"]] else SlotRows(d, t, t.keys)
  }

  /** The rows of the dates `ds`, in that order. */
  function RowsOf(ev: Events, ds: seq<Date>): seq<Row>
    requires forall x :: x in ds ==> x in ev && ValidDate(x)
  {
    if ds == [] then []
    else RowsOf(ev, ds[..|ds| - 1]) + DateRows(ds[|ds| - 1], ev[ds[|ds| - 1]])
  }

  /** Before 31-12-9999 one date adds exactly its rows and raises nothing. */
  lemma DateReportRows(d: Date, t: DayTable, p: Progress)
    requires ValidDate(d) && d != MaxDate && !p.raised
    ensures DateReport(ProcessingCsv, d, t, p) == Progress(p.rows + DateRows(d, t), false)
  {
    if !IsHoliday(t) {
      SlotsReportRows(d, t, t.keys, p);
    }
  }

  /**
   * Before 31-12-9999 processing.py's report is the header followed, date by
   * date, by each date's holiday row or its timed slot rows, and no
   * exception ends it early.
   */
  lemma {:induction false} ReportRowsBeforeMaxDate(ev: Events, ds: seq<Date>)
    requires forall x :: x in ds ==> x in ev && ValidDate(x) && x != MaxDate
    ensures DatesReport(ProcessingCsv, ev, ds) == Progress([Header(ProcessingCsv)] + RowsOf(ev, ds), false)
  {
    if ds != [] {
      var init, d := ds[..|ds| - 1], ds[|ds| - 1];
      assert forall x :: x in init ==> x in ds;
      ReportRowsBeforeMaxDate(ev, init);
      var p := DatesReport(ProcessingCsv, ev, init);
      DateReportRows(d, ev[d], p);
      DatesReportLast(ProcessingCsv, ev, ds);
      assert RowsOf(ev, ds) == RowsOf(ev, init) + DateRows(d, ev[d]);
      assert p.rows + DateRows(d, ev[d]) == [Header(ProcessingCsv)] + RowsOf(ev, ds);
    } else {
      assert [Header(ProcessingCsv)] + RowsOf(ev, ds) == [Header(ProcessingCsv)];
    }
  }

  /**
   * processing.py's report can only be cut short on 31-12-9999: before that
   * date every offset time stays within the calendar, and each holiday date
   * adds at least its row (`ReportRowsBeforeMaxDate` gives every row).
   */
  lemma {:induction false} ReportCompleteBeforeMaxDate(ev: Events, ds: seq<Date>)
    requires forall x :: x in ds ==> x in ev && ValidDate(x) && x != MaxDate
    ensures !DatesReport(ProcessingCsv, ev, ds).raised
    ensures |DatesReport(ProcessingCsv, ev, ds).rows| >= 1 + |ds| - CountSlotDates(ev, ds)
  {
    if ds != [] {
      var init, d := ds[..|ds| - 1], ds[|ds| - 1];
      assert forall x :: x in init ==> x in ds;
      ReportCompleteBeforeMaxDate(ev, init);
      var p := DatesReport(ProcessingCsv, ev, init);
      if !IsHoliday(ev[d]) {
        SlotsNeverRaiseBeforeMaxDate(d, ev[d], ev[d].keys, p);
      }
    }
  }

  /** How many of the dates `ds` are not holidays. */
  function CountSlotDates(ev: Events, ds: seq<Date>): (n: nat)
    requires forall x :: x in ds ==> x in ev
    ensures n <= |ds|
  {
    if ds == [] then 0
    else CountSlotDates(ev, ds[..|ds| - 1]) + (if IsHoliday(ev[ds[|ds| - 1]]) then 0 else 1)
  }

  /** On 31-12-9999 a Midsem slot at 23:00:00 overflows, and the report stops there. */
  lemma LastDayOverflowStopsReport(p: Progress)
    requires !p.raised
    ensures SlotReport(ProcessingCsv, MaxDate, Cell(1, Some(82800)), p) == Progress(p.rows, true)
  {
    assert 82800 + MidReportOffsets[3] >= SecondsPerDay;
  }
}
