/**
 * `process_latest_events` of bell.py: the bell's own reading of the
 * snapshot file. Unlike the normaliser it keeps dates as the text of the
 * line, validates only the two dates of a holiday range, and lets every
 * other malformed field escape as an exception that ends the bell process.
 */
module BellEvents {
  import opened Basics
  import opened Text
  import opened Calendar

  /** The exceptions that escape `process_latest_events` or a tick. */
  datatype Fault =
    | BadInt        // `int(...)` raised ValueError
    | NoSuchField   // `parts[k]` raised IndexError
    | DateOverflow  // `current += timedelta(days=1)` past 31-12-9999 raised OverflowError
    | BadTimeText   // `strptime(event_time, '%H:%M:%S')` raised ValueError

  datatype Outcome<T> = Ok(value: T) | Raised(fault: Fault)

  /** The tuple `(event_type, event_time)` stored for one slot. */
  datatype SlotCell = SlotCell(kind: int, time: Option<string>)

  /**
   * The dictionary stored for one date: `{'event': (0, None, None)}`, or
   * slot numbers mapped to cells, listed in insertion order.
   */
  datatype Entry =
    | Holiday
    | Slots(keys: seq<int>, cells: map<int, SlotCell>)

  /** The triple `(date_events, immediate_ring, specific_time_event)`. */
  datatype Snapshot = Snapshot(days: map<string, Entry>, immediate: bool, specific: Option<string>)

  const Initial := Snapshot(map[], false, None)

  predicate IsExamKind(kind: int) {
    kind == 1 || kind == 2
  }

  /** A slot dictionary is never empty, lists each slot once and holds only kinds 1 and 2. */
  ghost predicate ValidEntry(e: Entry) {
    e.Slots? ==>
      && e.keys != []
      && (forall i, j :: 0 <= i < j < |e.keys| ==> e.keys[i] != e.keys[j])
      && e.cells.Keys == set k | k in e.keys
      && forall k :: k in e.cells ==> IsExamKind(e.cells[k].kind)
  }

  ghost predicate ValidDays(days: map<string, Entry>) {
    forall key :: key in days ==> ValidEntry(days[key])
  }

  ghost predicate ValidSnapshot(s: Snapshot) {
    ValidDays(s.days)
  }

  // ---------------------------------------------------------------------
  // The fold, one line at a time
  // ---------------------------------------------------------------------

  /** `date_events[d] = {'event': (0, None, None)}` for each date of `ds`, in order. */
  function MarkHolidays(days: map<string, Entry>, ds: seq<Date>): (r: map<string, Entry>)
    requires forall i :: 0 <= i < |ds| ==> ValidDate(ds[i])
    ensures forall key :: key in days ==> key in r
    ensures forall key :: key in r ==> r[key] == Holiday || (key in days && r[key] == days[key])
  {
    if ds == [] then days
    else MarkHolidays(days, ds[..|ds| - 1])[FormatDate(ds[|ds| - 1]) := Holiday]
  }

  lemma MarkHolidaysStep(days: map<string, Entry>, ds: seq<Date>, n: int)
    requires forall i :: 0 <= i < |ds| ==> ValidDate(ds[i])
    requires 0 <= n < |ds|
    ensures MarkHolidays(days, ds[..n + 1]) == MarkHolidays(days, ds[..n])[FormatDate(ds[n]) := Holiday]
  {
    assert ds[..n + 1][..n] == ds[..n];
  }

  /** `date_events[key][slot] = cell`, unless the date is a holiday. */
  function AddSlot(days: map<string, Entry>, key: string, slot: int, cell: SlotCell): map<string, Entry> {
    if key in days && days[key].Holiday? then days
    else
      var e := if key in days then days[key] else Slots([], map[]);
      days[key := Slots(if slot in e.cells then e.keys else e.keys + [slot], e.cells[slot := cell])]
  }

  /** A line of kind 0: one date taken as written, or a range of valid dates. */
  function ApplyHoliday(days: map<string, Entry>, parts: seq<string>): Outcome<map<string, Entry>> {
    if |parts| == 2 then Ok(days[parts[1] := Holiday])
    else if |parts| == 3 then
      match ParseDate(parts[1])
      case None => Ok(days)
      case Some(start) =>
        match ParseDate(parts[2])
        case None => Ok(days)
        case Some(end) =>
          if DateLeq(start, end) && end == MaxDate then Raised(DateOverflow)
          else Ok(MarkHolidays(days, DateRange(start, end)))
    else Ok(days)
  }

  /** A line of kind 1 or 2: `kind,slot,date[,time]`, the date kept as written. */
  function ApplySlot(days: map<string, Entry>, kind: int, parts: seq<string>): Outcome<map<string, Entry>> {
    if |parts| < 2 then Raised(NoSuchField)
    else match ParseInt(parts[1])
      case None => Raised(BadInt)
      case Some(slot) =>
        if |parts| < 3 then Raised(NoSuchField)
        else
          var time := if |parts| > 3 then Some(parts[3]) else None;
          Ok(AddSlot(days, parts[2], slot, SlotCell(kind, time)))
  }

  function WithDays(s: Snapshot, days: Outcome<map<string, Entry>>): Outcome<Snapshot> {
    match days
    case Raised(f) => Raised(f)
    case Ok(d) => Ok(s.(days := d))
  }

  /** The body of the loop over the snapshot's lines. */
  function ApplyLine(s: Snapshot, line: string): Outcome<Snapshot> {
    var text := Strip(line);
    if text == [] then Ok(s)
    else
      var parts := Split(text, ',');
      match ParseInt(parts[0])
      case None => Raised(BadInt)
      case Some(kind) =>
        if kind == 0 then WithDays(s, ApplyHoliday(s.days, parts))
        else if IsExamKind(kind) then WithDays(s, ApplySlot(s.days, kind, parts))
        else if kind == 3 then
          if |parts| < 2 then Raised(NoSuchField)
          else Ok(s.(immediate := true, specific := Some(parts[1])))
        else Ok(s)
  }

  /** A line of four fields `kind,slot,key,time` of kind 1 or 2 stores the time text under the key. */
  lemma ApplyFourFieldSlot(s: Snapshot, line: string, kind: int, slot: int)
    requires |Split(Strip(line), ',')| == 4 && IsExamKind(kind)
    requires ParseInt(Split(Strip(line), ',')[0]) == Some(kind) && ParseInt(Split(Strip(line), ',')[1]) == Some(slot)
    ensures var parts := Split(Strip(line), ',');
            ApplyLine(s, line) == Ok(s.(days := AddSlot(s.days, parts[2], slot, SlotCell(kind, Some(parts[3])))))
  {
    assert Strip(line) != [] by {
      assert Split([], ',') == [""];
    }
  }

  lemma AddSlotValid(days: map<string, Entry>, key: string, slot: int, cell: SlotCell)
    requires ValidDays(days) && IsExamKind(cell.kind)
    ensures ValidDays(AddSlot(days, key, slot, cell))
  {
    var r := AddSlot(days, key, slot, cell);
    if !(key in days && days[key].Holiday?) {
      var e := if key in days then days[key] else Slots([], map[]);
      var keys := if slot in e.cells then e.keys else e.keys + [slot];
      assert r[key].cells.Keys == set k | k in keys;
    }
  }

  lemma ApplyHolidayValid(days: map<string, Entry>, parts: seq<string>)
    requires ValidDays(days)
    ensures ApplyHoliday(days, parts).Ok? ==> ValidDays(ApplyHoliday(days, parts).value)
  {
  }

  lemma ApplySlotValid(days: map<string, Entry>, kind: int, parts: seq<string>)
    requires ValidDays(days) && IsExamKind(kind)
    ensures ApplySlot(days, kind, parts).Ok? ==> ValidDays(ApplySlot(days, kind, parts).value)
  {
    if |parts| >= 3 && ParseInt(parts[1]).Some? {
      var time := if |parts| > 3 then Some(parts[3]) else None;
      AddSlotValid(days, parts[2], ParseInt(parts[1]).value, SlotCell(kind, time));
    }
  }

  /** Every line keeps the snapshot well formed. */
  lemma ApplyLineValid(s: Snapshot, line: string)
    requires ValidSnapshot(s)
    ensures ApplyLine(s, line).Ok? ==> ValidSnapshot(ApplyLine(s, line).value)
  {
    var text := Strip(line);
    if text != [] {
      var parts := Split(text, ',');
      var kind := ParseInt(parts[0]);
      if kind.Some? {
        if kind.value == 0 {
          ApplyHolidayValid(s.days, parts);
        } else if IsExamKind(kind.value) {
          ApplySlotValid(s.days, kind.value, parts);
        }
      }
    }
  }

  /** `process_latest_events(lines)`: the lines folded in order, stopping at the first exception. */
  function LoadSnapshot(lines: seq<string>): (r: Outcome<Snapshot>)
    ensures r.Ok? ==> ValidSnapshot(r.value)
  {
    if lines == [] then Ok(Initial)
    else
      match LoadSnapshot(lines[..|lines| - 1])
      case Raised(f) => Raised(f)
      case Ok(s) =>
        ApplyLineValid(s, lines[|lines| - 1]);
        ApplyLine(s, lines[|lines| - 1])
  }

  /** Once a prefix has raised, the whole file raises the same exception. */
  lemma {:induction false} RaisedStays(lines: seq<string>, k: int, f: Fault)
    requires 0 <= k <= |lines| && LoadSnapshot(lines[..k]) == Raised(f)
    ensures LoadSnapshot(lines) == Raised(f)
    decreases |lines| - k
  {
    if k < |lines| {
      var init := lines[..|lines| - 1];
      assert init[..k] == lines[..k];
      RaisedStays(init, k, f);
    } else {
      assert lines[..k] == lines;
    }
  }

  // ---------------------------------------------------------------------
  // The imperative reading
  // ---------------------------------------------------------------------

  /**
   * The `while current <= end_date` loop of a holiday range: every date from
   * `start` to `end` becomes a holiday, and stepping past 31-12-9999 raises.
   */
  method ExpandHolidayRange(days0: map<string, Entry>, start: Date, end: Date)
    returns (r: Outcome<map<string, Entry>>)
    requires ValidDate(start) && ValidDate(end)
    ensures r == if DateLeq(start, end) && end == MaxDate then Raised(DateOverflow)
                 else Ok(MarkHolidays(days0, DateRange(start, end)))
  {
    ghost var ds := DateRange(start, end);
    ghost var n := 0;
    var days := days0;
    var current := start;
    while DateLeq(current, end)
      invariant ValidDate(current) && 0 <= n <= |ds| && Ordinal(current) == Ordinal(start) + n
      invariant days == MarkHolidays(days0, ds[..n])
      decreases Ordinal(end) - Ordinal(current)
    {
      HolidayRangeStep(days0, start, end, current, n);
      days := days[FormatDate(current) := Holiday];
      if current == MaxDate {
        return Raised(DateOverflow);
      }
      current := NextDay(current);
      n := n + 1;
    }
    HolidayRangeExit(days0, start, end, current, n);
    r := Ok(days);
  }

  /** One pass of the range loop marks the next date of the range. */
  lemma HolidayRangeStep(days0: map<string, Entry>, start: Date, end: Date, current: Date, n: int)
    requires ValidDate(start) && ValidDate(end) && ValidDate(current) && DateLeq(current, end)
    requires 0 <= n <= |DateRange(start, end)| && Ordinal(current) == Ordinal(start) + n
    ensures var ds := DateRange(start, end);
            && n < |ds|
            && MarkHolidays(days0, ds[..n])[FormatDate(current) := Holiday] == MarkHolidays(days0, ds[..n + 1])
    ensures current == MaxDate ==> DateLeq(start, end) && end == MaxDate
  {
    var ds := DateRange(start, end);
    OrdinalOrder(current, end);
    OrdinalInjective(ds[n], current);
    MarkHolidaysStep(days0, ds, n);
    if current == MaxDate {
      OrdinalAtMostMax(end);
      OrdinalOrder(start, end);
    }
  }

  /** Leaving the range loop normally, the whole range has been marked and nothing overflowed. */
  lemma HolidayRangeExit(days0: map<string, Entry>, start: Date, end: Date, current: Date, n: int)
    requires ValidDate(start) && ValidDate(end) && ValidDate(current) && !DateLeq(current, end)
    requires 0 <= n <= |DateRange(start, end)| && Ordinal(current) == Ordinal(start) + n
    ensures !(DateLeq(start, end) && end == MaxDate)
    ensures MarkHolidays(days0, DateRange(start, end)[..n]) == MarkHolidays(days0, DateRange(start, end))
  {
    var ds := DateRange(start, end);
    OrdinalOrder(current, end);
    OrdinalOrder(start, end);
    OrdinalAtMostMax(current);
    assert ds[..n] == ds;
  }

  /** The holiday branch of the loop body: a line of kind 0. */
  method ReadHolidayLine(days: map<string, Entry>, parts: seq<string>) returns (r: Outcome<map<string, Entry>>)
    ensures r == ApplyHoliday(days, parts)
  {
    r := Ok(days);
    if |parts| == 2 {
      r := Ok(days[parts[1] := Holiday]);
    } else if |parts| == 3 {
      var start, end := ParseDate(parts[1]), ParseDate(parts[2]);
      if start.Some? && end.Some? {
        r := ExpandHolidayRange(days, start.value, end.value);
      }
    }
  }

  /** The slot branch of the loop body: a line of kind 1 or 2. */
  method ReadSlotLine(days: map<string, Entry>, kind: int, parts: seq<string>) returns (r: Outcome<map<string, Entry>>)
    ensures r == ApplySlot(days, kind, parts)
  {
    if |parts| < 2 {
      return Raised(NoSuchField);
    }
    var slot := ParseInt(parts[1]);
    if slot.None? {
      return Raised(BadInt);
    }
    if |parts| < 3 {
      return Raised(NoSuchField);
    }
    var key := parts[2];
    var time := if |parts| > 3 then Some(parts[3]) else None;
    var updated := days;
    if key !in updated || updated[key].Slots? {
      if key !in updated {
        updated := updated[key := Slots([], map[])];
      }
      var e := updated[key];
      var keys := if slot.value in e.cells then e.keys else e.keys + [slot.value];
      updated := updated[key := Slots(keys, e.cells[slot.value := SlotCell(kind, time)])];
    }
    assert updated == AddSlot(days, key, slot.value, SlotCell(kind, time));
    r := Ok(updated);
  }

  /**
   * `process_latest_events`: reads the snapshot's lines into the date
   * dictionary and the immediate-ring flag, or raises.
   */
  method ProcessLatestEvents(lines: seq<string>) returns (r: Outcome<Snapshot>)
    ensures r == LoadSnapshot(lines)
  {
    var days: map<string, Entry> := map[];
    var immediate := false;
    var specific: Option<string> := None;
    for i := 0 to |lines|
      invariant LoadSnapshot(lines[..i]) == Ok(Snapshot(days, immediate, specific))
    {
      assert lines[..i + 1][..i] == lines[..i];
      ghost var before := Snapshot(days, immediate, specific);
      assert LoadSnapshot(lines[..i + 1]) == ApplyLine(before, lines[i]);
      var line := Strip(lines[i]);
      if line != [] {
        var parts := Split(line, ',');
        var kind := ParseInt(parts[0]);
        if kind.None? {
          RaisedStays(lines, i + 1, BadInt);
          return Raised(BadInt);
        }
        if kind.value == 0 || kind.value == 1 || kind.value == 2 {
          var updated;
          if kind.value == 0 {
            updated := ReadHolidayLine(days, parts);
          } else {
            updated := ReadSlotLine(days, kind.value, parts);
          }
          if updated.Raised? {
            RaisedStays(lines, i + 1, updated.fault);
            return Raised(updated.fault);
          }
          days := updated.value;
        } else if kind.value == 3 {
          if |parts| < 2 {
            RaisedStays(lines, i + 1, NoSuchField);
            return Raised(NoSuchField);
          }
          specific := Some(parts[1]);
          immediate := true;
        }
      }
    }
    assert lines[..|lines|] == lines;
    r := Ok(Snapshot(days, immediate, specific));
  }

  // ---------------------------------------------------------------------
  // What the snapshot holds for one date
  // ---------------------------------------------------------------------

  /**
   * Whether `line` makes `key` a holiday: `0,key`, or `0,start,end` with
   * valid dates and `key` the text of a date between them.
   */
  predicate MarksHoliday(line: string, key: string) {
    var parts := Split(Strip(line), ',');
    && ParseInt(parts[0]) == Some(0)
    && ((|parts| == 2 && parts[1] == key)
        || (&& |parts| == 3
            && ParseDate(parts[1]).Some? && ParseDate(parts[2]).Some? && ParseDate(key).Some?
            && DateLeq(ParseDate(parts[1]).value, ParseDate(key).value)
            && DateLeq(ParseDate(key).value, ParseDate(parts[2]).value)))
  }

  lemma {:induction false} MarkHolidaysCovers(days: map<string, Entry>, ds: seq<Date>, x: Date)
    requires forall i :: 0 <= i < |ds| ==> ValidDate(ds[i])
    requires x in ds
    ensures FormatDate(x) in MarkHolidays(days, ds) && MarkHolidays(days, ds)[FormatDate(x)] == Holiday
  {
    var init := ds[..|ds| - 1];
    if x != ds[|ds| - 1] {
      assert x in init;
      MarkHolidaysCovers(days, init, x);
    }
  }

  lemma {:induction false} MarkHolidaysAvoids(days: map<string, Entry>, ds: seq<Date>, key: string)
    requires forall i :: 0 <= i < |ds| ==> ValidDate(ds[i]) && FormatDate(ds[i]) != key
    ensures key in MarkHolidays(days, ds) <==> key in days
    ensures key in days ==> MarkHolidays(days, ds)[key] == days[key]
  {
    if ds != [] {
      MarkHolidaysAvoids(days, ds[..|ds| - 1], key);
    }
  }

  /** A line that marks `key` leaves it a holiday, whatever it was before. */
  lemma ApplyMarksHoliday(s: Snapshot, line: string, key: string)
    requires ValidSnapshot(s) && MarksHoliday(line, key) && ApplyLine(s, line).Ok?
    ensures key in ApplyLine(s, line).value.days && ApplyLine(s, line).value.days[key] == Holiday
  {
    var parts := Split(Strip(line), ',');
    ParseIntEmpty();
    if |parts| == 3 && parts[1..] != [key] {
      var start, end, x := ParseDate(parts[1]).value, ParseDate(parts[2]).value, ParseDate(key).value;
      FormatParseDate(key);
      RangeCoversBounds(start, end, x);
      MarkHolidaysCovers(s.days, DateRange(start, end), x);
    }
  }

  /** No line that loads turns a holiday back into a date with slots. */
  lemma ApplyKeepsHoliday(s: Snapshot, line: string, key: string)
    requires ValidSnapshot(s) && key in s.days && s.days[key] == Holiday && ApplyLine(s, line).Ok?
    ensures key in ApplyLine(s, line).value.days && ApplyLine(s, line).value.days[key] == Holiday
  {
  }

  /**
   * Holiday wins in both orders: once any line marks `key`, the date is a
   * holiday in the loaded snapshot, whatever came before or after it.
   */
  lemma {:induction false} HolidayStays(lines: seq<string>, i: int, key: string)
    requires 0 <= i < |lines| && MarksHoliday(lines[i], key) && LoadSnapshot(lines).Ok?
    ensures key in LoadSnapshot(lines).value.days && LoadSnapshot(lines).value.days[key] == Holiday
  {
    var init := lines[..|lines| - 1];
    var s := LoadSnapshot(init).value;
    if i == |lines| - 1 {
      ApplyMarksHoliday(s, lines[i], key);
    } else {
      assert init[i] == lines[i];
      HolidayStays(init, i, key);
      ApplyKeepsHoliday(s, lines[|lines| - 1], key);
    }
  }

  /** The single-day form stores its date text as written, without checking it is a date. */
  lemma UncheckedHolidayText(s: Snapshot, key: string)
    requires ValidSnapshot(s)
    requires key != [] && ',' !in key && !IsSpace(key[|key| - 1])
    ensures ApplyLine(s, "0," + key) == Ok(s.(days := s.days[key := Holiday]))
  {
    var line := "0," + key;
    StripNoSpace(line);
    assert Join(["0", key], [',']) == line by {
      assert Join([key], [',']) == key;
    }
    SplitJoin(["0", key], ',');
    assert ParseInt("0") == Some(0);
  }

  /** The write a line of kind 1 or 2 performs when it loads: `date_events[key][slot] = cell`. */
  datatype SlotWrite = SlotWrite(key: string, slot: int, cell: SlotCell)

  function SlotWriteOf(line: string): Option<SlotWrite> {
    var parts := Split(Strip(line), ',');
    match ParseInt(parts[0])
    case None => None
    case Some(kind) =>
      if IsExamKind(kind) && |parts| >= 3 && ParseInt(parts[1]).Some? then
        var time := if |parts| > 3 then Some(parts[3]) else None;
        Some(SlotWrite(parts[2], ParseInt(parts[1]).value, SlotCell(kind, time)))
      else None
  }

  predicate Writes(line: string, key: string, slot: int) {
    SlotWriteOf(line).Some? && SlotWriteOf(line).value.key == key && SlotWriteOf(line).value.slot == slot
  }

  /** The cell written by the last line that writes `slot` of `key`. */
  function LastCell(lines: seq<string>, key: string, slot: int): Option<SlotCell> {
    if lines == [] then None
    else if Writes(lines[|lines| - 1], key, slot) then Some(SlotWriteOf(lines[|lines| - 1]).value.cell)
    else LastCell(lines[..|lines| - 1], key, slot)
  }

  /** What the snapshot holds for `slot` of `key`, if anything. */
  function CellAt(days: map<string, Entry>, key: string, slot: int): Option<SlotCell> {
    if key in days && days[key].Slots? && slot in days[key].cells then Some(days[key].cells[slot]) else None
  }

  lemma HolidayRangeAvoids(days: map<string, Entry>, line: string, key: string)
    requires !MarksHoliday(line, key)
    requires var parts := Split(Strip(line), ',');
             ParseInt(parts[0]) == Some(0) && |parts| == 3 && ParseDate(parts[1]).Some? && ParseDate(parts[2]).Some?
    ensures var parts := Split(Strip(line), ',');
            var ds := DateRange(ParseDate(parts[1]).value, ParseDate(parts[2]).value);
            (key in MarkHolidays(days, ds) <==> key in days)
            && (key in days ==> MarkHolidays(days, ds)[key] == days[key])
  {
    var parts := Split(Strip(line), ',');
    var start, end := ParseDate(parts[1]).value, ParseDate(parts[2]).value;
    var ds := DateRange(start, end);
    forall i | 0 <= i < |ds| ensures FormatDate(ds[i]) == key ==> MarksHoliday(line, key) {
      ParseFormatDate(ds[i]);
      RangeWithinBounds(start, end, ds[i]);
    }
    MarkHolidaysAvoids(days, ds, key);
  }

  /** `date_events[w.key][w.slot] = w.cell` as seen from one (date, slot) pair. */
  lemma AddSlotCell(days: map<string, Entry>, w: SlotWrite, key: string, slot: int)
    requires key in days ==> days[key].Slots?
    ensures var t := AddSlot(days, w.key, w.slot, w.cell);
            && (key in t ==> t[key].Slots?)
            && CellAt(t, key, slot) == if w.key == key && w.slot == slot then Some(w.cell) else CellAt(days, key, slot)
  {
  }

  /** One line's effect on one (date, slot) pair, when the line does not make the date a holiday. */
  lemma ApplyLineCell(s: Snapshot, line: string, key: string, slot: int)
    requires ValidSnapshot(s) && ApplyLine(s, line).Ok? && !MarksHoliday(line, key)
    requires key in s.days ==> s.days[key].Slots?
    ensures var t := ApplyLine(s, line).value;
            && (key in t.days ==> t.days[key].Slots?)
            && CellAt(t.days, key, slot)
               == if Writes(line, key, slot) then Some(SlotWriteOf(line).value.cell) else CellAt(s.days, key, slot)
  {
    var text := Strip(line);
    var parts := Split(text, ',');
    ParseIntEmpty();
    var kind := ParseInt(parts[0]);
    if text != [] && kind.Some? {
      if kind.value == 0 {
        HolidayLineCell(s, line, key, slot);
      } else if IsExamKind(kind.value) {
        var w := SlotWriteOf(line).value;
        assert ApplyLine(s, line).value.days == AddSlot(s.days, w.key, w.slot, w.cell);
        AddSlotCell(s.days, w, key, slot);
      } else {
        assert !Writes(line, key, slot);
        assert ApplyLine(s, line).value.days == s.days;
      }
    } else {
      assert ApplyLine(s, line) == Ok(s);
    }
  }

  /** A kind-0 line that does not name `key` leaves its cells alone. */
  lemma HolidayLineCell(s: Snapshot, line: string, key: string, slot: int)
    requires ValidSnapshot(s) && ApplyLine(s, line).Ok? && !MarksHoliday(line, key)
    requires key in s.days ==> s.days[key].Slots?
    requires Strip(line) != [] && ParseInt(Split(Strip(line), ',')[0]) == Some(0)
    ensures !Writes(line, key, slot)
    ensures var t := ApplyLine(s, line).value;
            && (key in t.days ==> t.days[key].Slots?)
            && CellAt(t.days, key, slot) == CellAt(s.days, key, slot)
  {
    var parts := Split(Strip(line), ',');
    assert ApplyLine(s, line) == WithDays(s, ApplyHoliday(s.days, parts));
    HolidayPartsCell(s.days, line, parts, key, slot);
  }

  /** A holiday line that does not name `key` leaves what `key` holds alone. */
  lemma HolidayPartsCell(days: map<string, Entry>, line: string, parts: seq<string>, key: string, slot: int)
    requires parts == Split(Strip(line), ',') && ParseInt(parts[0]) == Some(0)
    requires ApplyHoliday(days, parts).Ok? && !MarksHoliday(line, key)
    requires key in days ==> days[key].Slots?
    ensures var t := ApplyHoliday(days, parts).value;
            && (key in t ==> t[key].Slots?)
            && CellAt(t, key, slot) == CellAt(days, key, slot)
  {
    if |parts| == 3 && ParseDate(parts[1]).Some? && ParseDate(parts[2]).Some? {
      HolidayRangeAvoids(days, line, key);
    }
  }

  /**
   * Last writer wins: on a date no line makes a holiday, each slot holds the
   * cell of the last line that wrote it, and no slot is held that no line wrote.
   */
  lemma {:induction false} LastWriterWins(lines: seq<string>, key: string, slot: int)
    requires LoadSnapshot(lines).Ok?
    requires forall i :: 0 <= i < |lines| ==> !MarksHoliday(lines[i], key)
    ensures key in LoadSnapshot(lines).value.days ==> LoadSnapshot(lines).value.days[key].Slots?
    ensures CellAt(LoadSnapshot(lines).value.days, key, slot) == LastCell(lines, key, slot)
  {
    if lines != [] {
      var init := lines[..|lines| - 1];
      assert forall i :: 0 <= i < |init| ==> init[i] == lines[i];
      LastWriterWins(init, key, slot);
      ApplyLineCell(LoadSnapshot(init).value, lines[|lines| - 1], key, slot);
    }
  }

  /** The time field of a kind-3 line that loads. */
  function ImmediateOf(line: string): Option<string> {
    var parts := Split(Strip(line), ',');
    if ParseInt(parts[0]) == Some(3) && |parts| >= 2 then Some(parts[1]) else None
  }

  /** The time field of the last kind-3 line. */
  function LastImmediate(lines: seq<string>): Option<string> {
    if lines == [] then None
    else if ImmediateOf(lines[|lines| - 1]).Some? then ImmediateOf(lines[|lines| - 1])
    else LastImmediate(lines[..|lines| - 1])
  }

  /** One line sets the immediate-ring fields exactly when it is a kind-3 line, and keeps them otherwise. */
  lemma ApplyLineImmediate(s: Snapshot, line: string)
    requires ApplyLine(s, line).Ok?
    ensures ApplyLine(s, line).value.specific == if ImmediateOf(line).Some? then ImmediateOf(line) else s.specific
    ensures ApplyLine(s, line).value.immediate == (s.immediate || ImmediateOf(line).Some?)
  {
    ParseIntEmpty();
  }

  /**
   * Any kind-3 line sets the immediate-ring flag, which nothing clears, and
   * the last one's field is the one kept.
   */
  lemma {:induction false} ImmediateFromLastLine(lines: seq<string>)
    requires LoadSnapshot(lines).Ok?
    ensures LoadSnapshot(lines).value.specific == LastImmediate(lines)
    ensures LoadSnapshot(lines).value.immediate == LastImmediate(lines).Some?
  {
    if lines != [] {
      ImmediateFromLastLine(lines[..|lines| - 1]);
      ApplyLineImmediate(LoadSnapshot(lines[..|lines| - 1]).value, lines[|lines| - 1]);
    }
  }
}
