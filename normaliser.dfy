/**
 * The normaliser of processing.py: `read_and_process_events` folds the intake
 * lines, in file order, into a dictionary from date to a per-date table and
 * compacts the intake file down to the lines that parsed.
 *
 * A per-date table is a Python dict keyed by slot, where the key `None`
 * marks a holiday. A holiday record replaces the whole table; any other
 * record is skipped on a date whose table holds `None`, and otherwise writes
 * its (kind, time) under its slot.
 */
module Normaliser {
  import opened Basics
  import opened Calendar
  import opened EventRecords

  /** The value `(event_type, event_time)` stored under a slot. */
  datatype Cell = Cell(kind: int, time: Option<Time>)

  /**
   * One date's dict: its keys in insertion order (Python dicts keep it, and
   * the CSV report lists slots in that order) and the cell under each key.
   */
  datatype DayTable = DayTable(keys: seq<Option<int>>, cells: map<Option<int>, Cell>)

  predicate ValidTable(t: DayTable) {
    && (forall i, j :: 0 <= i < j < |t.keys| ==> t.keys[i] != t.keys[j])
    && t.cells.Keys == set k | k in t.keys
  }

  const EmptyTable := DayTable([], map[])

  /** `{None: (0, None)}`. */
  const HolidayTable := DayTable([None], map[None := Cell(0, None)])

  /** The date is marked as a holiday: its table holds the key `None`. */
  predicate IsHoliday(t: DayTable) {
    None in t.cells
  }

  /** `table[k] = c`: a new key goes last, an existing key keeps its place. */
  function Put(t: DayTable, k: Option<int>, c: Cell): (r: DayTable)
    ensures ValidTable(t) ==> ValidTable(r)
    ensures r.cells == t.cells[k := c]
    ensures k in t.cells ==> r.keys == t.keys
    ensures k !in t.cells ==> r.keys == t.keys + [k]
  {
    if k in t.cells then DayTable(t.keys, t.cells[k := c])
    else DayTable(t.keys + [k], t.cells[k := c])
  }

  type Events = map<Date, DayTable>

  function Lookup(ev: Events, d: Date): Option<DayTable> {
    if d in ev then Some(ev[d]) else None
  }

  /** Every key is a calendar date and every table a well-formed dict. */
  predicate ValidEvents(ev: Events) {
    forall d :: d in ev ==> ValidDate(d) && ValidTable(ev[d])
  }

  // ---------------------------------------------------------------------
  // The fold, as specification functions
  // ---------------------------------------------------------------------

  /** One pass of the inner loop (processing.py:49-56) on one date of a record. */
  function ApplyDate(ev: Events, r: Record, d: Date): Events {
    if r.kind == 0 then ev[d := HolidayTable]
    else if d !in ev then ev[d := Put(EmptyTable, r.slot, Cell(r.kind, r.time))]
    else if IsHoliday(ev[d]) then ev
    else ev[d := Put(ev[d], r.slot, Cell(r.kind, r.time))]
  }

  /** The inner loop over the first `|days|` dates of a record's range. */
  function ApplyDates(ev: Events, r: Record, days: seq<Date>): Events {
    if days == [] then ev
    else ApplyDate(ApplyDates(ev, r, days[..|days| - 1]), r, days[|days| - 1])
  }

  /** A parsed record applied to every date of its inclusive range. */
  function ApplyRecord(ev: Events, r: Record): Events
    requires WellFormed(r)
  {
    ApplyDates(ev, r, DateRange(r.start, r.end))
  }

  /** One `Error parsing line` log entry: the line and why it failed. */
  datatype LogEntry = LogEntry(line: string, reason: ParseError)

  /** `event_dict`, `valid_lines` and the error log after some lines. */
  datatype State = State(events: Events, kept: seq<string>, log: seq<LogEntry>)

  function Step(s: State, line: string): State {
    match ParseEventLine(line)
    case Parsed(r) => State(ApplyRecord(s.events, r), s.kept + [line], s.log)
    case Failed(e) => State(s.events, s.kept, s.log + [LogEntry(line, e)])
  }

  /** The loop over `lines`, in file order. */
  function Fold(lines: seq<string>): State {
    if lines == [] then State(map[], [], [])
    else Step(Fold(lines[..|lines| - 1]), lines[|lines| - 1])
  }

  // ---------------------------------------------------------------------
  // The function itself
  // ---------------------------------------------------------------------

  /**
   * `read_and_process_events`. `input` is the intake file's lines, or `None`
   * when it cannot be read; `rewritten` is what the file is overwritten with
   * (`None`: left alone), `log` what is appended to the error log.
   */
  method ReadAndProcessEvents(input: Option<seq<string>>)
    returns (events: Events, rewritten: Option<seq<string>>, log: seq<LogEntry>)
    ensures input.None? ==> events == map[] && rewritten == None && log == []
    ensures input.Some? ==>
      && events == Fold(input.value).events
      && rewritten == Some(Fold(input.value).kept)
      && log == Fold(input.value).log
  {
    events, rewritten, log := map[], None, [];
    if input.None? {
      return;
    }
    var lines := input.value;
    var valid: seq<string> := [];
    for i := 0 to |lines|
      invariant Fold(lines[..i]) == State(events, valid, log)
    {
      var line := lines[i];
      FoldNext(lines, i);
      match ParseEventLine(line)
      case Failed(e) =>
        log := log + [LogEntry(line, e)];
      case Parsed(rec) =>
        events := ApplyRecordDates(events, rec);
        valid := valid + [line];
    }
    assert lines[..|lines|] == lines;
    rewritten := Some(valid);
  }

  lemma FoldNext(lines: seq<string>, i: int)
    requires 0 <= i < |lines|
    ensures Fold(lines[..i + 1]) == Step(Fold(lines[..i]), lines[i])
  {
    assert lines[..i + 1][..i] == lines[..i];
  }

  /** The inner loop of `read_and_process_events`: one record over its whole date range. */
  method ApplyRecordDates(events0: Events, rec: Record) returns (events: Events)
    requires WellFormed(rec)
    ensures events == ApplyRecord(events0, rec)
  {
    events := events0;
    var days := DateRange(rec.start, rec.end);
    for n := 0 to |days|
      invariant events == ApplyDates(events0, rec, days[..n])
    {
      ApplyDatesNext(events0, rec, days, n);
      events := ApplyOneDate(events, rec, days[n]);
    }
    assert days[..|days|] == days;
  }

  /** One pass of the inner loop: the record's entry written into date `d`. */
  method ApplyOneDate(events0: Events, rec: Record, d: Date) returns (events: Events)
    ensures events == ApplyDate(events0, rec, d)
  {
    events := events0;
    if rec.kind == 0 {
      events := events[d := HolidayTable];
    } else if d !in events || !IsHoliday(events[d]) {
      if d !in events {
        events := events[d := EmptyTable];
      }
      events := events[d := Put(events[d], rec.slot, Cell(rec.kind, rec.time))];
    }
  }

  lemma ApplyDatesNext(ev: Events, r: Record, days: seq<Date>, n: int)
    requires 0 <= n < |days|
    ensures ApplyDates(ev, r, days[..n + 1]) == ApplyDate(ApplyDates(ev, r, days[..n]), r, days[n])
  {
    assert days[..n + 1][..n] == days[..n];
  }

  // ---------------------------------------------------------------------
  // One date at a time
  // ---------------------------------------------------------------------

  /** What one record does to one date's entry, `None` standing for "no entry". */
  function EntryAfter(e: Option<DayTable>, r: Record): (e': Option<DayTable>)
    ensures e'.Some?
  {
    if r.kind == 0 then Some(HolidayTable)
    else if e.None? then Some(Put(EmptyTable, r.slot, Cell(r.kind, r.time)))
    else if IsHoliday(e.value) then e
    else Some(Put(e.value, r.slot, Cell(r.kind, r.time)))
  }

  /** A record covers the valid dates from its start to its end, both included. */
  predicate Covers(r: Record, d: Date) {
    ValidDate(d) && DateLeq(r.start, d) && DateLeq(d, r.end)
  }

  /**
   * The entry of date `d` after `lines`, computed from the records covering
   * `d` alone: a reference definition of the fold that never builds the map.
   */
  function EntryFold(lines: seq<string>, d: Date): Option<DayTable> {
    if lines == [] then None
    else
      var e := EntryFold(lines[..|lines| - 1], d);
      match ParseEventLine(lines[|lines| - 1])
      case Parsed(r) => if Covers(r, d) then EntryAfter(e, r) else e
      case Failed(_) => e
  }

  lemma ApplyDateLookup(ev: Events, r: Record, d: Date, x: Date)
    ensures Lookup(ApplyDate(ev, r, d), x) == if x == d then EntryAfter(Lookup(ev, d), r) else Lookup(ev, x)
  {
  }

  /** The inner loop changes exactly the dates it visits, each once. */
  lemma {:induction false} ApplyDatesLookup(ev: Events, r: Record, days: seq<Date>, x: Date)
    requires forall i, j :: 0 <= i < j < |days| ==> days[i] != days[j]
    ensures Lookup(ApplyDates(ev, r, days), x) == if x in days then EntryAfter(Lookup(ev, x), r) else Lookup(ev, x)
  {
    if days != [] {
      var init, last := days[..|days| - 1], days[|days| - 1];
      ApplyDatesLookup(ev, r, init, x);
      ApplyDateLookup(ApplyDates(ev, r, init), r, last, x);
      assert days == init + [last];
      if x == last {
        assert x !in init;
      }
    }
  }

  /**
   * Applying a record changes the entries of the dates it covers, each by
   * `EntryAfter`, and leaves every other date alone (processing.py:48-56).
   */
  lemma ApplyRecordLookup(ev: Events, r: Record, x: Date)
    requires WellFormed(r)
    ensures Lookup(ApplyRecord(ev, r), x) == if Covers(r, x) then EntryAfter(Lookup(ev, x), r) else Lookup(ev, x)
  {
    var days := DateRange(r.start, r.end);
    forall i, j | 0 <= i < j < |days| ensures days[i] != days[j] {
      assert Ordinal(days[i]) < Ordinal(days[j]);
    }
    ApplyDatesLookup(ev, r, days, x);
    RangeMembership(r.start, r.end, x);
  }

  /** The map the fold builds agrees, date by date, with the per-date reference. */
  lemma {:induction false} FoldAtDate(lines: seq<string>, d: Date)
    ensures Lookup(Fold(lines).events, d) == EntryFold(lines, d)
  {
    if lines != [] {
      var init := lines[..|lines| - 1];
      FoldAtDate(init, d);
      match ParseEventLine(lines[|lines| - 1])
      case Parsed(r) =>
        ApplyRecordLookup(Fold(init).events, r, d);
      case Failed(_) =>
    }
  }

  lemma {:induction false} ApplyDatesValid(ev: Events, r: Record, days: seq<Date>)
    requires ValidEvents(ev)
    requires forall i :: 0 <= i < |days| ==> ValidDate(days[i])
    ensures ValidEvents(ApplyDates(ev, r, days))
  {
    if days != [] {
      ApplyDatesValid(ev, r, days[..|days| - 1]);
    }
  }

  /** The fold only ever stores calendar dates and well-formed dicts. */
  lemma {:induction false} FoldValid(lines: seq<string>)
    ensures ValidEvents(Fold(lines).events)
  {
    if lines != [] {
      var init := lines[..|lines| - 1];
      FoldValid(init);
      match ParseEventLine(lines[|lines| - 1])
      case Parsed(r) =>
        ApplyDatesValid(Fold(init).events, r, DateRange(r.start, r.end));
      case Failed(_) =>
    }
  }

  // ---------------------------------------------------------------------
  // Override rules
  // ---------------------------------------------------------------------

  /** Once a date is exactly the holiday entry, no record changes it. */
  lemma HolidayAbsorbs(r: Record)
    ensures EntryAfter(Some(HolidayTable), r) == Some(HolidayTable)
  {
  }

  /** The line at `i` parses as a holiday (kind 0) covering `d`. */
  predicate HolidayLineAt(lines: seq<string>, i: int, d: Date) {
    0 <= i < |lines| && ParseEventLine(lines[i]).Parsed?
    && ParseEventLine(lines[i]).rec.kind == 0 && Covers(ParseEventLine(lines[i]).rec, d)
  }

  /**
   * Holiday wins whatever the order: a date covered by any holiday line ends
   * as exactly `{None: (0, None)}`, whether slot lines for it come before or
   * after (processing.py:49-56).
   */
  lemma {:induction false} HolidayWins(lines: seq<string>, i: int, d: Date)
    requires HolidayLineAt(lines, i, d)
    ensures EntryFold(lines, d) == Some(HolidayTable)
    ensures Lookup(Fold(lines).events, d) == Some(HolidayTable)
  {
    var init := lines[..|lines| - 1];
    if i < |lines| - 1 {
      assert init[i] == lines[i];
      HolidayWins(init, i, d);
      match ParseEventLine(lines[|lines| - 1])
      case Parsed(r) =>
        HolidayAbsorbs(r);
      case Failed(_) =>
    }
    FoldAtDate(lines, d);
  }

  /** Without any holiday line covering `d`, the entry of `d` (if any) is not a holiday. */
  lemma {:induction false} NoHolidayWithoutHolidayLine(lines: seq<string>, d: Date)
    requires forall i :: 0 <= i < |lines| && ParseEventLine(lines[i]).Parsed? ==> ParseEventLine(lines[i]).rec.kind in {1, 2}
    ensures EntryFold(lines, d).Some? ==> !IsHoliday(EntryFold(lines, d).value) && ValidTable(EntryFold(lines, d).value)
  {
    if lines != [] {
      var init := lines[..|lines| - 1];
      forall i | 0 <= i < |init| && ParseEventLine(init[i]).Parsed?
        ensures ParseEventLine(init[i]).rec.kind in {1, 2}
      {
        assert init[i] == lines[i];
      }
      NoHolidayWithoutHolidayLine(init, d);
      assert ParseEventLine(lines[|lines| - 1]).Parsed? ==> ParseEventLine(lines[|lines| - 1]).rec.kind in {1, 2};
    }
  }

  /**
   * The shape of every entry when kinds are 0, 1 or 2: either exactly the
   * holiday entry or a table of slots without the `None` key.
   */
  lemma {:induction false} EntriesAreExclusive(lines: seq<string>, d: Date)
    requires forall i :: 0 <= i < |lines| && ParseEventLine(lines[i]).Parsed? ==> ParseEventLine(lines[i]).rec.kind in {0, 1, 2}
    ensures EntryFold(lines, d).Some? ==>
      EntryFold(lines, d) == Some(HolidayTable) || (!IsHoliday(EntryFold(lines, d).value) && ValidTable(EntryFold(lines, d).value))
  {
    if lines != [] {
      var init := lines[..|lines| - 1];
      forall i | 0 <= i < |init| && ParseEventLine(init[i]).Parsed?
        ensures ParseEventLine(init[i]).rec.kind in {0, 1, 2}
      {
        assert init[i] == lines[i];
      }
      EntriesAreExclusive(init, d);
      assert ParseEventLine(lines[|lines| - 1]).Parsed? ==> ParseEventLine(lines[|lines| - 1]).rec.kind in {0, 1, 2};
    }
  }

  /**
   * A dated line of another kind (3, say) is read by the holiday branch and
   * stored under the key `None` beside the slots already there: the entry is
   * then neither a holiday entry nor a plain slot table.
   */
  lemma OtherKindMixesEntry(d: Date, t: Time)
    requires ValidDate(d)
    ensures var slots := EntryAfter(None, Record(1, Some(1), d, d, Some(t)));
            var mixed := EntryAfter(slots, Record(3, None, d, d, None));
            && mixed.value.keys == [Some(1), None]
            && IsHoliday(mixed.value) && mixed != Some(HolidayTable)
  {
  }

  /**
   * Last writer wins: a slot line for a date that is not a holiday sets that
   * slot's (kind, time) and leaves every other key of the date, and its
   * position in the dict, as it was (processing.py:53-56).
   */
  lemma LastWriterWins(lines: seq<string>, line: string, d: Date)
    requires ParseEventLine(line).Parsed?
    requires ParseEventLine(line).rec.kind != 0 && Covers(ParseEventLine(line).rec, d)
    requires EntryFold(lines, d).None? || !IsHoliday(EntryFold(lines, d).value)
    ensures Lookup(Fold(lines + [line]).events, d).Some?
    ensures var r := ParseEventLine(line).rec;
            var before := if EntryFold(lines, d).Some? then EntryFold(lines, d).value else EmptyTable;
            var after := Lookup(Fold(lines + [line]).events, d).value;
            && after.cells == before.cells[r.slot := Cell(r.kind, r.time)]
            && (r.slot in before.cells ==> after.keys == before.keys)
            && (r.slot !in before.cells ==> after.keys == before.keys + [r.slot])
  {
    assert (lines + [line])[..|lines|] == lines;
    FoldAtDate(lines + [line], d);
  }

  // ---------------------------------------------------------------------
  // Compaction of the intake file
  // ---------------------------------------------------------------------

  predicate Parses(line: string) {
    ParseEventLine(line).Parsed?
  }

  /** The lines that parse, in file order. */
  function Survivors(lines: seq<string>): (r: seq<string>)
    ensures |r| <= |lines|
    ensures forall i :: 0 <= i < |r| ==> Parses(r[i])
  {
    if lines == [] then []
    else
      var init, last := lines[..|lines| - 1], lines[|lines| - 1];
      if Parses(last) then Survivors(init) + [last] else Survivors(init)
  }

  /** The lines that fail, in file order. */
  function Rejects(lines: seq<string>): (r: seq<string>)
    ensures |r| <= |lines|
    ensures forall i :: 0 <= i < |r| ==> !Parses(r[i])
  {
    if lines == [] then []
    else
      var init, last := lines[..|lines| - 1], lines[|lines| - 1];
      if Parses(last) then Rejects(init) else Rejects(init) + [last]
  }

  /** The rewritten file holds exactly the lines that parsed, in their order. */
  lemma {:induction false} CompactionKeepsParsedLines(lines: seq<string>)
    ensures Fold(lines).kept == Survivors(lines)
  {
    if lines != [] {
      var init, last := lines[..|lines| - 1], lines[|lines| - 1];
      CompactionKeepsParsedLines(init);
    }
  }

  /** The lines named in the log entries. */
  function LoggedLines(log: seq<LogEntry>): (r: seq<string>)
    ensures |r| == |log|
  {
    if log == [] then [] else LoggedLines(log[..|log| - 1]) + [log[|log| - 1].line]
  }

  /** The error log holds one entry per line that failed, in their order. */
  lemma {:induction false} LogNamesRejectedLines(lines: seq<string>)
    ensures LoggedLines(Fold(lines).log) == Rejects(lines)
  {
    if lines != [] {
      var init, last := lines[..|lines| - 1], lines[|lines| - 1];
      LogNamesRejectedLines(init);
      var log := Fold(lines).log;
      if !Parses(last) {
        assert log[..|log| - 1] == Fold(init).log;
      }
    }
  }

  /** Every line ends up either in the rewritten file or in the log. */
  lemma {:induction false} EveryLineAccountedFor(lines: seq<string>)
    ensures |Fold(lines).kept| + |Fold(lines).log| == |lines|
  {
    if lines != [] {
      EveryLineAccountedFor(lines[..|lines| - 1]);
    }
  }

  /**
   * Re-running on the compacted file builds the same map, logs nothing, and
   * writes the file back unchanged.
   */
  lemma {:induction false} CompactionIdempotent(lines: seq<string>)
    ensures Fold(Fold(lines).kept) == State(Fold(lines).events, Fold(lines).kept, [])
  {
    if lines != [] {
      var init, last := lines[..|lines| - 1], lines[|lines| - 1];
      CompactionIdempotent(init);
      var kept := Fold(init).kept;
      if Parses(last) {
        assert (kept + [last])[..|kept|] == kept;
      }
    }
  }

  /** A line whose range ends before it starts touches no date, yet is kept. */
  lemma EmptyRangeKept(s: State, line: string)
    requires Parses(line) && DateLess(ParseEventLine(line).rec.end, ParseEventLine(line).rec.start)
    ensures Step(s, line) == State(s.events, s.kept + [line], s.log)
  {
    var r := ParseEventLine(line).rec;
    OrdinalMonotone(r.end, r.start);
  }
}
