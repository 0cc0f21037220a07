# Exam-bell calendar pipeline, modelled in Dafny

The bell server rings a relay-driven school bell on a weekly timetable. Its
calendar exceptions pass through three programs:

- **Intake.** The web front end (`app.py`) turns a JSON submission into one
  line of an intake file (`format_data`). The schedule endpoint checks its
  own JSON and computes a delay (`handle_schedule`).
- **Normaliser.** `processing.py` reads the intake file with
  `parse_event_line`. It folds the records into a dictionary from date to a
  per-date slot table (`read_and_process_events`). It rewrites the intake
  file with the lines that parsed and logs the rest. It then writes a
  snapshot (`write_latest_events`) and a CSV report (`write_to_csv`).
  `test.py` is a polling variant of the same normaliser, with numbered error
  logs and a broken report.
- **Bell.** The bell (`bell.py`) loads the snapshot into its own dictionary
  (`process_latest_events`). Once a second it decides what to ring: an
  immediate ring, the weekly timetable, and the exam slots of the day, with
  each slot's offsets from `calculate_bell_times`.

The project models each step in the form the source takes:

- The parsers, the folds and the report are specification functions.
- Each loop of the source is a method with invariants, proved equal to the
  matching function:
  - the fold over lines and over dates;
  - the snapshot and CSV writers;
  - the bell's loader, with its range loop;
  - the per-slot loop of the tick.
- Lemmas then state what the source promises:
  - holiday wins in either order;
  - last writer wins;
  - compaction keeps exactly the parsed lines and is idempotent;
  - canonical lines round-trip through the parser;
  - the snapshot lists dates and slots in ascending order;
  - the bell's ring decision for each slot.
- Cross-program lemmas (module `Pipeline`) follow intake lines into the
  normaliser and snapshot lines into the bell.

These cross-program lemmas bring out some consequences:

- A mode-2 submission with three or more dates is dropped by the normaliser.
  The third date is read as a time.
- A mode-2 submission with two dates becomes a date range, not two days.
  Mode 2 sorts its dates as strings, so the range can run backwards and
  cover no day.
- An untimed snapshot slot line would be rejected if it were fed back to the
  normaliser.
- A dated kind-3 line becomes a snapshot line that makes every tick ring
  immediately.
- The bell rings the weekly timetable even on a date the snapshot marks as a
  holiday.
- The CSV report prints offset times that the bell never rings.
- test.py's report calls a `calculate_bell_times` it never defines, so it stops with a `NameError` at the first timed Midsem or Endsem slot.

Files:

| file | module | what it holds |
|---|---|---|
| `text.dfy` | `Basics`, `Text` | `Option`; `strip`, `split`, `join`, `int()` and `str()` of integers |
| `calendar.dfy` | `Calendar` | dates and times, ordinals, weekday, `strptime`/`strftime` for the fixed formats, date ranges |
| `ordering.dfy` | `Ordering` | `sorted` on dates and slot numbers |
| `records.dfy` | `EventRecords` | `parse_event_line` and the canonical line of a record |
| `normaliser.dfy` | `Normaliser` | `read_and_process_events` of processing.py |
| `monitor.dfy` | `MonitorVariant` | `read_and_process_events` of test.py |
| `writers.dfy` | `Writers` | `write_latest_events`, `write_to_csv` of both programs |
| `bell.dfy` | `BellEvents` | `process_latest_events` |
| `bell_tick.dfy` | `BellTick` | offsets, `calculate_bell_times`, one pass of `main_loop` |
| `intake.dfy` | `Intake` | the JSON document, `format_data`, `handle_schedule` |
| `pipeline.dfy` | `Pipeline` | properties across the three programs |

Modelling decisions:

- **Records and dates.** A parsed record is `Record(kind, slot, start, end,
  time)`. A date is `Date(day, month, year)`, valid between years 1 and 9999
  like `datetime.date`. A time is a second of the day.
- **Exceptions.** An exception that the source catches, or that ends its
  computation, is a value: `ParseResult.Failed`, `Outcome.Raised`,
  `TickEnd.Crashed`, `Formatted.Raises`.
- **Dictionary order.** Python dicts keep insertion order. Where order is
  observable, the model keeps the key order beside the map (`DayTable`,
  `Entry.Slots`). Examples are the CSV report's slot order and the bell's
  slot loop.
- **Duplicate JSON keys.** A JSON object is the member list as written.
  `Get` returns the last value for a key, and `KeysOf` lists each key at its
  first occurrence, as `json.loads` builds the dict.
- **Time and I/O.** The clock, the weekday and the file contents are
  parameters. A bell pass returns the list of rings it made and how it ended.

## Model

| member | source | states |
|---|---|---|
| Text.Split | processing.py:8 | `str.split(',')` gives at least one field, no field holds the separator, and joining the fields gives back the text |
| Text.SplitJoin | processing.py:8 | splitting a comma-joined list of comma-free fields gives the fields back |
| Text.ParseFormatInt | bell.py:41 | `int(str(i)) == i`: every integer the snapshot writer prints is read back by the bell |
| Text.NatToString | processing.py:87 | decimal text of a natural number: digits only, the right value, no leading zero |
| Calendar.OrdinalMonotone | processing.py:48 | the day count `toordinal` follows the tuple order of dates in both directions |
| Calendar.OrdinalInjective | processing.py:48 | two valid dates with the same day count are the same date |
| Calendar.NextDay | bell.py:57 | `d + timedelta(days=1)` below `date.max` is a valid later date, one day count further |
| Calendar.DateRange | processing.py:48 | the generator `start + timedelta(n)` for `n` up to `(end - start).days` has that many dates, each `n` days after the start; none when the end precedes the start |
| Calendar.RangeMembership | processing.py:48 | a date is in the range exactly when it is valid and lies between start and end inclusive |
| Calendar.RangeAscending | processing.py:48 | the dates of a range strictly ascend |
| Calendar.ParseFormatDate | processing.py:13 | `strptime(strftime(d, '%d-%m-%Y'), '%d-%m-%Y') == d` for every valid date |
| Calendar.FormatParseDate | bell.py:51-55 | a text that parses as a date is its own `strftime` |
| Calendar.ParseFormatTime | processing.py:17 | `%H:%M:%S` text of a time parses back to that time |
| Calendar.FormatTimeInjective | bell.py:152 | different seconds of the day print differently |
| Calendar.LaterDistinct | bell.py:94 | two different offsets under a day, added to the same base, land on different clock times |
| Calendar.DateAndTimeTextsDiffer | processing.py:19-24 | a written time never reads as a date, and a written date never reads as a time |
| Calendar.NoTextIsDateAndTime | processing.py:19-24 | no text at all reads both as a `%d-%m-%Y` date and as a `%H:%M:%S` time |
| Ordering.SortedDates | processing.py:79 | `sorted(keys)` on dates: the same dates, strictly ascending |
| Ordering.SortedDatesFirst | processing.py:79 | the sorted list starts with the least date and continues with the rest sorted |
| Ordering.VisitNext | processing.py:79 | taking the least remaining date next keeps a visit in sorted order |
| Ordering.SortInts | processing.py:85 | `sorted` on slot numbers keeps the same multiset |
| Ordering.SortIntsAscending | processing.py:85 | sorting distinct slot numbers gives a strictly ascending list |
| EventRecords.ParseEventLine | processing.py:7-34 | a parsed record is well formed and its kind is the integer of field 0; a field 0 that is not an integer fails with the integer error |
| EventRecords.ParseEncoded | processing.py:7-34 | every well-formed record is read back from its canonical line, in all six field shapes |
| EventRecords.FieldsOfEncoded | processing.py:8 | the canonical line of a record splits back into its encoded fields |
| EventRecords.ParseFiveFields | processing.py:15-17 | a slot line of five or more fields reads as kind, slot, start, end and time, later fields ignored |
| EventRecords.ParseBadSlot | processing.py:12 | a slot line whose slot is not an integer fails on the integer |
| EventRecords.FifthFieldMustBeTime | processing.py:17 | a slot line with a fifth field that is not a time fails |
| EventRecords.ParseBadFifthTime | processing.py:15-17 | with two dates in place, a bad fifth field fails on the time |
| EventRecords.HolidayNeedsDate | processing.py:31-33 | a non-slot line without field 1 fails as a missing field, with a non-date field 1 as a bad date |
| EventRecords.NonIntegerSlotRejected | processing.py:12 | the line `1,abc,20-03-2024` fails on its slot |
| Normaliser.Put | processing.py:56 | `table[k] = c` keeps the table well formed, sets `k`, keeps the key order when `k` was present and appends `k` last when it was not |
| Normaliser.ReadAndProcessEvents | processing.py:36-73 | the map, the rewritten file and the log are those of the fold over the lines; an unreadable file gives an empty map, no rewrite and no log |
| Normaliser.ApplyRecordDates | processing.py:48-56 | the inner loop applies a record to every date of its range |
| Normaliser.ApplyOneDate | processing.py:49-56 | one date: a holiday replaces the table; other kinds are skipped on a holiday and otherwise write their slot |
| Normaliser.ApplyRecordLookup | processing.py:48-56 | applying a record changes exactly the dates it covers, each by the one-date rule |
| Normaliser.FoldAtDate | processing.py:45-57 | the fold's map agrees at every date with a per-date reference fold that never builds the map |
| Normaliser.FoldValid | processing.py:45-57 | the fold stores only valid dates and well-formed tables |
| Normaliser.HolidayAbsorbs | processing.py:53 | no record changes a date that holds exactly the holiday table |
| Normaliser.HolidayWins | processing.py:49-56 | any holiday line covering a date leaves it as exactly `{None: (0, None)}`, whatever the order of the lines |
| Normaliser.NoHolidayWithoutHolidayLine | processing.py:49-56 | with only kind-1 and kind-2 lines, no date becomes a holiday |
| Normaliser.EntriesAreExclusive | processing.py:49-56 | with kinds 0-2, every date's table is the holiday table or a slot table without `None` |
| Normaliser.OtherKindMixesEntry | processing.py:31-34 | a dated kind-3 line goes under the key `None` beside existing slots |
| Normaliser.LastWriterWins | processing.py:53-56 | a slot line on a date that is not a holiday sets its slot's cell and keeps the other keys; an existing slot keeps its place and a new slot goes last |
| Normaliser.Survivors | processing.py:57 | the kept lines all parse and are no more than the input |
| Normaliser.CompactionKeepsParsedLines | processing.py:57-68 | the rewritten file holds exactly the lines that parsed, in file order |
| Normaliser.LogNamesRejectedLines | processing.py:58-64 | the log names exactly the lines that failed, in file order |
| Normaliser.EveryLineAccountedFor | processing.py:45-64 | every line is kept or logged, never both |
| Normaliser.CompactionIdempotent | processing.py:66-68 | re-running on the rewritten file builds the same map, logs nothing and rewrites it unchanged |
| Normaliser.EmptyRangeKept | processing.py:48 | a line whose end precedes its start touches no date yet is kept |
| MonitorVariant.MonitorReadAndProcess | test.py:35-58 | the map is the processing.py fold's; the log is one numbered entry per failing line, then the read error if reading failed |
| MonitorVariant.NumberedEntriesNameFailingLines | test.py:50-52 | each log entry carries the 1-based number, stripped text and reason of a failing line |
| MonitorVariant.FailingLinesAreLogged | test.py:50-52 | every failing line is logged under its own number |
| MonitorVariant.NumberedLogCount | test.py:50-53 | the numbered log has as many entries as processing.py's log |
| MonitorVariant.NumbersAscend | test.py:39 | log line numbers lie within the file and strictly increase |
| Writers.SlotNumbers | processing.py:85 | the integer keys of a table are exactly its slot numbers |
| Writers.Written | processing.py:86 | the slots written are exactly those holding kind 1 or 2 |
| Writers.WriteLatestEvents | processing.py:76-89 | the snapshot is every date in ascending order, each with its lines |
| Writers.WriteDate | processing.py:80-87 | one date's lines: the holiday line, or one line per kind-1/2 slot in ascending slot order |
| Writers.WrittenSlotsAscending | processing.py:85-87 | a date's slot lines are for exactly its kind-1/2 slots, ascending, each once |
| Writers.HolidayLineReparses | processing.py:83 | the normaliser reads a holiday snapshot line back as a one-day record of its kind |
| Writers.TimedSlotLineReparses | processing.py:87 | the normaliser reads a timed slot line back as a one-day timed record |
| Writers.UntimedSlotLineRejected | processing.py:87 | an untimed slot line ends in an empty field, which the normaliser rejects as a bad time |
| Writers.ReportTimings | processing.py:110-115 | the base time, then each base-plus-offset as `%H:%M:%S`, wrapping past midnight |
| Writers.WriteToCsv | processing.py:94-118 | the rows are the report over the dates in ascending order, up to the first exception |
| Writers.ReportDate | processing.py:103-116 | one date's rows: the holiday row, or a row per timed kind-1/2 slot in insertion order, stopping at an overflow |
| Writers.OverflowsAtLast | processing.py:100-101 | the report offsets ascend, so a date overflows exactly when its last offset does |
| Writers.DatesReportRaised | processing.py:117 | after an exception, later dates add no rows |
| Writers.PollingReportOnlyHolidays | test.py:75-99 | test.py's report holds its header and holiday rows only |
| Writers.ReportCompleteBeforeMaxDate | processing.py:103-116 | before 31-12-9999 the report never stops early, and each holiday date adds at least its row |
| Writers.SlotsReportRows | processing.py:107-116 | before 31-12-9999 the slots of a date add exactly one Midsem or Endsem row per timed kind-1/2 slot, in insertion order, and raise nothing |
| Writers.DateReportRows | processing.py:103-116 | before 31-12-9999 a date adds exactly its holiday row or its timed slot rows |
| Writers.ReportRowsBeforeMaxDate | processing.py:98-116 | before 31-12-9999 the report is the header followed, date by date, by each date's holiday row or timed slot rows |
| Writers.LastDayOverflowStopsReport | processing.py:110-117 | a Midsem slot at 23:00 on 31-12-9999 overflows and ends the report |
| BellEvents.ProcessLatestEvents | bell.py:31-76 | the loader's result is the line-by-line fold, stopping at the first exception |
| BellEvents.ExpandHolidayRange | bell.py:53-57 | every date from start to end becomes a holiday; a range reaching 31-12-9999 raises `OverflowError` |
| BellEvents.ReadHolidayLine | bell.py:43-61 | the holiday branch: a single date as written, a parsed range, or nothing |
| BellEvents.ReadSlotLine | bell.py:62-71 | the slot branch: missing fields and a bad slot raise; otherwise the slot goes under the date text unless that date is a holiday |
| BellEvents.LoadSnapshot | bell.py:31-76 | a loaded snapshot is well formed |
| BellEvents.RaisedStays | bell.py:37-41 | once a prefix raises, the whole file raises the same exception |
| BellEvents.ApplyMarksHoliday | bell.py:43-57 | a line that marks a date makes it a holiday |
| BellEvents.ApplyKeepsHoliday | bell.py:68 | no line that loads turns a holiday back into slot data |
| BellEvents.HolidayStays | bell.py:43-71 | a date marked by any line is a holiday in the loaded snapshot, whatever the order |
| BellEvents.UncheckedHolidayText | bell.py:44-47 | the single-day form stores its date text unchecked |
| BellEvents.ApplyLineCell | bell.py:62-71 | one line's effect on one (date, slot) pair when the line does not make that date a holiday |
| BellEvents.LastWriterWins | bell.py:62-71 | on a date no line marks, each slot holds the cell of the last line that wrote it |
| BellEvents.ImmediateFromLastLine | bell.py:72-74 | the immediate flag is set exactly when some kind-3 line loads, and the last one's field is kept |
| BellTick.CalculateBellTimes | bell.py:92-94 | computed times exist exactly when the base parses, one per offset |
| BellTick.RingsIffOffsetMatches | bell.py:149-153 | a time is among the computed times exactly when some offset lands on it |
| BellTick.BellTimesDistinct | bell.py:79-94 | distinct offsets give distinct times |
| BellTick.ShiftedTimeReadsBack | bell.py:94 | each computed time reads back as base plus offset modulo a day |
| BellTick.BellTimesAscendWithoutWrap | bell.py:94 | without a wrap past midnight, the computed times ascend |
| BellTick.LateSlotsWrap | bell.py:94 | a Midsem slot from 21:55 wraps, so its fourth time is earlier than its first |
| BellTick.RingSlots | bell.py:133-153 | the slot loop over a date's slots in insertion order, stopping at an exception |
| BellTick.RingSlot | bell.py:137-153 | one slot: untimed or unknown kinds are skipped, a bad time raises, otherwise it rings when the second matches |
| BellTick.Decide | bell.py:111-153 | the pass on a loaded snapshot: the immediate ring, the timetable unless the date has exam data, the Sunday rest, then the slots |
| BellTick.Tick | bell.py:101-153 | one pass: a snapshot that fails to load ends the pass before any ring |
| BellTick.SlotRingsAtMostOnce | bell.py:136-153 | a slot adds at most one ring, for its own number |
| BellTick.UntimedSlotSilent | bell.py:137 | an untimed or empty-time slot, or one of another kind, never rings |
| BellTick.SlotRingsIff | bell.py:137-153 | a timed exam slot rings exactly when its number is 1-3 and an offset of its kind lands on the current second |
| BellTick.BadSlotTimeCrashes | bell.py:93 | a slot time that does not parse ends the pass |
| BellTick.SlotsRingsExtend | bell.py:136-153 | the slot loop only appends exam rings for listed slots numbered 1-3 |
| BellTick.ImmediateRingFirst | bell.py:111-113 | when the flag is set, the immediate ring comes first in every pass; otherwise it never occurs |
| BellTick.ExamDaySilencesTimetable | bell.py:115-131 | on a date with kind-1/2 data the weekly timetable is not consulted |
| BellTick.ExamRingsNameKnownSlots | bell.py:133-153 | every exam ring names a slot 1-3 listed for today |
| BellTick.HolidayStillRingsWeekly | bell.py:120-131 | a holiday marker does not stop the timetable: the pass is the same as on an ordinary day |
| BellTick.OverlappingSlotsRingTwice | bell.py:136-153 | two slots at the same time ring twice in the same second |
| Intake.Get | app.py:27 | `d.get(key)` is defined exactly when the key is present |
| Intake.KeysOf | app.py:68 | `list(d.keys())`: each key once, exactly the keys present |
| Intake.Reformat | app.py:77-78 | a `DD/MM/YY` text reformatted to `DD-MM-YYYY` names the same day |
| Intake.SortStrings | app.py:81 | `sorted` on strings keeps the same multiset |
| Intake.SortStringsAscending | app.py:81 | `sorted` on strings gives an ascending permutation |
| Intake.SortIsNotChronological | app.py:81 | 15-06-2024 precedes 02-01-2025 as a date but sorts after it as text |
| Intake.ReformatAll | app.py:75-78 | all mode-2 dates are reformatted exactly when every one reads as `DD/MM/YY`, and each names its submitted day |
| Intake.ReformatDates | app.py:75-78 | the loop builds the reformatted list, stopping at the first bad date |
| Intake.FormatData | app.py:25-87 | the method returns the line, `None` or the exception of the branch `Decode` selects |
| Intake.NoLineIffUnrecognised | app.py:26-87 | `None` comes back exactly for a document of no recognised shape |
| Intake.OtherModesNoLine | app.py:26-87 | a mode other than the strings '0', '1', '2' gives no line |
| Intake.SingleHolidayFirst | app.py:30-34 | mode '0' with "date" is a single holiday, whatever range keys exist; a bad date raises |
| Intake.HolidayRangeUnchecked | app.py:37-44 | a mode-0 range emits both dates as given, unordered |
| Intake.ExamRangeCopiesSlot | app.py:47-58 | mode 1 writes the slot as `str` prints it |
| Intake.RenderJoinsFields | app.py:34-84 | every line is its fields joined by commas, except mode 2 with no dates |
| Intake.ExamDaysSorted | app.py:67-81 | mode-2 dates are the reformatted items, sorted as strings |
| Intake.ExamDaysNameSubmittedDays | app.py:67-81 | every mode-2 date text names a submitted day |
| Intake.NonContainerDatesNoLine | app.py:71-72 | mode-2 dates that are neither list nor object give no line |
| Intake.BadExamDayRaises | app.py:76-77 | one mode-2 date that is not `DD/MM/YY` raises |
| Intake.ShortYearWindow | app.py:77 | two-digit years read as 1969-2068 |
| Intake.ScheduleDelay | app.py:184-199 | a scheduled delay is a whole number of minutes, from a one-key object |
| Intake.ScheduleMinutes | app.py:184-188 | `{"k": n}` schedules a ring `60 * n` seconds later, negative `n` included |
| Intake.ScheduleTrueIsOneMinute | app.py:184 | `{"k": true}` counts as one minute |
| Intake.ScheduleNeedsOneKey | app.py:184-199 | two distinct keys are rejected |
| Intake.ScheduleNeedsInt | app.py:184-199 | a value that is not an int is rejected |
| Intake.ScheduleRepeatedKey | app.py:184 | a repeated key counts once, with its last value |
| Pipeline.SingleHolidayReparses | app.py:34 | a mode-0 single line reads back as a one-day holiday |
| Pipeline.HolidayRangeReparses | app.py:44 | a mode-0 range reads back with the dates as submitted, empty when reversed |
| Pipeline.ExamRangeReparses | app.py:58 | a mode-1 line reads back as a timed exam range when the slot is an integer, and fails on the slot otherwise |
| Pipeline.ExamDaysReparse | app.py:84 | mode-2 lines: no date or 3+ dates fail; one date is an exam day; two dates become a range between them |
| Pipeline.ModeTwoMisread | app.py:60-84 | the same for the line `format_data` returns for a mode-2 document |
| Pipeline.ExamPairOutOfOrder | app.py:81 | 15-06-2024 and 02-01-2025 become a reversed range covering no day |
| Pipeline.BellReadsHolidayLine | processing.py:83 | the bell reads a snapshot holiday line as a holiday on that date text |
| Pipeline.HolidaySnapshotStillRings | bell.py:120-131 | the bell still rings its timetable on a snapshot holiday |
| Pipeline.BellReadsSlotLine | processing.py:87 | the bell stores a snapshot slot line under its date text, with the time text as written |
| Pipeline.UntimedSnapshotSlotSilent | processing.py:87 | an untimed snapshot slot never rings and never crashes the tick |
| Pipeline.TimedSnapshotSlotRings | processing.py:87 | a timed snapshot slot rings when an offset of its kind lands, for slots 1-3 |
| Pipeline.DatedKindThreeRingsEveryTick | processing.py:81-83 | a dated kind-3 snapshot line makes every tick start with a ring |
| Pipeline.ReportTimesAreNotRingTimes | processing.py:100-101 | the report's last Midsem and Endsem times are never rung; its second time is the bell's third |

## Left out

- Only the fixed formats of `strptime` are modelled, on zero-padded text: `%d-%m-%Y`, `%d/%m/%Y`, `%d/%m/%y` and `%H:%M:%S`. Python also accepts unpadded fields, such as `1-3-2024`; the model treats them as errors.
- `int()` is modelled on ASCII text only: whitespace, an optional sign and digits. Underscores, Unicode digits and Unicode whitespace are not modelled.
- `strip` removes only ASCII whitespace; Unicode whitespace is not modelled.
- `strftime('%Y')` for years below 1000 is platform dependent; the model always prints four digits.
- `%A` and the locale: the weekday is computed from the date, with English day names assumed.
- Intake.Repr: nested lists and objects are rendered recursively as Python's `repr` does, but strings and keys are quoted with `'` and no escaping, and an object with a repeated key prints every member rather than the last one. JSON numbers are integers; floats are left out.
- CSV quoting by `csv.writer` is left out: rows are lists of fields.
- The catch-all `print` of each writer's `except` is left out.
- File I/O is left out: the files are values (lines read, lines written, log entries) and the log's exact text is not modelled. Also left out: GPIO output, the one-second and sixty-second sleeps, the thread started by `handle_schedule`, and the Flask routes.
- `datetime.now()` is a parameter: the date, weekday and second of one pass are inputs.
- `ring_bell` is a `Ring` entry appended to the pass's list.
- BellTick.RingSlot: the `event_type == 0` branch of the slot loop is left out. The loaded snapshot never holds a kind-0 cell.
- BellTick.Tick: `specific_time_event` is read but never used by the tick, so it is left out.
- Intake.ScheduleDelay: a negative delay is returned as it is. The `time.sleep` ValueError inside the thread is not modelled.
- `guess.py`, `CLEAR_FILES.py` and the routes of `app.py` other than `format_data`'s callers and `handle_schedule` are not part of this model.
