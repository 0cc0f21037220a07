/**
 * The polling variant of the normaliser in test.py. Its `parse_event_line`
 * is the same function as processing.py's (`EventRecords.ParseEventLine`),
 * and its fold applies records to dates by the same rules, so the map it
 * builds is `Normaliser.Fold(...).events`. It differs in what it does with
 * the lines: the intake file is never rewritten, each failing line is logged
 * with its 1-based number and stripped text, and a read error part-way
 * through is logged and ends the fold with what has been built so far.
 */
module MonitorVariant {
  import opened Basics
  import opened Text
  import opened Calendar
  import opened EventRecords
  import opened Normaliser

  /** The lines read before the file ran out, and whether reading then failed. */
  datatype ReadOutcome = ReadOutcome(lines: seq<string>, failed: bool)

  /** One line appended to the error log. */
  datatype MonitorLog =
    | LineError(number: nat, reason: ParseError, text: string)  // `Error parsing line {n}: {e} | Line: '{text}'`
    | ReadError                                                 // `Error reading file {path}: {e}`

  /** The numbered error entries for `lines`, the first line being number `first`. */
  function NumberedLog(lines: seq<string>, first: nat): seq<MonitorLog> {
    if lines == [] then []
    else
      var init := NumberedLog(lines[..|lines| - 1], first);
      var last := lines[|lines| - 1];
      match ParseEventLine(last)
      case Parsed(_) => init
      case Failed(e) => init + [LineError(first + |lines| - 1, e, Strip(last))]
  }

  /**
   * `read_and_process_events` of test.py. Nothing is returned for the
   * intake file: the variant never writes it.
   */
  method MonitorReadAndProcess(input: ReadOutcome) returns (events: Events, log: seq<MonitorLog>)
    ensures events == Fold(input.lines).events
    ensures log == NumberedLog(input.lines, 1) + (if input.failed then [ReadError] else [])
  {
    events, log := map[], [];
    var lines := input.lines;
    ghost var kept: seq<string> := [];
    ghost var plain: seq<LogEntry> := [];
    for i := 0 to |lines|
      invariant Fold(lines[..i]) == State(events, kept, plain)
      invariant log == NumberedLog(lines[..i], 1)
    {
      var line := lines[i];
      FoldNext(lines, i);
      NumberedLogNext(lines, i);
      match ParseEventLine(line)
      case Failed(e) =>
        log := log + [LineError(i + 1, e, Strip(line))];
        plain := plain + [LogEntry(line, e)];
      case Parsed(rec) =>
        events := ApplyRecordDates(events, rec);
        kept := kept + [line];
    }
    assert lines[..|lines|] == lines;
    if input.failed {
      log := log + [ReadError];
    }
  }

  lemma NumberedLogNext(lines: seq<string>, i: int)
    requires 0 <= i < |lines|
    ensures NumberedLog(lines[..i + 1], 1)
            == NumberedLog(lines[..i], 1)
               + match ParseEventLine(lines[i])
                 case Parsed(_) => []
                 case Failed(e) => [LineError(i + 1, e, Strip(lines[i]))]
  {
    assert lines[..i + 1][..i] == lines[..i];
  }

  /**
   * Every numbered entry names a line that fails to parse, by its 1-based
   * number, with that line's stripped text and the reason it failed.
   */
  lemma {:induction false} NumberedEntriesNameFailingLines(lines: seq<string>, k: int)
    requires 0 <= k < |NumberedLog(lines, 1)|
    ensures var entry := NumberedLog(lines, 1)[k];
            && entry.LineError? && 1 <= entry.number <= |lines|
            && ParseEventLine(lines[entry.number - 1]) == Failed(entry.reason)
            && entry.text == Strip(lines[entry.number - 1])
  {
    var init, last := lines[..|lines| - 1], lines[|lines| - 1];
    var log := NumberedLog(lines, 1);
    if k < |NumberedLog(init, 1)| {
      assert log[k] == NumberedLog(init, 1)[k];
      NumberedEntriesNameFailingLines(init, k);
      var n := log[k].number;
      assert init[n - 1] == lines[n - 1];
    } else {
      assert log[k] == LineError(|lines|, ParseEventLine(last).reason, Strip(last));
    }
  }

  /** Every failing line is logged, once, under its own number. */
  lemma {:induction false} FailingLinesAreLogged(lines: seq<string>, i: int)
    requires 0 <= i < |lines| && ParseEventLine(lines[i]).Failed?
    ensures LineError(i + 1, ParseEventLine(lines[i]).reason, Strip(lines[i])) in NumberedLog(lines, 1)
  {
    var init := lines[..|lines| - 1];
    if i < |lines| - 1 {
      assert init[i] == lines[i];
      FailingLinesAreLogged(init, i);
    }
  }

  /** The log has one numbered entry per failing line, the same count processing.py logs. */
  lemma {:induction false} NumberedLogCount(lines: seq<string>, first: nat)
    ensures |NumberedLog(lines, first)| == |Fold(lines).log|
  {
    if lines != [] {
      NumberedLogCount(lines[..|lines| - 1], first);
    }
  }

  /** The line numbers in the log strictly increase. */
  lemma {:induction false} NumbersAscend(lines: seq<string>, first: nat)
    ensures forall k :: 0 <= k < |NumberedLog(lines, first)| ==>
      NumberedLog(lines, first)[k].LineError? && first <= NumberedLog(lines, first)[k].number < first + |lines|
    ensures forall j, k :: 0 <= j < k < |NumberedLog(lines, first)| ==>
      NumberedLog(lines, first)[j].number < NumberedLog(lines, first)[k].number
  {
    if lines != [] {
      NumbersAscend(lines[..|lines| - 1], first);
    }
  }
}
