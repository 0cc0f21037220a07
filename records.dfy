/**
 * One intake line read as an exception record (`parse_event_line`, defined
 * identically in processing.py and test.py).
 *
 * Kinds 1 and 2 (mid- and end-semester slots) carry a slot, a start date and
 * optionally an end date and a base time; every other kind, 0 (holiday)
 * included, is read as a date with an optional end date.
 */
module EventRecords {
  import opened Basics
  import opened Text
  import opened Calendar

  /** What `parse_event_line` returns: (kind, slot, start, end, time). */
  datatype Record = Record(kind: int, slot: Option<int>, start: Date, end: Date, time: Option<Time>)

  /** Why `parse_event_line` raised. */
  datatype ParseError =
    | BadInteger    // `int(...)` raised ValueError
    | MissingField  // `parts[k]` raised IndexError
    | BadDate       // `strptime(..., '%d-%m-%Y')` raised ValueError
    | BadTime       // `strptime(..., '%H:%M:%S')` raised ValueError

  datatype ParseResult = Parsed(rec: Record) | Failed(reason: ParseError)

  predicate IsSlotKind(kind: int) {
    kind == 1 || kind == 2
  }

  /** The comma-separated fields of a stripped line. */
  function Fields(line: string): (parts: seq<string>)
    ensures |parts| >= 1
  {
    Split(Strip(line), ',')
  }

  /** A record as `parse_event_line` can return it. */
  predicate WellFormed(r: Record) {
    && ValidDate(r.start) && ValidDate(r.end)
    && (r.slot.Some? <==> IsSlotKind(r.kind))
    && (r.time.Some? ==> IsSlotKind(r.kind))
  }

  /**
   * `parse_event_line(line)`. With five or more fields a slot line is
   * (slot, start, end, time) and fields after the fifth are ignored; with
   * four, the fourth is tried as an end date and then as a time; with three,
   * the slot covers its start date only and has no time. Any other kind reads
   * field 1 as the start and field 2, when present, as the end date.
   */
  function ParseEventLine(line: string): (r: ParseResult)
    ensures r.Parsed? ==> WellFormed(r.rec)
    ensures r.Parsed? ==> ParseInt(Fields(line)[0]) == Some(r.rec.kind)
    ensures ParseInt(Fields(line)[0]) == None ==> r == Failed(BadInteger)
  {
    var parts := Fields(line);
    match ParseInt(parts[0])
    case None => Failed(BadInteger)
    case Some(kind) =>
      if IsSlotKind(kind) then
        if |parts| < 2 then Failed(MissingField)
        else match ParseInt(parts[1])
          case None => Failed(BadInteger)
          case Some(slot) =>
            if |parts| < 3 then Failed(MissingField)
            else match ParseDate(parts[2])
              case None => Failed(BadDate)
              case Some(start) =>
                if |parts| > 4 then
                  match ParseDate(parts[3])
                  case None => Failed(BadDate)
                  case Some(end) =>
                    match ParseTime(parts[4])
                    case None => Failed(BadTime)
                    case Some(t) => Parsed(Record(kind, Some(slot), start, end, Some(t)))
                else if |parts| > 3 then
                  match ParseDate(parts[3])
                  case Some(end) => Parsed(Record(kind, Some(slot), start, end, None))
                  case None =>
                    match ParseTime(parts[3])
                    case None => Failed(BadTime)
                    case Some(t) => Parsed(Record(kind, Some(slot), start, start, Some(t)))
                else Parsed(Record(kind, Some(slot), start, start, None))
      else
        if |parts| < 2 then Failed(MissingField)
        else match ParseDate(parts[1])
          case None => Failed(BadDate)
          case Some(start) =>
            if |parts| > 2 then
              match ParseDate(parts[2])
              case None => Failed(BadDate)
              case Some(end) => Parsed(Record(kind, None, start, end, None))
            else Parsed(Record(kind, None, start, start, None))
  }

  // ---------------------------------------------------------------------
  // The shapes of a well-formed line, as independent encodings
  // ---------------------------------------------------------------------

  /** The canonical intake line for a record: the shortest one it parses from. */
  function EncodeRecord(r: Record): (line: string)
    requires WellFormed(r)
  {
    Join(EncodeFields(r), ",")
  }

  function EncodeFields(r: Record): (parts: seq<string>)
    requires WellFormed(r)
    ensures |parts| >= 2
    ensures parts[0] == FormatInt(r.kind)
    ensures parts[|parts| - 1] == if r.time.Some? then FormatTime(r.time.value) else FormatDate(r.end)
    ensures forall i :: 0 <= i < |parts| ==> ',' !in parts[i]
  {
    if IsSlotKind(r.kind) then SlotFields(r) else DateFields(r)
  }

  /** `kind,slot,start[,end][,time]`, the end left out when it is the start. */
  function SlotFields(r: Record): (parts: seq<string>)
    requires WellFormed(r) && IsSlotKind(r.kind)
    ensures |parts| >= 3
    ensures parts[0] == FormatInt(r.kind)
    ensures parts[|parts| - 1] == if r.time.Some? then FormatTime(r.time.value) else FormatDate(r.end)
    ensures forall i :: 0 <= i < |parts| ==> ',' !in parts[i]
  {
    NoCommaInForms(r.start, 0, r.kind);
    NoCommaInForms(r.end, if r.time.Some? then r.time.value else 0, r.slot.value);
    var kind, slot, start, end := FormatInt(r.kind), FormatInt(r.slot.value), FormatDate(r.start), FormatDate(r.end);
    if r.time.Some? then
      var time := FormatTime(r.time.value);
      if r.start == r.end then [kind, slot, start, time] else [kind, slot, start, end, time]
    else if r.start == r.end then [kind, slot, start]
    else [kind, slot, start, end]
  }

  /** `kind,start[,end]`, the end left out when it is the start. */
  function DateFields(r: Record): (parts: seq<string>)
    requires WellFormed(r) && !IsSlotKind(r.kind)
    ensures |parts| >= 2
    ensures parts[0] == FormatInt(r.kind)
    ensures parts[|parts| - 1] == FormatDate(r.end)
    ensures forall i :: 0 <= i < |parts| ==> ',' !in parts[i]
  {
    NoCommaInForms(r.start, 0, r.kind);
    NoCommaInForms(r.end, 0, 0);
    var kind, start, end := FormatInt(r.kind), FormatDate(r.start), FormatDate(r.end);
    if r.start == r.end then [kind, start] else [kind, start, end]
  }

  lemma NoCommaInForms(d: Date, t: Time, i: int)
    requires ValidDate(d)
    ensures ',' !in FormatDate(d) && ',' !in FormatTime(t) && ',' !in FormatInt(i)
  {
  }

  lemma FormatDateEndsInDigit(d: Date)
    requires ValidDate(d)
    ensures IsDigit(FormatDate(d)[0]) && IsDigit(FormatDate(d)[9])
    ensures ',' !in FormatDate(d)
  {
    NoCommaInForms(d, 0, 0);
    assert FormatDate(d)[9] == Pad4(d.year)[3];
  }

  lemma FormatTimeEndsInDigit(t: Time)
    ensures IsDigit(FormatTime(t)[7]) && ',' !in FormatTime(t)
  {
    NoCommaInForms(Date(1, 1, 1), t, 0);
    assert FormatTime(t)[6..] == Pad2(t % 60);
  }

  /** The fields of a line made by joining comma-free fields with commas. */
  lemma {:induction false} FieldsOfJoin(parts: seq<string>)
    requires |parts| >= 1 && parts[0] != [] && parts[|parts| - 1] != []
    requires forall i :: 0 <= i < |parts| ==> ',' !in parts[i]
    requires !IsSpace(parts[0][0]) && !IsSpace(parts[|parts| - 1][|parts[|parts| - 1]| - 1])
    ensures Fields(Join(parts, ",")) == parts
  {
    var line := Join(parts, ",");
    JoinCons(parts, ",");
    assert line[0] == parts[0][0];
    JoinEndsWithLast(parts, ",");
    StripNoSpace(line);
    SplitJoin(parts, ',');
  }

  lemma {:induction false} JoinEndsWithLast(fields: seq<string>, sep: string)
    requires |fields| >= 1 && |fields[|fields| - 1]| >= 1
    ensures |Join(fields, sep)| >= |fields[|fields| - 1]|
    ensures Join(fields, sep)[|Join(fields, sep)| - 1] == fields[|fields| - 1][|fields[|fields| - 1]| - 1]
    decreases |fields|
  {
    if |fields| > 1 {
      JoinEndsWithLast(fields[1..], sep);
    }
  }

  /** The canonical line of a record splits back into its encoded fields. */
  lemma FieldsOfEncoded(r: Record)
    requires WellFormed(r)
    ensures Fields(EncodeRecord(r)) == EncodeFields(r)
  {
    EncodedEnds(r);
    FieldsOfJoin(EncodeFields(r));
  }

  /** The first and last encoded fields start and end in something other than a space. */
  lemma EncodedEnds(r: Record)
    requires WellFormed(r)
    ensures var parts := EncodeFields(r);
            && parts[0] != [] && !IsSpace(parts[0][0])
            && parts[|parts| - 1] != [] && !IsSpace(parts[|parts| - 1][|parts[|parts| - 1]| - 1])
  {
    var parts := EncodeFields(r);
    var kind := FormatInt(r.kind);
    assert IsDigit(kind[0]) || kind[0] == '-';
    if r.time.Some? {
      FormatTimeEndsInDigit(r.time.value);
    } else {
      FormatDateEndsInDigit(r.end);
    }
  }

  /**
   * Every well-formed record is read back from its canonical line: the field
   * shapes `k,slot,start`, `k,slot,start,end`, `k,slot,start,time`,
   * `k,slot,start,end,time`, `k,date` and `k,start,end` all parse as intended.
   */
  lemma ParseEncoded(r: Record)
    requires WellFormed(r)
    ensures ParseEventLine(EncodeRecord(r)) == Parsed(r)
  {
    FieldsOfEncoded(r);
    ParseFormatInt(r.kind);
    ParseFormatDate(r.start);
    if IsSlotKind(r.kind) {
      ParseEncodedSlot(r);
    } else if r.start != r.end {
      ParseFormatDate(r.end);
    }
  }

  lemma ParseEncodedSlot(r: Record)
    requires WellFormed(r) && IsSlotKind(r.kind)
    requires Fields(EncodeRecord(r)) == EncodeFields(r)
    requires ParseInt(FormatInt(r.kind)) == Some(r.kind)
    requires ParseDate(FormatDate(r.start)) == Some(r.start)
    ensures ParseEventLine(EncodeRecord(r)) == Parsed(r)
  {
    ParseFormatInt(r.slot.value);
    if r.time.Some? {
      ParseFormatTime(r.time.value);
      if r.start == r.end {
        DateAndTimeTextsDiffer(r.start, r.time.value);
      } else {
        ParseFormatDate(r.end);
      }
    } else if r.start != r.end {
      ParseFormatDate(r.end);
    }
  }

  // ---------------------------------------------------------------------
  // Where a line is rejected
  // ---------------------------------------------------------------------

  /**
   * A slot line of five or more fields reads as kind, slot, start, end and
   * time; any later fields are ignored.
   */
  lemma ParseFiveFields(line: string, kind: int, start: Date, end: Date, t: Time)
    requires |Fields(line)| >= 5 && ParseInt(Fields(line)[0]) == Some(kind) && IsSlotKind(kind)
    requires ParseInt(Fields(line)[1]).Some?
    requires ParseDate(Fields(line)[2]) == Some(start) && ParseDate(Fields(line)[3]) == Some(end)
    requires ParseTime(Fields(line)[4]) == Some(t)
    ensures ParseEventLine(line) == Parsed(Record(kind, ParseInt(Fields(line)[1]), start, end, Some(t)))
  {
  }

  /** A slot line whose slot field is not an integer is rejected for it. */
  lemma ParseBadSlot(line: string)
    requires |Fields(line)| >= 2 && ParseInt(Fields(line)[0]).Some? && IsSlotKind(ParseInt(Fields(line)[0]).value)
    requires ParseInt(Fields(line)[1]).None?
    ensures ParseEventLine(line) == Failed(BadInteger)
  {
  }

  /** A slot line whose fifth field is not a time is rejected, whatever follows. */
  lemma FifthFieldMustBeTime(line: string)
    requires |Fields(line)| > 4
    requires ParseInt(Fields(line)[0]).Some? && IsSlotKind(ParseInt(Fields(line)[0]).value)
    requires ParseTime(Fields(line)[4]) == None
    ensures ParseEventLine(line).Failed?
  {
  }

  /** A slot line with two dates whose fifth field is not a time is rejected for the time. */
  lemma ParseBadFifthTime(line: string)
    requires |Fields(line)| > 4
    requires ParseInt(Fields(line)[0]).Some? && IsSlotKind(ParseInt(Fields(line)[0]).value)
    requires ParseInt(Fields(line)[1]).Some? && ParseDate(Fields(line)[2]).Some? && ParseDate(Fields(line)[3]).Some?
    requires ParseTime(Fields(line)[4]) == None
    ensures ParseEventLine(line) == Failed(BadTime)
  {
  }

  /** A non-slot line needs a date in field 1; a lone kind is a missing field. */
  lemma HolidayNeedsDate(line: string)
    requires ParseInt(Fields(line)[0]).Some? && !IsSlotKind(ParseInt(Fields(line)[0]).value)
    ensures |Fields(line)| < 2 ==> ParseEventLine(line) == Failed(MissingField)
    ensures |Fields(line)| >= 2 && ParseDate(Fields(line)[1]) == None ==> ParseEventLine(line) == Failed(BadDate)
  {
  }

  /** The malformed slot `1,abc,20-03-2024` is rejected for its slot. */
  lemma NonIntegerSlotRejected()
    ensures ParseEventLine("1,abc,20-03-2024") == Failed(BadInteger)
  {
    BadSlotLineFields();
    BadSlotLineInts();
  }

  lemma BadSlotLineInts()
    ensures ParseInt("1") == Some(1) && ParseInt("abc") == None
  {
    StripNoSpace("1");
    StripNoSpace("abc");
    assert !IsDigit("abc"[0]);
  }

  lemma BadSlotLineFields()
    ensures Fields("1,abc,20-03-2024") == ["1", "abc", "20-03-2024"]
  {
    var parts := ["1", "abc", "20-03-2024"];
    assert Join(parts, ",") == "1,abc,20-03-2024" by {
      assert Join(parts[2..], ",") == "20-03-2024";
      assert Join(parts[1..], ",") == "abc,20-03-2024";
    }
    FieldsOfJoin(parts);
  }
}
