/**
 * The web intake of app.py: `format_data` turns a submitted JSON document
 * into one comma-separated intake line (or `None`, or an uncaught
 * exception), and `handle_schedule` turns a one-entry document into a
 * delay in seconds before a one-off ring.
 *
 * Dates arrive as `DD/MM/YYYY` (modes 0 and 1) or `DD/MM/YY` (mode 2) and
 * leave as `DD-MM-YYYY`; times arrive and leave as `HH:MM:SS`.
 */
module Intake {
  import opened Basics
  import opened Text
  import opened Calendar

  // ---------------------------------------------------------------------
  // Decoded JSON and the Python operations on it
  // ---------------------------------------------------------------------

  /**
   * A document as `request.json` decodes it. Numbers are integers. An object
   * lists its members in the order they appear in the text, duplicates
   * included; `KeysOf` and `Get` give the dictionary Python builds from it.
   */
  datatype Json =
    | JNull
    | JBool(b: bool)
    | JNum(n: int)
    | JStr(s: string)
    | JList(items: seq<Json>)
    | JObject(members: seq<Member>)

  datatype Member = Member(key: string, value: Json)

  /** `key in d`. */
  predicate HasKey(members: seq<Member>, key: string) {
    exists i :: 0 <= i < |members| && members[i].key == key
  }

  /** A key is in a member list exactly when it is in all but the last member, or is the last one's. */
  lemma HasKeySplit(members: seq<Member>, key: string)
    requires members != []
    ensures HasKey(members, key)
        <==> HasKey(members[..|members| - 1], key) || members[|members| - 1].key == key
  {
    var init := members[..|members| - 1];
    if HasKey(members, key) && members[|members| - 1].key != key {
      var i :| 0 <= i < |members| && members[i].key == key;
      assert init[i] == members[i];
    }
    if HasKey(init, key) {
      var i :| 0 <= i < |init| && init[i].key == key;
      assert members[i] == init[i];
    }
  }

  /** `d.get(key)`: a repeated key keeps the value read last. */
  function Get(members: seq<Member>, key: string): (r: Option<Json>)
    ensures r.Some? <==> HasKey(members, key)
  {
    if members == [] then None
    else
      var init, last := members[..|members| - 1], members[|members| - 1];
      if last.key == key then Some(last.value)
      else
        HasKeySplit(members, key);
        Get(init, key)
  }

  /** `list(d.keys())`: each key once, in the order of its first appearance. */
  function KeysOf(members: seq<Member>): (ks: seq<string>)
    ensures forall i, j :: 0 <= i < j < |ks| ==> ks[i] != ks[j]
    ensures forall k :: k in ks <==> HasKey(members, k)
  {
    if members == [] then []
    else
      var init, last := members[..|members| - 1], members[|members| - 1];
      var ks := KeysOf(init);
      assert forall k :: HasKey(members, k) <==> HasKey(init, k) || k == last.key by {
        forall k {
          HasKeySplit(members, k);
        }
      }
      if last.key in ks then ks else ks + [last.key]
  }

  /** `repr(j)`; a string is quoted, without escaping. */
  function Repr(j: Json): string
    decreases j
  {
    match j
    case JNull => "None"
    case JBool(b) => if b then "True" else "False"
    case JNum(n) => FormatInt(n)
    case JStr(s) => "'" + s + "'"
    case JList(items) =>
      "[" + Join(seq(|items|, i requires 0 <= i < |items| => Repr(items[i])), ", ") + "]"
    case JObject(members) =>
      "{" + Join(seq(|members|, i requires 0 <= i < |members| =>
                     "'" + members[i].key + "': " + Repr(members[i].value)), ", ") + "}"
  }

  /** `f"{j}"`, that is `str(j)`: a string as it is, anything else as its `repr`. */
  function PyStr(j: Json): string {
    if j.JStr? then j.s else Repr(j)
  }

  /** `datetime.strptime(j, "%d/%m/%Y")`; `None` stands for the exception raised. */
  function LongDate(j: Json): (r: Option<Date>)
    ensures r.Some? ==> ValidDate(r.value)
  {
    if j.JStr? then ParseDateWith(j.s, '/') else None
  }

  /** `datetime.strptime(j, "%H:%M:%S")`; `None` stands for the exception raised. */
  function TimeOf(j: Json): Option<Time> {
    if j.JStr? then ParseTime(j.s) else None
  }

  /** `j` reads as a date under `"%d/%m/%y"`. */
  predicate IsShortDate(j: Json) {
    j.JStr? && ParseShortYearDate(j.s).Some?
  }

  /** `strptime(j, "%d/%m/%y").strftime("%d-%m-%Y")`. */
  function Reformat(j: Json): (s: string)
    requires IsShortDate(j)
    ensures ParseDate(s) == ParseShortYearDate(j.s)
  {
    var d := ParseShortYearDate(j.s).value;
    ParseFormatDate(d);
    FormatDate(d)
  }

  // ---------------------------------------------------------------------
  // String order: `sorted` on a list of str
  // ---------------------------------------------------------------------

  /** Python's `a <= b` on str: code point by code point, a prefix first. */
  predicate StrLeq(a: string, b: string)
    decreases |a|
  {
    a == [] || (b != [] && (a[0] < b[0] || (a[0] == b[0] && StrLeq(a[1..], b[1..]))))
  }

  lemma {:induction false} StrLeqTotal(a: string, b: string)
    ensures StrLeq(a, b) || StrLeq(b, a)
    decreases |a|
  {
    if a != [] && b != [] && a[0] == b[0] {
      StrLeqTotal(a[1..], b[1..]);
    }
  }

  lemma {:induction false} StrLeqAntisymmetric(a: string, b: string)
    requires StrLeq(a, b) && StrLeq(b, a)
    ensures a == b
    decreases |a|
  {
    if a != [] {
      StrLeqAntisymmetric(a[1..], b[1..]);
      assert a == [a[0]] + a[1..] && b == [b[0]] + b[1..];
    }
  }

  predicate StrAscending(xs: seq<string>) {
    forall i :: 0 <= i < |xs| - 1 ==> StrLeq(xs[i], xs[i + 1])
  }

  /** Puts `x` before the first string greater than it. */
  function InsertStr(x: string, xs: seq<string>): (r: seq<string>)
    ensures multiset(r) == multiset(xs) + multiset{x}
    ensures |r| == |xs| + 1
    ensures r[0] == x || (xs != [] && r[0] == xs[0])
  {
    if xs == [] || (StrLeq(x, xs[0]) && x != xs[0]) then [x] + xs
    else
      assert xs == [xs[0]] + xs[1..];
      [xs[0]] + InsertStr(x, xs[1..])
  }

  lemma {:induction false} InsertStrAscending(x: string, xs: seq<string>)
    requires StrAscending(xs)
    ensures StrAscending(InsertStr(x, xs))
  {
    if xs == [] || (StrLeq(x, xs[0]) && x != xs[0]) {
    } else {
      StrLeqTotal(x, xs[0]);
      InsertStrAscending(x, xs[1..]);
      var r := InsertStr(x, xs);
      assert r == [xs[0]] + InsertStr(x, xs[1..]);
      if |xs| > 1 {
        assert StrLeq(xs[0], xs[1]);
      }
      assert StrLeq(r[0], r[1]);
    }
  }

  /** `sorted(xs)` on strings. */
  function SortStrings(xs: seq<string>): (r: seq<string>)
    ensures multiset(r) == multiset(xs)
    ensures |r| == |xs|
  {
    if xs == [] then []
    else
      assert xs == xs[..|xs| - 1] + [xs[|xs| - 1]];
      InsertStr(xs[|xs| - 1], SortStrings(xs[..|xs| - 1]))
  }

  /** `sorted` returns the same strings, in ascending order. */
  lemma {:induction false} SortStringsAscending(xs: seq<string>)
    ensures StrAscending(SortStrings(xs))
    ensures multiset(SortStrings(xs)) == multiset(xs)
  {
    if xs != [] {
      SortStringsAscending(xs[..|xs| - 1]);
      InsertStrAscending(xs[|xs| - 1], SortStrings(xs[..|xs| - 1]));
    }
  }

  /** Two strings come out smaller first. */
  lemma SortTwo(a: string, b: string)
    ensures SortStrings([a, b]) == if StrLeq(b, a) then [b, a] else [a, b]
  {
    assert [a][..0] == [];
    assert SortStrings([a]) == [a];
    assert [a, b][..1] == [a];
    assert SortStrings([a, b]) == InsertStr(b, [a]);
    if !(StrLeq(b, a) && b != a) {
      assert InsertStr(b, [a]) == [a] + InsertStr(b, []);
      if b == a {
        assert [a, b] == [b, a];
      }
    }
  }

  /**
   * Sorting the texts is not sorting the dates: 15 June 2024 comes before
   * 2 January 2025, but its text sorts after.
   */
  lemma SortIsNotChronological()
    ensures DateLess(Date(15, 6, 2024), Date(2, 1, 2025))
    ensures SortStrings([FormatDate(Date(15, 6, 2024)), FormatDate(Date(2, 1, 2025))])
         == [FormatDate(Date(2, 1, 2025)), FormatDate(Date(15, 6, 2024))]
  {
    var early, late := FormatDate(Date(15, 6, 2024)), FormatDate(Date(2, 1, 2025));
    assert early[0] == '1' && late[0] == '0';
    SortTwo(early, late);
  }

  // ---------------------------------------------------------------------
  // format_data
  // ---------------------------------------------------------------------

  /** What a recognised submission asks for, its dates and time already read. */
  datatype Submission =
    | HolidayOn(date: Date)                                        // mode '0' with "date"
    | HolidaysBetween(start: Date, end: Date)                      // mode '0' with "startDate", "endDate"
    | ExamBetween(slot: string, start: Date, end: Date, time: Time) // mode '1'
    | ExamDays(slot: string, dates: seq<string>, time: Time)        // mode '2', dates as sorted texts

  predicate ValidSubmission(s: Submission) {
    match s
    case HolidayOn(d) => ValidDate(d)
    case HolidaysBetween(a, b) => ValidDate(a) && ValidDate(b)
    case ExamBetween(_, a, b, _) => ValidDate(a) && ValidDate(b)
    case ExamDays(_, _, _) => true
  }

  datatype Decoded = Submitted(sub: Submission) | Unrecognised | Raising

  /** The formatted date texts of the mode-2 date list, or `None` once one does not read. */
  function ReformatAll(items: seq<Json>): (r: Option<seq<string>>)
    ensures r.Some? <==> forall i :: 0 <= i < |items| ==> IsShortDate(items[i])
    ensures r.Some? ==> |r.value| == |items|
    ensures r.Some? ==> forall i :: 0 <= i < |items| ==> ParseDate(r.value[i]) == ParseShortYearDate(items[i].s)
  {
    if forall i :: 0 <= i < |items| ==> IsShortDate(items[i]) then
      Some(seq(|items|, i requires 0 <= i < |items| => Reformat(items[i])))
    else None
  }

  /** The mode-2 `dates`: the keys of an object, the items of a list. */
  function DateItems(field: Json): seq<Json>
    requires field.JObject? || field.JList?
  {
    if field.JObject? then
      var ks := KeysOf(field.members);
      seq(|ks|, i requires 0 <= i < |ks| => JStr(ks[i]))
    else field.items
  }

  function Decode(data: Json): (r: Decoded)
    ensures r.Submitted? ==> ValidSubmission(r.sub)
  {
    if !data.JObject? || !HasKey(data.members, "mode") then Unrecognised
    else
      var m := data.members;
      var mode := Get(m, "mode").value;
      if mode == JStr("0") && HasKey(m, "date") then
        match LongDate(Get(m, "date").value)
        case None => Raising
        case Some(d) => Submitted(HolidayOn(d))
      else if mode == JStr("0") && HasKey(m, "startDate") && HasKey(m, "endDate") then
        match (LongDate(Get(m, "startDate").value), LongDate(Get(m, "endDate").value))
        case (Some(a), Some(b)) => Submitted(HolidaysBetween(a, b))
        case _ => Raising
      else if mode == JStr("1") && HasKey(m, "slot") && HasKey(m, "start date")
              && HasKey(m, "end date") && HasKey(m, "start_time") then
        match (LongDate(Get(m, "start date").value), LongDate(Get(m, "end date").value),
               TimeOf(Get(m, "start_time").value))
        case (Some(a), Some(b), Some(t)) => Submitted(ExamBetween(PyStr(Get(m, "slot").value), a, b, t))
        case _ => Raising
      else if mode == JStr("2") && HasKey(m, "slot") && HasKey(m, "date") && HasKey(m, "start_time") then
        var field := Get(m, "date").value;
        if !field.JObject? && !field.JList? then Unrecognised
        else
          match ReformatAll(DateItems(field))
          case None => Raising
          case Some(texts) =>
            match TimeOf(Get(m, "start_time").value)
            case None => Raising
            case Some(t) => Submitted(ExamDays(PyStr(Get(m, "slot").value), SortStrings(texts), t))
      else Unrecognised
  }

  /** The f-string each branch returns. */
  function Render(s: Submission): (line: string)
    requires ValidSubmission(s)
  {
    match s
    case HolidayOn(d) => "0," + FormatDate(d)
    case HolidaysBetween(a, b) => "0," + FormatDate(a) + "," + FormatDate(b)
    case ExamBetween(slot, a, b, t) =>
      "1," + slot + "," + FormatDate(a) + "," + FormatDate(b) + "," + FormatTime(t)
    case ExamDays(slot, ds, t) => "2," + slot + "," + Join(ds, ",") + "," + FormatTime(t)
  }

  /** What `format_data` does: return a line, return `None`, or raise. */
  datatype Formatted = Line(text: string) | NoLine | Raises

  function FormatResult(data: Json): Formatted {
    match Decode(data)
    case Submitted(s) => Line(Render(s))
    case Unrecognised => NoLine
    case Raising => Raises
  }

  /** The mode-2 loop: `formatted_dates.append(...)` per date, raising at the first bad one. */
  method ReformatDates(items: seq<Json>) returns (r: Option<seq<string>>)
    ensures r == ReformatAll(items)
  {
    var formatted: seq<string> := [];
    for i := 0 to |items|
      invariant forall k :: 0 <= k < i ==> IsShortDate(items[k])
      invariant formatted == seq(i, k requires 0 <= k < i => Reformat(items[k]))
    {
      if !IsShortDate(items[i]) {
        return None;
      }
      formatted := formatted + [Reformat(items[i])];
    }
    return Some(formatted);
  }

  /** `format_data(data)`. */
  method FormatData(data: Json) returns (r: Formatted)
    ensures r == FormatResult(data)
  {
    if !data.JObject? || !HasKey(data.members, "mode") {
      return NoLine;
    }
    var m := data.members;
    var mode := Get(m, "mode").value;
    if mode == JStr("0") && HasKey(m, "date") {
      var d := LongDate(Get(m, "date").value);
      if d.None? {
        return Raises;
      }
      r := Line(Render(HolidayOn(d.value)));
    } else if mode == JStr("0") && HasKey(m, "startDate") && HasKey(m, "endDate") {
      var a := LongDate(Get(m, "startDate").value);
      var b := LongDate(Get(m, "endDate").value);
      if a.None? || b.None? {
        return Raises;
      }
      r := Line(Render(HolidaysBetween(a.value, b.value)));
    } else if mode == JStr("1") && HasKey(m, "slot") && HasKey(m, "start date")
              && HasKey(m, "end date") && HasKey(m, "start_time") {
      var a := LongDate(Get(m, "start date").value);
      var b := LongDate(Get(m, "end date").value);
      var t := TimeOf(Get(m, "start_time").value);
      if a.None? || b.None? || t.None? {
        return Raises;
      }
      r := Line(Render(ExamBetween(PyStr(Get(m, "slot").value), a.value, b.value, t.value)));
    } else if mode == JStr("2") && HasKey(m, "slot") && HasKey(m, "date") && HasKey(m, "start_time") {
      var field := Get(m, "date").value;
      if !field.JObject? && !field.JList? {
        return NoLine;
      }
      var texts := ReformatDates(DateItems(field));
      if texts.None? {
        return Raises;
      }
      var t := TimeOf(Get(m, "start_time").value);
      if t.None? {
        return Raises;
      }
      r := Line(Render(ExamDays(PyStr(Get(m, "slot").value), SortStrings(texts.value), t.value)));
    } else {
      r := NoLine;
    }
  }

  // ---------------------------------------------------------------------
  // What format_data promises
  // ---------------------------------------------------------------------

  /** The key sets `format_data` recognises, with a list or object of mode-2 dates. */
  predicate Recognised(data: Json) {
    && data.JObject?
    && HasKey(data.members, "mode")
    && var m, mode := data.members, Get(data.members, "mode").value;
       || (mode == JStr("0") && (HasKey(m, "date") || (HasKey(m, "startDate") && HasKey(m, "endDate"))))
       || (mode == JStr("1") && HasKey(m, "slot") && HasKey(m, "start date")
           && HasKey(m, "end date") && HasKey(m, "start_time"))
       || (mode == JStr("2") && HasKey(m, "slot") && HasKey(m, "date") && HasKey(m, "start_time")
           && (Get(m, "date").value.JObject? || Get(m, "date").value.JList?))
  }

  /**
   * `None` comes back exactly for a document of no recognised shape: not an
   * object, no mode, a mode other than the strings '0', '1', '2', a missing
   * key, or mode-2 dates that are neither a list nor an object. A recognised
   * document either gives a line or raises.
   */
  lemma {:induction false} NoLineIffUnrecognised(data: Json)
    ensures FormatResult(data) == NoLine <==> !Recognised(data)
  {
    if Recognised(data) {
      assert Decode(data) != Unrecognised;
    }
  }

  /** A mode that is not one of the strings '0', '1', '2' (the number 0, the string '3') gives no line. */
  lemma OtherModesNoLine(data: Json)
    requires data.JObject? && HasKey(data.members, "mode")
    requires Get(data.members, "mode").value !in {JStr("0"), JStr("1"), JStr("2")}
    ensures FormatResult(data) == NoLine
  {
  }

  /**
   * Mode '0' with "date" is a single holiday, whatever range keys the
   * document also has; a date that does not read as `DD/MM/YYYY` raises.
   */
  lemma SingleHolidayFirst(data: Json)
    requires data.JObject? && HasKey(data.members, "date")
    requires Get(data.members, "mode") == Some(JStr("0"))
    ensures LongDate(Get(data.members, "date").value).None? ==> FormatResult(data) == Raises
    ensures LongDate(Get(data.members, "date").value).Some? ==>
              FormatResult(data) == Line("0," + FormatDate(LongDate(Get(data.members, "date").value).value))
  {
  }

  /**
   * Mode '0' with "startDate" and "endDate" (and no "date") emits both dates
   * as given: nothing checks that the start comes first.
   */
  lemma HolidayRangeUnchecked(data: Json, a: Date, b: Date)
    requires data.JObject? && !HasKey(data.members, "date")
    requires Get(data.members, "mode") == Some(JStr("0"))
    requires HasKey(data.members, "startDate") && HasKey(data.members, "endDate")
    requires LongDate(Get(data.members, "startDate").value) == Some(a)
    requires LongDate(Get(data.members, "endDate").value) == Some(b)
    ensures FormatResult(data) == Line("0," + FormatDate(a) + "," + FormatDate(b))
  {
  }

  /** A mode-1 document is submitted with its slot as `str` prints it. */
  lemma ExamRangeCopiesSlot(data: Json)
    requires data.JObject? && Get(data.members, "mode") == Some(JStr("1"))
    requires Decode(data).Submitted?
    ensures Decode(data).sub.ExamBetween?
    ensures HasKey(data.members, "slot")
    ensures Decode(data).sub.slot == PyStr(Get(data.members, "slot").value)
  {
  }

  lemma {:induction false} JoinConcat(xs: seq<string>, ys: seq<string>, sep: string)
    requires xs != [] && ys != []
    ensures Join(xs + ys, sep) == Join(xs, sep) + sep + Join(ys, sep)
    decreases |xs|
  {
    if |xs| == 1 {
      assert (xs + ys)[1..] == ys;
    } else {
      assert (xs + ys)[1..] == xs[1..] + ys;
      JoinConcat(xs[1..], ys, sep);
    }
  }

  /** The fields of a submission's line, in order. */
  function LineFields(s: Submission): (parts: seq<string>)
    requires ValidSubmission(s)
  {
    match s
    case HolidayOn(d) => ["0", FormatDate(d)]
    case HolidaysBetween(a, b) => ["0", FormatDate(a), FormatDate(b)]
    case ExamBetween(slot, a, b, t) => ["1", slot, FormatDate(a), FormatDate(b), FormatTime(t)]
    case ExamDays(slot, ds, t) => ["2", slot] + ds + [FormatTime(t)]
  }

  /**
   * Every line is its fields joined by commas, except a mode-2 line with no
   * dates, which keeps an empty field between the slot and the time.
   */
  lemma RenderJoinsFields(s: Submission)
    requires ValidSubmission(s)
    ensures !(s.ExamDays? && s.dates == []) ==> Render(s) == Join(LineFields(s), ",")
    ensures s.ExamDays? && s.dates == [] ==> Render(s) == Join(["2", s.slot, "", FormatTime(s.time)], ",")
  {
    match s
    case HolidayOn(d) =>
    case HolidaysBetween(a, b) =>
      assert Join(LineFields(s)[1..], ",") == FormatDate(a) + "," + FormatDate(b);
    case ExamBetween(slot, a, b, t) =>
      ExamRangeJoin(slot, FormatDate(a), FormatDate(b), FormatTime(t));
    case ExamDays(slot, ds, t) =>
      ExamDaysJoin(slot, ds, FormatTime(t));
  }

  lemma ExamRangeJoin(slot: string, a: string, b: string, t: string)
    ensures "1," + slot + "," + a + "," + b + "," + t == Join(["1", slot, a, b, t], ",")
  {
    var parts := ["1", slot, a, b, t];
    assert parts[3..][1..] == [t];
    assert Join(parts[3..], ",") == b + "," + t;
    assert parts[2..][1..] == parts[3..];
    assert Join(parts[2..], ",") == a + "," + b + "," + t;
    assert parts[1..][1..] == parts[2..];
    assert Join(parts[1..], ",") == slot + "," + a + "," + b + "," + t;
  }

  lemma ExamDaysJoin(slot: string, ds: seq<string>, t: string)
    ensures ds != [] ==> "2," + slot + "," + Join(ds, ",") + "," + t == Join(["2", slot] + ds + [t], ",")
    ensures ds == [] ==> "2," + slot + "," + Join(ds, ",") + "," + t == Join(["2", slot, "", t], ",")
  {
    if ds == [] {
      var parts := ["2", slot, "", t];
      assert parts[2..][1..] == [t];
      assert Join(parts[2..], ",") == "," + t;
      assert parts[1..][1..] == parts[2..];
      assert Join(parts[1..], ",") == slot + "," + "," + t;
    } else {
      JoinConcat(["2", slot] + ds, [t], ",");
      JoinConcat(["2", slot], ds, ",");
      assert Join(["2", slot], ",") == "2," + slot by {
        assert ["2", slot][1..] == [slot];
      }
    }
  }

  /**
   * Mode 2 emits its dates as `DD-MM-YYYY` texts sorted as strings: the
   * reformatted dates of the list (or of the object's keys), each once per
   * occurrence, in ascending string order.
   */
  lemma ExamDaysSorted(data: Json)
    requires Decode(data).Submitted? && Decode(data).sub.ExamDays?
    ensures var m := data.members;
            var items := DateItems(Get(m, "date").value);
            var ds := Decode(data).sub.dates;
            && ReformatAll(items).Some?
            && multiset(ds) == multiset(ReformatAll(items).value)
            && StrAscending(ds)
            && |ds| == |items|
  {
    var items := DateItems(Get(data.members, "date").value);
    SortStringsAscending(ReformatAll(items).value);
  }

  /** Every mode-2 date text names the day its `DD/MM/YY` form names. */
  lemma ExamDaysNameSubmittedDays(data: Json, i: int)
    requires Decode(data).Submitted? && Decode(data).sub.ExamDays?
    requires 0 <= i < |Decode(data).sub.dates|
    ensures var items := DateItems(Get(data.members, "date").value);
            exists j :: 0 <= j < |items| && items[j].JStr?
              && ParseDate(Decode(data).sub.dates[i]) == ParseShortYearDate(items[j].s)
  {
    var items := DateItems(Get(data.members, "date").value);
    ExamDaysSorted(data);
    PermutedTextNamesItem(items, Decode(data).sub.dates, i);
  }

  lemma PermutedTextNamesItem(items: seq<Json>, ds: seq<string>, i: int)
    requires ReformatAll(items).Some? && multiset(ds) == multiset(ReformatAll(items).value)
    requires 0 <= i < |ds|
    ensures exists j :: 0 <= j < |items| && items[j].JStr? && ParseDate(ds[i]) == ParseShortYearDate(items[j].s)
  {
    var texts := ReformatAll(items).value;
    assert ds[i] in multiset(ds);
    assert ds[i] in multiset(texts);
    var j :| 0 <= j < |texts| && texts[j] == ds[i];
    assert IsShortDate(items[j]);
  }

  /**
   * Mode-2 dates that are neither a list nor an object give no line, before
   * the start time is looked at: a malformed time does not raise then.
   */
  lemma NonContainerDatesNoLine(data: Json)
    requires data.JObject? && Get(data.members, "mode") == Some(JStr("2"))
    requires HasKey(data.members, "slot") && HasKey(data.members, "start_time")
    requires Get(data.members, "date").Some?
    requires !Get(data.members, "date").value.JObject? && !Get(data.members, "date").value.JList?
    ensures FormatResult(data) == NoLine
  {
  }

  /** One mode-2 date that does not read as `DD/MM/YY` (or is not a string) raises, whatever the time. */
  lemma BadExamDayRaises(data: Json, j: int)
    requires data.JObject? && Get(data.members, "mode") == Some(JStr("2"))
    requires HasKey(data.members, "slot") && HasKey(data.members, "start_time")
    requires Get(data.members, "date").Some?
    requires Get(data.members, "date").value.JObject? || Get(data.members, "date").value.JList?
    requires 0 <= j < |DateItems(Get(data.members, "date").value)|
    requires !IsShortDate(DateItems(Get(data.members, "date").value)[j])
    ensures FormatResult(data) == Raises
  {
  }

  /** Two-digit years 69-99 are read as 1969-1999 and 00-68 as 2000-2068. */
  lemma ShortYearWindow(j: Json)
    requires IsShortDate(j)
    ensures 1969 <= ParseDate(Reformat(j)).value.year <= 2068
  {
  }

  // ---------------------------------------------------------------------
  // handle_schedule
  // ---------------------------------------------------------------------

  /** A 200 reply starting a thread that rings after `delay` seconds, or the 400 reply. */
  datatype ScheduleReply = Scheduled(delay: int) | BadRequest

  /** A Python int: JSON `true` and `false` are the ints 1 and 0. */
  predicate IsPyInt(j: Json) {
    j.JNum? || j.JBool?
  }

  /** `handle_schedule`: one entry whose value is an int, read as minutes. */
  function ScheduleDelay(data: Json): (r: ScheduleReply)
    ensures r.Scheduled? ==> r.delay % 60 == 0
    ensures r.Scheduled? ==> data.JObject? && |KeysOf(data.members)| == 1
  {
    if data.JObject? && |KeysOf(data.members)| == 1 then
      var ks := KeysOf(data.members);
      assert ks[0] in ks;
      match Get(data.members, ks[0]).value
      case JNum(n) => Scheduled(n * 60)
      case JBool(b) => Scheduled(if b then 60 else 0)
      case _ => BadRequest
    else BadRequest
  }

  /** `{"k": n}` schedules a ring `60 * n` seconds later, negative `n` included. */
  lemma ScheduleMinutes(k: string, n: int)
    ensures ScheduleDelay(JObject([Member(k, JNum(n))])) == Scheduled(60 * n)
  {
    var m := [Member(k, JNum(n))];
    assert m[0].key == k;
    assert KeysOf(m) == [k];
  }

  /** `{"k": true}` is one minute, since a bool is an int. */
  lemma ScheduleTrueIsOneMinute(k: string)
    ensures ScheduleDelay(JObject([Member(k, JBool(true))])) == Scheduled(60)
  {
    var m := [Member(k, JBool(true))];
    assert m[0].key == k;
    assert KeysOf(m) == [k];
  }

  /** A document with two different keys is rejected, whatever their values. */
  lemma ScheduleNeedsOneKey(data: Json, a: string, b: string)
    requires data.JObject? && HasKey(data.members, a) && HasKey(data.members, b) && a != b
    ensures ScheduleDelay(data) == BadRequest
  {
    var ks := KeysOf(data.members);
    assert a in ks && b in ks;
  }

  /** A value that is not an int (text, a list, null) is rejected. */
  lemma ScheduleNeedsInt(k: string, v: Json)
    requires !IsPyInt(v)
    ensures ScheduleDelay(JObject([Member(k, v)])) == BadRequest
  {
    var m := [Member(k, v)];
    assert m[0].key == k;
    assert KeysOf(m) == [k];
  }

  /** A repeated key counts once and its last value decides. */
  lemma ScheduleRepeatedKey(k: string, v: Json, w: Json)
    ensures ScheduleDelay(JObject([Member(k, v), Member(k, w)])) == ScheduleDelay(JObject([Member(k, w)]))
  {
    var m2, m1 := [Member(k, v), Member(k, w)], [Member(k, w)];
    assert m2[..1] == [Member(k, v)];
    assert m1[0].key == k && m2[..1][0].key == k;
    assert KeysOf(m1) == [k];
    assert KeysOf(m2[..1]) == [k];
    assert KeysOf(m2) == [k];
  }
}
