/**
 * One pass of bell.py's main loop: given the snapshot file's lines, today's
 * date and the current second, which `ring_bell` calls are made and how the
 * pass ends. The clock, the sleeps and the relay are left out; a ring is an
 * element of the returned sequence, tagged with what caused it.
 */
module BellTick {
  import opened Basics
  import opened Text
  import opened Calendar
  import opened BellEvents

  // ---------------------------------------------------------------------
  // Offsets and `calculate_bell_times`
  // ---------------------------------------------------------------------

  /** 0, 5 min, 15 min, 2 h 5 min and 2 h 15 min, in seconds. */
  const MidsemTimes: seq<int> := [0, 300, 900, 7500, 8100]
  /** 0, 5 min, 15 min, 3 h 5 min and 3 h 15 min, in seconds. */
  const EndsemTimes: seq<int> := [0, 300, 900, 11100, 11700]

  /** `midsem_offsets` and `endsem_offsets`: the same list for slots 1 to 3. */
  const MidsemOffsets: map<int, seq<int>> := map[1 := MidsemTimes, 2 := MidsemTimes, 3 := MidsemTimes]
  const EndsemOffsets: map<int, seq<int>> := map[1 := EndsemTimes, 2 := EndsemTimes, 3 := EndsemTimes]

  /** `offsets.get(slot, [])`. */
  function OffsetsFor(table: map<int, seq<int>>, slot: int): seq<int> {
    if slot in table then table[slot] else []
  }

  predicate WithinDay(offsets: seq<int>) {
    forall i :: 0 <= i < |offsets| ==> 0 <= offsets[i] < SecondsPerDay
  }

  /** The list comprehension of `calculate_bell_times`, for a base time that parsed. */
  function ShiftedTimes(b: Time, offsets: seq<int>): (r: seq<string>)
    requires WithinDay(offsets)
    ensures |r| == |offsets|
  {
    seq(|offsets|, i requires 0 <= i < |offsets| => FormatTime(Later(b, offsets[i])))
  }

  /** `calculate_bell_times(base, offsets)`; `None` where `strptime` raises. */
  function CalculateBellTimes(base: string, offsets: seq<int>): (r: Option<seq<string>>)
    requires WithinDay(offsets)
    ensures r.Some? <==> ParseTime(base).Some?
  {
    match ParseTime(base)
    case None => None
    case Some(b) => Some(ShiftedTimes(b, offsets))
  }

  lemma MatchedTimeHasOffset(b: Time, offsets: seq<int>, now: Time) returns (i: int)
    requires WithinDay(offsets) && FormatTime(now) in ShiftedTimes(b, offsets)
    ensures 0 <= i < |offsets| && Later(b, offsets[i]) == now
  {
    var times := ShiftedTimes(b, offsets);
    i :| 0 <= i < |times| && times[i] == FormatTime(now);
    FormatTimeInjective(Later(b, offsets[i]), now);
  }

  /** A time string is among the computed times exactly when some offset lands on that second. */
  lemma RingsIffOffsetMatches(b: Time, offsets: seq<int>, now: Time)
    requires WithinDay(offsets)
    ensures FormatTime(now) in ShiftedTimes(b, offsets)
            <==> exists i :: 0 <= i < |offsets| && Later(b, offsets[i]) == now
  {
    var times := ShiftedTimes(b, offsets);
    if FormatTime(now) in times {
      var i := MatchedTimeHasOffset(b, offsets, now);
    } else {
      forall i | 0 <= i < |offsets| ensures Later(b, offsets[i]) != now {
        assert times[i] != FormatTime(now);
      }
    }
  }

  /** Distinct offsets under a day give distinct times. */
  lemma BellTimesDistinct(b: Time, offsets: seq<int>)
    requires WithinDay(offsets)
    requires forall i, j :: 0 <= i < j < |offsets| ==> offsets[i] != offsets[j]
    ensures var times := ShiftedTimes(b, offsets);
            forall i, j :: 0 <= i < j < |times| ==> times[i] != times[j]
  {
    var times := ShiftedTimes(b, offsets);
    forall i, j | 0 <= i < j < |times| ensures times[i] != times[j] {
      var x, y := Later(b, offsets[i]), Later(b, offsets[j]);
      FormatTimeInjective(x, y);
      LaterDistinct(b, offsets[i], offsets[j]);
    }
  }

  /** Each computed time reads back as its base plus its offset, modulo a day. */
  lemma ShiftedTimeReadsBack(b: Time, offsets: seq<int>, i: int)
    requires WithinDay(offsets) && 0 <= i < |offsets|
    ensures ParseTime(ShiftedTimes(b, offsets)[i]) == Some(Later(b, offsets[i]))
  {
    assert ShiftedTimes(b, offsets)[i] == FormatTime(Later(b, offsets[i]));
    ParseFormatTime(Later(b, offsets[i]));
  }

  /** Without a wrap past midnight, ascending offsets give times that read back ascending. */
  lemma BellTimesAscendWithoutWrap(b: Time, offsets: seq<int>, i: int, j: int)
    requires WithinDay(offsets)
    requires forall i, j :: 0 <= i < j < |offsets| ==> offsets[i] < offsets[j]
    requires forall i :: 0 <= i < |offsets| ==> b + offsets[i] < SecondsPerDay
    requires 0 <= i < j < |offsets|
    ensures ParseTime(ShiftedTimes(b, offsets)[i]).Some? && ParseTime(ShiftedTimes(b, offsets)[j]).Some?
    ensures ParseTime(ShiftedTimes(b, offsets)[i]).value < ParseTime(ShiftedTimes(b, offsets)[j]).value
  {
    ShiftedTimeReadsBack(b, offsets, i);
    ShiftedTimeReadsBack(b, offsets, j);
    LaterNoWrap(b, offsets[i]);
    LaterNoWrap(b, offsets[j]);
  }

  /**
   * A Midsem slot starting at 21:55:00 or later wraps past midnight: its
   * fourth time is the text of an earlier second than its first, so the
   * list is not in time order.
   */
  lemma LateSlotsWrap(b: Time)
    requires b + 7500 >= SecondsPerDay
    ensures ShiftedTimes(b, MidsemTimes)[0] == FormatTime(b)
    ensures ShiftedTimes(b, MidsemTimes)[3] == FormatTime(b + 7500 - SecondsPerDay)
  {
    LaterNoWrap(b, 0);
    LaterWraps(b, 7500);
  }

  // ---------------------------------------------------------------------
  // The weekly timetable
  // ---------------------------------------------------------------------

  const SaturdayTimings: seq<string> := [
    "08:55:00", "09:00:00", "09:55:00", "10:00:00", "10:55:00", "11:00:00",
    "11:55:00", "12:00:00", "12:55:00"]
  const WeekdayTimings: seq<string> := [
    "08:55:00", "09:00:00", "09:55:00", "10:00:00", "10:55:00", "11:00:00",
    "11:55:00", "12:00:00", "12:55:00", "13:00:00", "13:55:00", "14:00:00",
    "14:55:00", "15:00:00", "15:55:00"]

  /** Monday to Friday: `current_weekday in weekdays`. */
  predicate IsWorkday(weekday: int) {
    0 <= weekday < 5
  }

  /** The timetable's rings for this second: Saturday's list, then the workday list. */
  function WeeklyRings(weekday: int, clock: string): seq<Ring> {
    (if weekday == Saturday && clock in SaturdayTimings then [WeeklyRing] else [])
    + (if IsWorkday(weekday) && clock in WeekdayTimings then [WeeklyRing] else [])
  }

  // ---------------------------------------------------------------------
  // One tick
  // ---------------------------------------------------------------------

  /** What caused one `ring_bell(3)` call. */
  datatype Ring = ImmediateRing | WeeklyRing | ExamRing(slot: int)

  /** How the pass ends: normally, at the Sunday `continue`, or by an escaping exception. */
  datatype TickEnd = Completed | SundayRest | Crashed(fault: Fault)

  datatype TickResult = TickResult(rings: seq<Ring>, end: TickEnd)

  /** `is_special_day`: the date holds a tuple of kind 1 or 2. */
  predicate IsSpecial(e: Entry) {
    e.Slots? && exists slot :: slot in e.cells && IsExamKind(e.cells[slot].kind)
  }

  /** One iteration over the date's slots: `if event_time:` ... `if current_time_str in result_times`. */
  function SlotRing(slot: int, cell: SlotCell, now: Time, rings: seq<Ring>): TickResult {
    match cell.time
    case None => TickResult(rings, Completed)
    case Some(text) =>
      if text == "" || !IsExamKind(cell.kind) then TickResult(rings, Completed)
      else
        var table := if cell.kind == 1 then MidsemOffsets else EndsemOffsets;
        match CalculateBellTimes(text, OffsetsFor(table, slot))
        case None => TickResult(rings, Crashed(BadTimeText))
        case Some(times) =>
          TickResult(if FormatTime(now) in times then rings + [ExamRing(slot)] else rings, Completed)
  }

  /** The loop over the date's slots, in insertion order, stopping at an exception. */
  function SlotsRings(e: Entry, keys: seq<int>, now: Time, rings: seq<Ring>): TickResult
    requires e.Slots? && forall k :: k in keys ==> k in e.cells
  {
    if keys == [] then TickResult(rings, Completed)
    else
      var r := SlotsRings(e, keys[..|keys| - 1], now, rings);
      if r.end.Crashed? then r
      else SlotRing(keys[|keys| - 1], e.cells[keys[|keys| - 1]], now, r.rings)
  }

  /** bell.py:111-153 once the snapshot has loaded. */
  function TickSpec(s: Snapshot, today: Date, now: Time): TickResult
    requires ValidSnapshot(s) && ValidDate(today)
  {
    var first := if s.immediate then [ImmediateRing] else [];
    var key := FormatDate(today);
    var special := key in s.days && IsSpecial(s.days[key]);
    if !special && Weekday(today) == Sunday then TickResult(first, SundayRest)
    else
      var weekly := if special then [] else WeeklyRings(Weekday(today), FormatTime(now));
      if key in s.days && s.days[key].Slots? then SlotsRings(s.days[key], s.days[key].keys, now, first + weekly)
      else TickResult(first + weekly, Completed)
  }

  /** bell.py:101-153: load the snapshot, then decide; a load that raises ends the pass before any ring. */
  function TickOutcome(lines: seq<string>, today: Date, now: Time): TickResult
    requires ValidDate(today)
  {
    match LoadSnapshot(lines)
    case Raised(f) => TickResult([], Crashed(f))
    case Ok(s) => TickSpec(s, today, now)
  }

  lemma {:induction false} SlotsCrashStays(e: Entry, keys: seq<int>, k: int, now: Time, rings: seq<Ring>)
    requires e.Slots? && forall x :: x in keys ==> x in e.cells
    requires 0 <= k <= |keys| && SlotsRings(e, keys[..k], now, rings).end.Crashed?
    ensures SlotsRings(e, keys, now, rings) == SlotsRings(e, keys[..k], now, rings)
    decreases |keys| - k
  {
    if k < |keys| {
      var init := keys[..|keys| - 1];
      assert init[..k] == keys[..k];
      SlotsCrashStays(e, init, k, now, rings);
    } else {
      assert keys[..k] == keys;
    }
  }

  /** The loop over the slots of a date that is not a holiday. */
  method RingSlots(e: Entry, now: Time, rings0: seq<Ring>) returns (rings: seq<Ring>, end: TickEnd)
    requires e.Slots? && ValidEntry(e)
    ensures TickResult(rings, end) == SlotsRings(e, e.keys, now, rings0)
  {
    rings, end := rings0, Completed;
    for i := 0 to |e.keys|
      invariant TickResult(rings, Completed) == SlotsRings(e, e.keys[..i], now, rings0)
    {
      SlotsRingsNext(e, i, now, rings0);
      var slot := e.keys[i];
      var after, stop := RingSlot(slot, e.cells[slot], now, rings);
      if stop.Crashed? {
        SlotsCrashStays(e, e.keys, i + 1, now, rings0);
        return after, stop;
      }
      rings := after;
    }
    assert e.keys[..|e.keys|] == e.keys;
  }

  lemma SlotsRingsNext(e: Entry, i: int, now: Time, rings: seq<Ring>)
    requires e.Slots? && ValidEntry(e) && 0 <= i < |e.keys|
    ensures e.keys[i] in e.cells
    ensures var r := SlotsRings(e, e.keys[..i], now, rings);
            SlotsRings(e, e.keys[..i + 1], now, rings)
            == if r.end.Crashed? then r else SlotRing(e.keys[i], e.cells[e.keys[i]], now, r.rings)
  {
    assert e.keys[..i + 1][..i] == e.keys[..i];
  }

  /** One pass of the slot loop: bell.py:133-153 for one slot. */
  method RingSlot(slot: int, cell: SlotCell, now: Time, rings0: seq<Ring>) returns (rings: seq<Ring>, end: TickEnd)
    ensures TickResult(rings, end) == SlotRing(slot, cell, now, rings0)
  {
    rings, end := rings0, Completed;
    if cell.time.Some? && cell.time.value != "" {
      if cell.kind == 1 || cell.kind == 2 {
        var table := if cell.kind == 1 then MidsemOffsets else EndsemOffsets;
        var times := CalculateBellTimes(cell.time.value, OffsetsFor(table, slot));
        if times.None? {
          return rings, Crashed(BadTimeText);
        }
        if FormatTime(now) in times.value {
          rings := rings + [ExamRing(slot)];
        }
      }
    }
  }

  /**
   * bell.py:111-153 on a loaded snapshot: the immediate ring, the weekly
   * timetable unless the date has slot data, then the date's slots.
   */
  method Decide(s: Snapshot, today: Date, now: Time) returns (rings: seq<Ring>, end: TickEnd)
    requires ValidSnapshot(s) && ValidDate(today)
    ensures TickResult(rings, end) == TickSpec(s, today, now)
  {
    var clock := FormatTime(now);
    var date := FormatDate(today);
    var weekday := Weekday(today);
    rings, end := [], Completed;
    if s.immediate {
      rings := rings + [ImmediateRing];
    }
    ghost var first := rings;
    assert first == if s.immediate then [ImmediateRing] else [];
    var special := date in s.days && IsSpecial(s.days[date]);
    if !special {
      if weekday == Sunday {
        return rings, SundayRest;
      }
      if weekday == Saturday && clock in SaturdayTimings {
        rings := rings + [WeeklyRing];
      }
      if IsWorkday(weekday) && clock in WeekdayTimings {
        rings := rings + [WeeklyRing];
      }
      assert rings == first + WeeklyRings(weekday, clock);
    } else {
      assert rings == first + [];
    }
    ghost var weekly := if special then [] else WeeklyRings(weekday, clock);
    assert rings == first + weekly;
    if date in s.days && s.days[date].Slots? {
      rings, end := RingSlots(s.days[date], now, rings);
      assert TickResult(rings, end) == SlotsRings(s.days[date], s.days[date].keys, now, first + weekly);
    } else {
      assert TickResult(rings, end) == TickResult(first + weekly, Completed);
    }
  }

  /** One pass of `main_loop`: a snapshot that fails to load ends the pass before any ring. */
  method Tick(lines: seq<string>, today: Date, now: Time) returns (rings: seq<Ring>, end: TickEnd)
    requires ValidDate(today)
    ensures TickResult(rings, end) == TickOutcome(lines, today, now)
  {
    var loaded := ProcessLatestEvents(lines);
    if loaded.Raised? {
      return [], Crashed(loaded.fault);
    }
    rings, end := Decide(loaded.value, today, now);
  }

  // ---------------------------------------------------------------------
  // What a pass rings
  // ---------------------------------------------------------------------

  /** The offsets a timed slot of this kind uses, slot number permitting. */
  function KindTimes(kind: int): seq<int> {
    if kind == 1 then MidsemTimes else EndsemTimes
  }

  /** One slot adds at most one ring, and only for its own number. */
  lemma SlotRingsAtMostOnce(slot: int, cell: SlotCell, now: Time, rings: seq<Ring>)
    ensures SlotRing(slot, cell, now, rings).rings in {rings, rings + [ExamRing(slot)]}
  {
  }

  /** An untimed slot, a slot with an empty time or a slot of another kind never rings. */
  lemma UntimedSlotSilent(slot: int, cell: SlotCell, now: Time, rings: seq<Ring>)
    requires cell.time.None? || cell.time.value == "" || !IsExamKind(cell.kind)
    ensures SlotRing(slot, cell, now, rings) == TickResult(rings, Completed)
  {
  }

  /**
   * A timed slot of kind 1 or 2 whose time parses rings exactly when its
   * number is 1 to 3 and one of its kind's offsets lands on the current second.
   */
  lemma SlotRingsIff(slot: int, cell: SlotCell, b: Time, now: Time, rings: seq<Ring>)
    requires cell.time.Some? && cell.time.value != "" && IsExamKind(cell.kind)
    requires ParseTime(cell.time.value) == Some(b)
    ensures SlotRing(slot, cell, now, rings).end == Completed
    ensures SlotRing(slot, cell, now, rings).rings == rings + [ExamRing(slot)]
            <==> 1 <= slot <= 3 && exists i :: 0 <= i < 5 && Later(b, KindTimes(cell.kind)[i]) == now
  {
    assert rings != rings + [ExamRing(slot)];
    var table := if cell.kind == 1 then MidsemOffsets else EndsemOffsets;
    var offsets := OffsetsFor(table, slot);
    assert offsets == if 1 <= slot <= 3 then KindTimes(cell.kind) else [];
    var hit := FormatTime(now) in ShiftedTimes(b, offsets);
    assert SlotRing(slot, cell, now, rings) == TickResult(if hit then rings + [ExamRing(slot)] else rings, Completed);
    RingsIffOffsetMatches(b, offsets, now);
  }

  /** A timed slot whose time does not parse ends the pass, whatever its number. */
  lemma BadSlotTimeCrashes(slot: int, cell: SlotCell, now: Time, rings: seq<Ring>)
    requires cell.time.Some? && cell.time.value != "" && IsExamKind(cell.kind)
    requires ParseTime(cell.time.value) == None
    ensures SlotRing(slot, cell, now, rings) == TickResult(rings, Crashed(BadTimeText))
  {
  }

  /** The slot loop only appends exam rings, each for a listed slot numbered 1 to 3. */
  lemma {:induction false} SlotsRingsExtend(e: Entry, keys: seq<int>, now: Time, rings: seq<Ring>)
    requires e.Slots? && forall k :: k in keys ==> k in e.cells
    ensures var r := SlotsRings(e, keys, now, rings).rings;
            && |r| >= |rings| && r[..|rings|] == rings
            && forall i :: |rings| <= i < |r| ==> r[i].ExamRing? && r[i].slot in keys && 1 <= r[i].slot <= 3
  {
    if keys != [] {
      var init := keys[..|keys| - 1];
      SlotsRingsExtend(e, init, now, rings);
      var p := SlotsRings(e, init, now, rings);
      if !p.end.Crashed? {
        var slot := keys[|keys| - 1];
        var cell := e.cells[slot];
        SlotRingsAtMostOnce(slot, cell, now, p.rings);
        if cell.time.Some? && cell.time.value != "" && IsExamKind(cell.kind) && ParseTime(cell.time.value).Some? {
          SlotRingsIff(slot, cell, ParseTime(cell.time.value).value, now, p.rings);
        }
      }
    }
  }

  /** An immediate ring, when set, is the first ring of every pass that loads; otherwise there is none. */
  lemma ImmediateRingFirst(s: Snapshot, today: Date, now: Time)
    requires ValidSnapshot(s) && ValidDate(today)
    ensures s.immediate ==> |TickSpec(s, today, now).rings| >= 1 && TickSpec(s, today, now).rings[0] == ImmediateRing
    ensures !s.immediate ==> ImmediateRing !in TickSpec(s, today, now).rings
  {
    var key := FormatDate(today);
    var first := if s.immediate then [ImmediateRing] else [];
    var special := key in s.days && IsSpecial(s.days[key]);
    var weekly := if special then [] else WeeklyRings(Weekday(today), FormatTime(now));
    if key in s.days && s.days[key].Slots? && (special || Weekday(today) != Sunday) {
      var e := s.days[key];
      SlotsRingsExtend(e, e.keys, now, first + weekly);
      var r := SlotsRings(e, e.keys, now, first + weekly).rings;
      if s.immediate {
        assert r[0] == r[..|first + weekly|][0];
      } else {
        assert forall i :: 0 <= i < |first + weekly| ==> r[i] == (first + weekly)[i];
      }
    }
  }

  /** On a date with kind-1 or kind-2 data the weekly timetable is not consulted. */
  lemma ExamDaySilencesTimetable(s: Snapshot, today: Date, now: Time)
    requires ValidSnapshot(s) && ValidDate(today)
    requires FormatDate(today) in s.days && IsSpecial(s.days[FormatDate(today)])
    ensures WeeklyRing !in TickSpec(s, today, now).rings
  {
    var e := s.days[FormatDate(today)];
    var first := if s.immediate then [ImmediateRing] else [];
    assert first + [] == first;
    SlotsRingsExtend(e, e.keys, now, first);
    var r := SlotsRings(e, e.keys, now, first).rings;
    assert forall i :: 0 <= i < |first| ==> r[i] == first[i];
  }

  /** Every exam ring of a pass names a slot numbered 1 to 3: other slot numbers never ring. */
  lemma ExamRingsNameKnownSlots(s: Snapshot, today: Date, now: Time, slot: int)
    requires ValidSnapshot(s) && ValidDate(today)
    requires ExamRing(slot) in TickSpec(s, today, now).rings
    ensures 1 <= slot <= 3
    ensures FormatDate(today) in s.days && s.days[FormatDate(today)].Slots?
    ensures slot in s.days[FormatDate(today)].keys
  {
    var key := FormatDate(today);
    var first := if s.immediate then [ImmediateRing] else [];
    var special := key in s.days && IsSpecial(s.days[key]);
    var weekly := if special then [] else WeeklyRings(Weekday(today), FormatTime(now));
    var plain := first + weekly;
    assert forall i :: 0 <= i < |plain| ==> !plain[i].ExamRing?;
    if key in s.days && s.days[key].Slots? && (special || Weekday(today) != Sunday) {
      ExamRingFromSlots(s.days[key], now, plain, slot);
    }
  }

  lemma ExamRingFromSlots(e: Entry, now: Time, plain: seq<Ring>, slot: int)
    requires e.Slots? && ValidEntry(e)
    requires forall i :: 0 <= i < |plain| ==> !plain[i].ExamRing?
    requires ExamRing(slot) in SlotsRings(e, e.keys, now, plain).rings
    ensures 1 <= slot <= 3 && slot in e.keys
  {
    SlotsRingsExtend(e, e.keys, now, plain);
    var r := SlotsRings(e, e.keys, now, plain).rings;
    assert forall j :: 0 <= j < |plain| ==> r[j] == r[..|plain|][j];
    var i :| 0 <= i < |r| && r[i] == ExamRing(slot);
  }

  /**
   * A holiday marker changes nothing about a pass: the date's weekly bells
   * ring as if it were absent from the snapshot, except that on a Sunday
   * the pass rests as on any Sunday.
   */
  lemma HolidayStillRingsWeekly(s: Snapshot, today: Date, now: Time)
    requires ValidSnapshot(s) && ValidDate(today)
    requires FormatDate(today) in s.days && s.days[FormatDate(today)] == Holiday
    ensures var first := if s.immediate then [ImmediateRing] else [];
            TickSpec(s, today, now)
            == if Weekday(today) == Sunday then TickResult(first, SundayRest)
               else TickResult(first + WeeklyRings(Weekday(today), FormatTime(now)), Completed)
    ensures Weekday(today) != Sunday && IsWorkday(Weekday(today)) && FormatTime(now) in WeekdayTimings
            ==> WeeklyRing in TickSpec(s, today, now).rings
  {
    var first := if s.immediate then [ImmediateRing] else [];
    if Weekday(today) != Sunday && IsWorkday(Weekday(today)) && FormatTime(now) in WeekdayTimings {
      assert (first + WeeklyRings(Weekday(today), FormatTime(now)))[|first|] == WeeklyRing;
    }
  }

  /** Two slots of the same date whose times coincide ring twice in the same second. */
  lemma OverlappingSlotsRingTwice(time: string, kind: int, now: Time, rings: seq<Ring>)
    requires IsExamKind(kind) && ParseTime(time) == Some(now)
    ensures var e := Slots([1, 2], map[1 := SlotCell(kind, Some(time)), 2 := SlotCell(kind, Some(time))]);
            SlotsRings(e, e.keys, now, rings) == TickResult(rings + [ExamRing(1), ExamRing(2)], Completed)
  {
    var cell := SlotCell(kind, Some(time));
    var e := Slots([1, 2], map[1 := cell, 2 := cell]);
    assert time != "" by {
      assert ParseTime("") == None;
    }
    assert Later(now, KindTimes(kind)[0]) == now;
    SlotRingsIff(1, cell, now, now, rings);
    SlotRingsIff(2, cell, now, now, rings + [ExamRing(1)]);
    assert e.keys[..1] == [1] && [1][..0] == [];
    assert SlotsRings(e, [], now, rings) == TickResult(rings, Completed);
    assert SlotsRings(e, [1], now, rings) == TickResult(rings + [ExamRing(1)], Completed);
    assert SlotsRings(e, e.keys, now, rings) == SlotRing(2, cell, now, rings + [ExamRing(1)]);
    assert rings + [ExamRing(1)] + [ExamRing(2)] == rings + [ExamRing(1), ExamRing(2)];
  }
}
