/** The static Seattle to Bainbridge timetable and the wall-clock reading the
    departure projector compares it against (api/ferries.js). */
module Timetable {

  const MinutesPerDay := 1440
  const MillisPerMinute := 60000

  /** A scheduled time-of-day departure. */
  datatype Slot = Slot(hour: int, minute: int)

  predicate ValidSlot(s: Slot) {
    0 <= s.hour < 24 && 0 <= s.minute < 60
  }

  function MinuteOfDay(s: Slot): int {
    s.hour * 60 + s.minute
  }

  /** Lexicographic order on (hour, minute), the order the timetable is written in. */
  predicate Precedes(a: Slot, b: Slot) {
    a.hour < b.hour || (a.hour == b.hour && a.minute < b.minute)
  }

  /** For slots with in-range fields the written order is the minute-of-day order. */
  lemma PrecedesIsMinuteOrder(a: Slot, b: Slot)
    requires ValidSlot(a) && ValidSlot(b)
    ensures Precedes(a, b) <==> MinuteOfDay(a) < MinuteOfDay(b)
  {
  }

  predicate Ascending(table: seq<Slot>) {
    forall i, j :: 0 <= i < j < |table| ==> MinuteOfDay(table[i]) < MinuteOfDay(table[j])
  }

  /** Every slot is a real time of day and the slots are strictly increasing. */
  predicate WellFormed(table: seq<Slot>) {
    && (forall i :: 0 <= i < |table| ==> ValidSlot(table[i]))
    && Ascending(table)
  }

  /** Row-by-row check of well-formedness from row `i` on: each row is a
      valid slot and strictly before the next one. */
  predicate CheckedFrom(table: seq<Slot>, i: nat)
    decreases |table| - i
  {
    i >= |table| ||
    (ValidSlot(table[i])
     && (i + 1 < |table| ==> MinuteOfDay(table[i]) < MinuteOfDay(table[i + 1]))
     && CheckedFrom(table, i + 1))
  }

  /** For a timetable of in-range slots, ascending time of day and ascending
      (hour, minute) order are the same thing. */
  lemma WrittenOrder(table: seq<Slot>)
    requires forall i :: 0 <= i < |table| ==> ValidSlot(table[i])
    ensures Ascending(table) <==> forall i, j :: 0 <= i < j < |table| ==> Precedes(table[i], table[j])
  {
    forall i, j | 0 <= i < j < |table|
      ensures Precedes(table[i], table[j]) <==> MinuteOfDay(table[i]) < MinuteOfDay(table[j])
    {
      PrecedesIsMinuteOrder(table[i], table[j]);
    }
  }

  /** The row-by-row check is enough for well-formedness of the rows it covers. */
  lemma {:induction false} CheckedFromWellFormed(table: seq<Slot>, i: nat)
    requires i <= |table| && CheckedFrom(table, i)
    ensures forall j :: i <= j < |table| ==> ValidSlot(table[j])
    ensures forall j, k :: i <= j < k < |table| ==> MinuteOfDay(table[j]) < MinuteOfDay(table[k])
    decreases |table| - i
  {
    if i < |table| {
      CheckedFromWellFormed(table, i + 1);
      if i + 1 < |table| {
        assert MinuteOfDay(table[i]) < MinuteOfDay(table[i + 1]);
      }
    }
  }

  /** The Seattle to Bainbridge departures from Seattle as written in the
      source (api/ferries.js:36-42). */
  const Schedule: seq<Slot> := [
    Slot(5, 20), Slot(6, 25), Slot(7, 55),
    Slot(9, 10), Slot(10, 25), Slot(11, 40),
    Slot(12, 55), Slot(14, 10), Slot(15, 25),
    Slot(16, 40), Slot(17, 55), Slot(19, 10),
    Slot(20, 25), Slot(21, 40), Slot(22, 55)
  ]

  /** The row check passes on the written schedule, evaluated in two halves
      to keep the unfolding small. */
  lemma ScheduleChecked()
    ensures CheckedFrom(Schedule, 0)
  {
    assert CheckedFrom(Schedule, 8);
  }

  /** The Seattle to Bainbridge timetable, with the facts the projector's
      lemmas rely on. */
  function SeattleToBainbridge(): (t: seq<Slot>)
    ensures |t| == 15
    ensures WellFormed(t)
    ensures forall i, j :: 0 <= i < j < |t| ==> Precedes(t[i], t[j])
  {
    ScheduleWellFormed();
    WrittenOrder(Schedule);
    Schedule
  }

  lemma ScheduleWellFormed()
    ensures |Schedule| == 15 && WellFormed(Schedule)
  {
    ScheduleChecked();
    CheckedFromWellFormed(Schedule, 0);
  }

  /** The Pacific wall-clock reading the projector is given: the fields
      getHours, getMinutes, getSeconds and getMilliseconds of the Date. */
  datatype Clock = Clock(hour: int, minute: int, second: int, millisecond: int)

  predicate ValidClock(c: Clock) {
    0 <= c.hour < 24 && 0 <= c.minute < 60 && 0 <= c.second < 60 && 0 <= c.millisecond < 1000
  }

  function ClockMinute(c: Clock): int {
    c.hour * 60 + c.minute
  }

  /** Milliseconds since local midnight of the reading. */
  function ClockMillis(c: Clock): int {
    ClockMinute(c) * MillisPerMinute + c.second * 1000 + c.millisecond
  }

  /** Milliseconds since local midnight of the slot's instant on the same
      date, built with seconds and milliseconds set to zero. */
  function SlotMillis(s: Slot): int {
    MinuteOfDay(s) * MillisPerMinute
  }

  /** Whether the slot instant on the reading's date is strictly later than
      the reading (api/ferries.js:55-60).  Because the slot instant has no
      seconds, this is the same as the slot's minute being strictly after the
      reading's minute, so a slot at the current minute is never a future
      departure. */
  method IsFutureSlot(s: Slot, now: Clock) returns (r: bool)
    requires ValidClock(now)
    ensures r <==> MinuteOfDay(s) > ClockMinute(now)
  {
    r := SlotMillis(s) > ClockMillis(now);
  }
}
