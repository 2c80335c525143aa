/** The next-departure projector of api/ferries.js (generateRealisticFerryData,
    lines 34-98): the first four timetable slots strictly after the current
    minute, topped up from the start of tomorrow's timetable, with vessels
    assigned round-robin by output position. */
module Departures {
  import opened Timetable

  /** How many departures the projector collects. */
  const Wanted := 4

  /** The vessel names the source rotates through (api/ferries.js:45). */
  const Vessels: seq<string> := ["WENATCHEE", "SPOKANE", "WALLA WALLA", "PUYALLUP"]

  /** A projected departure; `tomorrow` is the " (tomorrow)" tag. */
  datatype Departure = Departure(slot: Slot, tomorrow: bool, vessel: string)

  function Min(a: int, b: int): int {
    if a <= b then a else b
  }

  /** The vessel shown at output position `position`. */
  function VesselAt(vessels: seq<string>, position: nat): string
    requires |vessels| > 0
  {
    vessels[position % |vessels|]
  }

  /** `[s]` when the slot lies strictly after minute `now`, else nothing. */
  function KeepIfFuture(s: Slot, now: int): seq<Slot> {
    if MinuteOfDay(s) > now then [s] else []
  }

  /** The slots among the first `i` rows of `table`, in table order, whose
      minute of day is strictly after `now`. */
  function FutureAmong(table: seq<Slot>, i: nat, now: int): (r: seq<Slot>)
    requires i <= |table|
    ensures |r| <= i
    ensures forall k :: 0 <= k < |r| ==> MinuteOfDay(r[k]) > now
  {
    if i == 0 then [] else FutureAmong(table, i - 1, now) + KeepIfFuture(table[i - 1], now)
  }

  /** All slots of `table` strictly after `now`, in table order. */
  function FutureSlots(table: seq<Slot>, now: int): seq<Slot> {
    FutureAmong(table, |table|, now)
  }

  /** The today part: the first `Wanted` future slots. */
  function TodaySlots(table: seq<Slot>, now: int): seq<Slot> {
    var future := FutureSlots(table, now);
    future[..Min(|future|, Wanted)]
  }

  /** The tomorrow part: a prefix of the timetable filling the remaining places. */
  function TomorrowSlots(table: seq<Slot>, now: int): seq<Slot> {
    var today := |TodaySlots(table, now)|;
    if today < Wanted then table[..Min(|table|, Wanted - today)] else []
  }

  /** Tags `slots` with the day flag and assigns vessels by output position,
      the first slot standing at position `start`. */
  function Label(slots: seq<Slot>, tomorrow: bool, vessels: seq<string>, start: nat): (r: seq<Departure>)
    requires |vessels| > 0
    ensures |r| == |slots|
    ensures forall k {:trigger r[k]} :: 0 <= k < |r| ==>
              r[k] == Departure(slots[k], tomorrow, VesselAt(vessels, start + k))
  {
    seq(|slots|, k requires 0 <= k < |slots| => Departure(slots[k], tomorrow, VesselAt(vessels, start + k)))
  }

  /** The departures the projector lists when the wall clock reads minute
      `now` of the day, naming vessels from `vessels`. */
  function Projection(table: seq<Slot>, vessels: seq<string>, now: int): (r: seq<Departure>)
    requires |vessels| > 0
    ensures |r| <= Wanted
  {
    var today := TodaySlots(table, now);
    Label(today, false, vessels, 0) + Label(TomorrowSlots(table, now), true, vessels, |today|)
  }

  lemma LabelSnoc(slots: seq<Slot>, s: Slot, tomorrow: bool, vessels: seq<string>, start: nat)
    requires |vessels| > 0
    ensures Label(slots + [s], tomorrow, vessels, start)
         == Label(slots, tomorrow, vessels, start) + [Departure(s, tomorrow, VesselAt(vessels, start + |slots|))]
  {
  }

  /** The future slots among the first `i` rows come first among those of
      the first `j` rows. */
  lemma {:induction false} FutureAmongPrefix(table: seq<Slot>, i: nat, j: nat, now: int)
    requires i <= j <= |table|
    ensures FutureAmong(table, i, now) <= FutureAmong(table, j, now)
    decreases j
  {
    if i < j {
      FutureAmongPrefix(table, i, j - 1, now);
    }
  }

  /** Once the first `i` rows hold `Wanted` future slots, those are the today part. */
  lemma TodayOnceFull(table: seq<Slot>, i: nat, now: int)
    requires i <= |table|
    requires |FutureAmong(table, i, now)| == Wanted
    ensures TodaySlots(table, now) == FutureAmong(table, i, now)
  {
    FutureAmongPrefix(table, i, |table|, now);
  }

  /** With fewer than `Wanted` future slots, all of them are the today part. */
  lemma TodayWhenFew(table: seq<Slot>, now: int)
    requires |FutureAmong(table, |table|, now)| < Wanted
    ensures TodaySlots(table, now) == FutureAmong(table, |table|, now)
  {
  }

  /** One step of the today scan: looking at row `i` appends its departure
      exactly when the slot is in the future. */
  lemma ScanStep(table: seq<Slot>, vessels: seq<string>, i: nat, now: int)
    requires i < |table| && |vessels| > 0
    ensures MinuteOfDay(table[i]) > now ==>
      Label(FutureAmong(table, i + 1, now), false, vessels, 0)
      == Label(FutureAmong(table, i, now), false, vessels, 0)
         + [Departure(table[i], false, VesselAt(vessels, |FutureAmong(table, i, now)|))]
    ensures MinuteOfDay(table[i]) <= now ==>
      Label(FutureAmong(table, i + 1, now), false, vessels, 0) == Label(FutureAmong(table, i, now), false, vessels, 0)
    ensures |FutureAmong(table, i + 1, now)| == |FutureAmong(table, i, now)| + (if MinuteOfDay(table[i]) > now then 1 else 0)
  {
    if MinuteOfDay(table[i]) > now {
      LabelSnoc(FutureAmong(table, i, now), table[i], false, vessels, 0);
    }
  }

  /** One step of the tomorrow top-up: row `j` joins at output position `start + j`. */
  lemma TopUpStep(table: seq<Slot>, vessels: seq<string>, j: nat, start: nat)
    requires j < |table| && |vessels| > 0
    ensures Label(table[..j + 1], true, vessels, start)
         == Label(table[..j], true, vessels, start) + [Departure(table[j], true, VesselAt(vessels, start + j))]
  {
    assert table[..j + 1] == table[..j] + [table[j]];
    LabelSnoc(table[..j], table[j], true, vessels, start);
  }

  /** The first loop of generateRealisticFerryData (api/ferries.js:53-76):
      scan today's slots, keep those strictly after the reading, stop at four. */
  method TodayDepartures(table: seq<Slot>, vessels: seq<string>, now: Clock) returns (deps: seq<Departure>)
    requires |vessels| > 0 && ValidClock(now)
    ensures deps == Label(TodaySlots(table, ClockMinute(now)), false, vessels, 0)
  {
    ghost var m := ClockMinute(now);
    deps := [];
    var i := 0;
    while i < |table|
      invariant 0 <= i <= |table|
      invariant |FutureAmong(table, i, m)| < Wanted
      invariant deps == Label(FutureAmong(table, i, m), false, vessels, 0)
    {
      var dep := table[i];
      ScanStep(table, vessels, i, m);
      var future := IsFutureSlot(dep, now);
      if future {
        deps := deps + [Departure(dep, false, VesselAt(vessels, |deps|))];
        if |deps| >= Wanted {
          assert deps == Label(FutureAmong(table, i + 1, m), false, vessels, 0);
          assert |FutureAmong(table, i + 1, m)| == Wanted;
          TodayOnceFull(table, i + 1, m);
          return;
        }
      }
      i := i + 1;
    }
    TodayWhenFew(table, m);
  }

  /** generateRealisticFerryData's departure list (api/ferries.js:53-97): the
      today scan followed by the tomorrow top-up.  The result depends on the
      clock only through its minute of day: seconds and milliseconds never
      change it. */
  method NextDepartures(table: seq<Slot>, vessels: seq<string>, now: Clock) returns (deps: seq<Departure>)
    requires |vessels| > 0 && ValidClock(now)
    ensures deps == Projection(table, vessels, ClockMinute(now))
  {
    ghost var today := TodaySlots(table, ClockMinute(now));
    deps := TodayDepartures(table, vessels, now);
    if |deps| < Wanted {
      var j := 0;
      while j < |table| && |deps| < Wanted
        invariant 0 <= j <= |table|
        invariant |deps| == |today| + j <= Wanted
        invariant deps == Label(today, false, vessels, 0) + Label(table[..j], true, vessels, |today|)
      {
        TopUpStep(table, vessels, j, |today|);
        deps := deps + [Departure(table[j], true, VesselAt(vessels, |deps|))];
        j := j + 1;
      }
    }
  }

  // ------------------------------------------------------------ properties

  /** The today scan keeps exactly the slots among the first `i` rows that lie
      strictly after the current minute. */
  lemma {:induction false} FutureAmongExactly(table: seq<Slot>, i: nat, now: int)
    requires i <= |table|
    ensures forall s :: s in FutureAmong(table, i, now) <==> s in table[..i] && MinuteOfDay(s) > now
  {
    if i > 0 {
      FutureAmongExactly(table, i - 1, now);
      assert table[..i] == table[..i - 1] + [table[i - 1]];
    }
  }

  lemma SliceSnoc(table: seq<Slot>, k: nat, i: nat)
    requires k < i <= |table|
    ensures table[k..i] == table[k..i - 1] + [table[i - 1]]
  {
  }

  /** On an ascending timetable, when row i-1 is at or before `now` so is
      every earlier row, and the scan up to row i keeps nothing. */
  lemma {:induction false} NoFutureUpTo(table: seq<Slot>, i: nat, now: int)
    requires Ascending(table) && 0 < i <= |table|
    requires MinuteOfDay(table[i - 1]) <= now
    ensures FutureAmong(table, i, now) == []
    ensures forall j :: 0 <= j < i ==> MinuteOfDay(table[j]) <= now
  {
    if i > 1 {
      assert MinuteOfDay(table[i - 2]) < MinuteOfDay(table[i - 1]);
      NoFutureUpTo(table, i - 1, now);
    }
  }

  /** On an ascending timetable the future slots among the first `i` rows are
      a contiguous run ending at row i: every row before it is at or before
      `now`. */
  lemma {:induction false} FutureAmongIsSuffix(table: seq<Slot>, i: nat, now: int)
    requires Ascending(table) && i <= |table|
    ensures forall j :: 0 <= j < i - |FutureAmong(table, i, now)| ==> MinuteOfDay(table[j]) <= now
    ensures FutureAmong(table, i, now) == table[i - |FutureAmong(table, i, now)|..i]
  {
    if i > 0 {
      if MinuteOfDay(table[i - 1]) > now {
        FutureAmongIsSuffix(table, i - 1, now);
        SliceSnoc(table, i - 1 - |FutureAmong(table, i - 1, now)|, i);
      } else {
        NoFutureUpTo(table, i, now);
      }
    }
  }

  /** The today part is the earliest min(4, #future) future slots in table
      order: a contiguous run starting at the first slot after `now`, with
      every earlier slot at or before `now` and every later one after it. */
  lemma TodayIsEarliestFuture(table: seq<Slot>, now: int)
    requires Ascending(table)
    ensures var k := |table| - |FutureSlots(table, now)|;
      && (forall j :: 0 <= j < k ==> MinuteOfDay(table[j]) <= now)
      && (forall j :: k <= j < |table| ==> MinuteOfDay(table[j]) > now)
      && TodaySlots(table, now) == table[k..k + Min(Wanted, |table| - k)]
  {
    FutureAmongIsSuffix(table, |table|, now);
    var k := |table| - |FutureSlots(table, now)|;
    assert FutureSlots(table, now) == table[k..];
    forall j | k <= j < |table|
      ensures MinuteOfDay(table[j]) > now
    {
      assert table[j] == FutureSlots(table, now)[j - k];
    }
  }

  /** In a two-block labelling the leading entries are the first block's
      slots, untagged, numbered from position 0. */
  lemma FirstBlock(x: seq<Slot>, y: seq<Slot>, vessels: seq<string>)
    requires |vessels| > 0
    ensures forall i :: 0 <= i < |x| ==>
      (Label(x, false, vessels, 0) + Label(y, true, vessels, |x|))[i] == Departure(x[i], false, VesselAt(vessels, i))
  {
    var a := Label(x, false, vessels, 0);
    var b := Label(y, true, vessels, |x|);
    forall i | 0 <= i < |x|
      ensures (a + b)[i] == Departure(x[i], false, VesselAt(vessels, i))
    {
      assert (a + b)[i] == a[i];
    }
  }

  /** The leading entries are today's slots, numbered from position 0. */
  lemma TodayEntries(table: seq<Slot>, vessels: seq<string>, now: int)
    requires |vessels| > 0
    ensures |TodaySlots(table, now)| <= |Projection(table, vessels, now)|
    ensures forall i :: 0 <= i < |TodaySlots(table, now)| ==>
      Projection(table, vessels, now)[i] == Departure(TodaySlots(table, now)[i], false, VesselAt(vessels, i))
  {
    FirstBlock(TodaySlots(table, now), TomorrowSlots(table, now), vessels);
  }

  /** In a two-block labelling whose second block is a prefix of the
      timetable, the entries past the first block are the timetable's rows
      in order, tagged tomorrow. */
  lemma {:induction false} SecondBlock(x: seq<Slot>, y: seq<Slot>, table: seq<Slot>, vessels: seq<string>)
    requires |vessels| > 0 && y <= table
    ensures forall i :: |x| <= i < |x| + |y| ==>
      (Label(x, false, vessels, 0) + Label(y, true, vessels, |x|))[i]
      == Departure(table[i - |x|], true, VesselAt(vessels, i))
  {
    var a := Label(x, false, vessels, 0);
    var b := Label(y, true, vessels, |x|);
    forall i | |x| <= i < |x| + |y|
      ensures (a + b)[i] == Departure(table[i - |x|], true, VesselAt(vessels, i))
    {
      assert (a + b)[i] == b[i - |x|];
      assert y[i - |x|] == table[i - |x|];
    }
  }

  /** The tomorrow top-up takes rows from the head of the timetable. */
  lemma TomorrowIsPrefix(table: seq<Slot>, now: int)
    ensures TomorrowSlots(table, now) <= table
  {
  }

  /** The trailing entries are the timetable's first rows, tagged tomorrow,
      numbered on from the today entries. */
  lemma TomorrowEntries(table: seq<Slot>, vessels: seq<string>, now: int)
    requires |vessels| > 0
    ensures forall i :: |TodaySlots(table, now)| <= i < |Projection(table, vessels, now)| ==>
      Projection(table, vessels, now)[i] == Departure(table[i - |TodaySlots(table, now)|], true, VesselAt(vessels, i))
  {
    TomorrowIsPrefix(table, now);
    SecondBlock(TodaySlots(table, now), TomorrowSlots(table, now), table, vessels);
  }

  /** The list never holds more than four departures, and holds exactly
      four whenever the timetable has at least four slots. */
  lemma ProjectionLength(table: seq<Slot>, vessels: seq<string>, now: int)
    requires |vessels| > 0
    ensures |Projection(table, vessels, now)| == Min(Wanted, |FutureSlots(table, now)| + |table|)
    ensures |table| >= Wanted ==> |Projection(table, vessels, now)| == Wanted
  {
    assert |Projection(table, vessels, now)| == |TodaySlots(table, now)| + |TomorrowSlots(table, now)|;
  }

  /** The vessel at output position i is vessels[i mod |vessels|], whatever
      the slot or the day. */
  lemma RoundRobinVessels(table: seq<Slot>, vessels: seq<string>, now: int)
    requires |vessels| > 0
    ensures var r := Projection(table, vessels, now);
      forall i :: 0 <= i < |r| ==> r[i].vessel == vessels[i % |vessels|]
  {
    TodayEntries(table, vessels, now);
    TomorrowEntries(table, vessels, now);
  }

  /** Today's entries come first, untagged and each strictly after `now`;
      the entries tagged tomorrow follow and are the timetable's first slots
      in order. */
  lemma TodayThenTomorrow(table: seq<Slot>, vessels: seq<string>, now: int)
    requires |vessels| > 0
    ensures var r := Projection(table, vessels, now);
      var t := |TodaySlots(table, now)|;
      && t <= |r|
      && (forall i :: 0 <= i < |r| ==> (r[i].tomorrow <==> i >= t))
      && (forall i :: 0 <= i < t ==> MinuteOfDay(r[i].slot) > now)
      && (forall i :: t <= i < |r| ==> r[i].slot == table[i - t])
  {
    var r := Projection(table, vessels, now);
    var today := TodaySlots(table, now);
    TodayEntries(table, vessels, now);
    TomorrowEntries(table, vessels, now);
    forall i | 0 <= i < |today|
      ensures MinuteOfDay(r[i].slot) > now
    {
      assert today[i] == FutureSlots(table, now)[i];
    }
  }

  /** The instant of a departure in minutes from today's midnight. */
  function Instant(d: Departure): int {
    (if d.tomorrow then MinutesPerDay else 0) + MinuteOfDay(d.slot)
  }

  /** Where a departure sits in the timetable: a today slot counted from the
      first future slot k, or tomorrow's slot counted from the first row. */
  lemma InstantOf(table: seq<Slot>, vessels: seq<string>, now: int, i: nat)
    requires Ascending(table) && |vessels| > 0
    requires i < |Projection(table, vessels, now)|
    ensures var t := |TodaySlots(table, now)|;
      var k := |table| - |FutureSlots(table, now)|;
      var d := Projection(table, vessels, now)[i];
      if i < t then k + i < |table| && !d.tomorrow && d.slot == table[k + i]
      else i - t < |table| && d.tomorrow && d.slot == table[i - t]
  {
    TodayIsEarliestFuture(table, now);
    TodayEntries(table, vessels, now);
    TomorrowEntries(table, vessels, now);
  }

  /** On a well-formed timetable the departures are in strictly increasing
      time order and every one of them, tomorrow's included, lies strictly
      after the current minute. */
  lemma Chronological(table: seq<Slot>, vessels: seq<string>, now: int)
    requires WellFormed(table) && |vessels| > 0
    requires 0 <= now < MinutesPerDay
    ensures var r := Projection(table, vessels, now);
      && (forall i :: 0 <= i < |r| ==> Instant(r[i]) > now)
      && (forall i, j :: 0 <= i < j < |r| ==> Instant(r[i]) < Instant(r[j]))
  {
    var r := Projection(table, vessels, now);
    var t := |TodaySlots(table, now)|;
    var k := |table| - |FutureSlots(table, now)|;
    TodayIsEarliestFuture(table, now);
    forall i | 0 <= i < |r|
      ensures Instant(r[i]) > now
      ensures i < t ==> Instant(r[i]) < MinutesPerDay
      ensures i >= t ==> Instant(r[i]) >= MinutesPerDay
    {
      InstantOf(table, vessels, now, i);
      if i < t {
        assert ValidSlot(table[k + i]);
      } else {
        assert ValidSlot(table[i - t]);
      }
    }
    forall i, j | 0 <= i < j < |r|
      ensures Instant(r[i]) < Instant(r[j])
    {
      InstantOf(table, vessels, now, i);
      InstantOf(table, vessels, now, j);
    }
  }

  /** Day rollover: once the last slot of the day is at or before `now`,
      every departure is tomorrow's and they are the timetable's first slots,
      the first of them on the first vessel. */
  lemma Rollover(table: seq<Slot>, vessels: seq<string>, now: int)
    requires Ascending(table) && |vessels| > 0
    requires |table| > 0 && MinuteOfDay(table[|table| - 1]) <= now
    ensures Projection(table, vessels, now) == Label(table[..Min(Wanted, |table|)], true, vessels, 0)
    ensures Projection(table, vessels, now)[0] == Departure(table[0], true, vessels[0])
  {
    NoFutureUpTo(table, |table|, now);
    assert TodaySlots(table, now) == [];
  }

  /** Four slots labelled from position 0 get the source's four vessels in order. */
  lemma LabelFour(slots: seq<Slot>, tomorrow: bool)
    requires |slots| == 4
    ensures Label(slots, tomorrow, Vessels, 0) == [
      Departure(slots[0], tomorrow, "WENATCHEE"),
      Departure(slots[1], tomorrow, "SPOKANE"),
      Departure(slots[2], tomorrow, "WALLA WALLA"),
      Departure(slots[3], tomorrow, "PUYALLUP")]
  {
  }

  /** At 14:00 the next four departures from Seattle are 14:10, 15:25, 16:40
      and 17:55, all today, on the four vessels in order. */
  lemma AfternoonScenario()
    ensures Projection(SeattleToBainbridge(), Vessels, 14 * 60) == [
      Departure(Slot(14, 10), false, "WENATCHEE"),
      Departure(Slot(15, 25), false, "SPOKANE"),
      Departure(Slot(16, 40), false, "WALLA WALLA"),
      Departure(Slot(17, 55), false, "PUYALLUP")]
  {
    var table := SeattleToBainbridge();
    TodayIsEarliestFuture(table, 14 * 60);
    var k := |table| - |FutureSlots(table, 14 * 60)|;
    assert MinuteOfDay(table[6]) <= 14 * 60 < MinuteOfDay(table[7]);
    assert k == 7;
    LabelFour(table[7..11], false);
  }

  /** At 23:30, after the 22:55 last sailing, all four departures are
      tomorrow's 5:20, 6:25, 7:55 and 9:10. */
  lemma LateNightScenario()
    ensures Projection(SeattleToBainbridge(), Vessels, 23 * 60 + 30) == [
      Departure(Slot(5, 20), true, "WENATCHEE"),
      Departure(Slot(6, 25), true, "SPOKANE"),
      Departure(Slot(7, 55), true, "WALLA WALLA"),
      Departure(Slot(9, 10), true, "PUYALLUP")]
  {
    var table := SeattleToBainbridge();
    Rollover(table, Vessels, 23 * 60 + 30);
    FirstFourSailings();
    LabelFour(table[..Wanted], true);
  }

  lemma FirstFourSailings()
    ensures SeattleToBainbridge()[..Wanted] == [Slot(5, 20), Slot(6, 25), Slot(7, 55), Slot(9, 10)]
  {
  }
}
