/**
 The public booking page's slot computation: today's date string in the
 salon's civil calendar, the fixed slot catalog and the availability filter.
 The current civil date and time are parameters (the page reads them from the
 wall clock in the salon's time zone).
 */
module Availability {
  import opened Types
  import opened Text
  import opened Seqs

  // ---------------------------------------------------------------------------
  // Today's date as an ISO 8601 calendar date
  // ---------------------------------------------------------------------------

  /**
   `${year}-${month}-${day}` with the month (`getMonth()`, counted from 0)
   shifted by one and both month and day zero-padded to two digits. For a
   four-digit year this is the complete calendar date of ISO 8601 in its
   extended format, YYYY-MM-DD.
   */
  function TodayStr(year: nat, monthIndex: nat, day: nat): (r: string)
    requires monthIndex < 12 && 1 <= day <= 31
    ensures |r| == |Decimal(year)| + 6
    ensures r[|r| - 6] == '-' && r[|r| - 3] == '-'
  {
    Decimal(year) + "-" + TwoDigits(monthIndex + 1) + "-" + TwoDigits(day)
  }

  /** For a four-digit year, today's string is exactly ten characters, YYYY-MM-DD. */
  lemma {:induction false} TodayStrTenChars(year: nat, monthIndex: nat, day: nat)
    requires 1000 <= year <= 9999
    requires monthIndex < 12 && 1 <= day <= 31
    ensures |TodayStr(year, monthIndex, day)| == 10
  {
    DecimalLength(year);
  }

  lemma {:induction false} DecimalLength(n: nat)
    requires 1000 <= n <= 9999
    ensures |Decimal(n)| == 4
  {
    assert Decimal(n) == Decimal(n / 10) + [DigitChar(n % 10)];
    assert Decimal(n / 10) == Decimal(n / 100) + [DigitChar(n / 10 % 10)];
    assert Decimal(n / 100) == Decimal(n / 1000) + [DigitChar(n / 100 % 10)];
    assert n / 1000 < 10;
  }

  /** Splits `year-MM-DD` at its two dashes, counted from the end. */
  function SplitDate(s: string): Option<(string, string, string)> {
    if |s| >= 7 && s[|s| - 6] == '-' && s[|s| - 3] == '-'
    then Some((s[..|s| - 6], s[|s| - 5..|s| - 3], s[|s| - 2..]))
    else None
  }

  /** Reads a `year-MM-DD` string back into (year, month, day). */
  function ParseDateStr(s: string): Option<(nat, nat, nat)> {
    match SplitDate(s)
    case None => None
    case Some((y, m, d)) =>
      if AllDigits(y) && AllDigits(m) && AllDigits(d)
      then Some((ParseDecimal(y), ParseDecimal(m), ParseDecimal(d)))
      else None
  }

  lemma SplitDateParts(y: string, m: string, d: string)
    requires |y| > 0 && |m| == 2 && |d| == 2
    ensures SplitDate(y + "-" + m + "-" + d) == Some((y, m, d))
  {
    var s := y + "-" + m + "-" + d;
    assert s[..|s| - 6] == y;
    assert s[|s| - 5..|s| - 3] == m;
    assert s[|s| - 2..] == d;
  }

  /** Today's string names the year, the calendar month (1-based) and the day it was built from. */
  lemma {:induction false} TodayStrRoundTrip(year: nat, monthIndex: nat, day: nat)
    requires monthIndex < 12 && 1 <= day <= 31
    ensures ParseDateStr(TodayStr(year, monthIndex, day)) == Some((year, monthIndex + 1, day))
  {
    DecimalRoundTrip(year);
    SplitDateParts(Decimal(year), TwoDigits(monthIndex + 1), TwoDigits(day));
  }

  // ---------------------------------------------------------------------------
  // The slot catalog
  // ---------------------------------------------------------------------------

  /** The bookable start times of every day, earliest first. */
  const Catalog: seq<string> := ["08:00", "13:00", "14:00"]

  datatype Clock = Clock(hour: nat, minute: nat)

  /** A time written HH:MM. */
  predicate IsClockText(t: string) {
    |t| == 5 && IsDigit(t[0]) && IsDigit(t[1]) && t[2] == ':' && IsDigit(t[3]) && IsDigit(t[4])
  }

  /** `time.split(':').map(Number)` for a time written HH:MM. */
  function ClockOf(t: string): Clock
    requires IsClockText(t)
  {
    Clock(ParseDecimal(t[..2]), ParseDecimal(t[3..]))
  }

  lemma TwoDigitValue(s: string)
    requires |s| == 2 && IsDigit(s[0]) && IsDigit(s[1])
    ensures AllDigits(s) && ParseDecimal(s) == DigitValue(s[0]) * 10 + DigitValue(s[1])
  {
    var h := s[..1];
    assert h[..0] == [] && h[0] == s[0];
    assert ParseDecimal(h) == DigitValue(s[0]);
    assert s[..|s| - 1] == h;
  }

  lemma ClockOfDigits(t: string)
    requires IsClockText(t)
    ensures ClockOf(t) == Clock(DigitValue(t[0]) * 10 + DigitValue(t[1]), DigitValue(t[3]) * 10 + DigitValue(t[4]))
  {
    TwoDigitValue(t[..2]);
    TwoDigitValue(t[3..]);
  }

  /** The catalog's slots start at 08:00, 13:00 and 14:00, in that order. */
  lemma CatalogClocks()
    ensures |Catalog| == 3
    ensures forall i :: 0 <= i < |Catalog| ==> IsClockText(Catalog[i])
    ensures ClockOf(Catalog[0]) == Clock(8, 0)
    ensures ClockOf(Catalog[1]) == Clock(13, 0)
    ensures ClockOf(Catalog[2]) == Clock(14, 0)
  {
    ClockOfDigits(Catalog[0]);
    ClockOfDigits(Catalog[1]);
    ClockOfDigits(Catalog[2]);
  }

  // ---------------------------------------------------------------------------
  // The availability filter
  // ---------------------------------------------------------------------------

  /** The test that drops a slot on today's date: it starts at or before the current minute. */
  predicate SlotInPast(slot: Clock, now: Clock) {
    slot.hour < now.hour || (slot.hour == now.hour && slot.minute <= now.minute)
  }

  /** Start times strictly after `now`. */
  predicate StartsAfter(slot: Clock, now: Clock) {
    slot.hour > now.hour || (slot.hour == now.hour && slot.minute > now.minute)
  }

  /** Not dropped as past means starting strictly after the current minute. */
  lemma NotPastIffStartsAfter(slot: Clock, now: Clock)
    ensures !SlotInPast(slot, now) <==> StartsAfter(slot, now)
  {
  }

  /** An appointment holds a slot when it is on that date and time and is not cancelled. */
  predicate Holds(a: Appointment, date: string, time: string) {
    a.date == date && a.time == time && a.status != Cancelled
  }

  /** `appointments.some(...)`: some appointment holds the slot. */
  predicate Occupied(apps: seq<Appointment>, date: string, time: string) {
    exists i :: 0 <= i < |apps| && Holds(apps[i], date, time)
  }

  /** The filter's test for one slot of a non-empty selected date. */
  predicate KeepSlot(t: string, selectedDate: string, today: string, now: Clock, apps: seq<Appointment>) {
    IsClockText(t)
    && !(selectedDate == today && SlotInPast(ClockOf(t), now))
    && !Occupied(apps, selectedDate, t)
  }

  /** The slots still offered for `selectedDate`, in catalog order. */
  function AvailableTimeSlots(selectedDate: string, today: string, now: Clock, apps: seq<Appointment>): (r: seq<string>)
    ensures selectedDate == "" ==> r == []
    ensures IsSubsequence(r, Catalog)
    ensures forall t :: t in r <==> t in Catalog && selectedDate != "" && KeepSlot(t, selectedDate, today, now, apps)
  {
    if selectedDate == "" then []
    else
      var keep := t => KeepSlot(t, selectedDate, today, now, apps);
      FilterIsSubsequence(Catalog, keep);
      Filter(Catalog, keep)
  }

  // ---------------------------------------------------------------------------
  // Properties of the filter
  // ---------------------------------------------------------------------------

  /**
   A slot is offered exactly when it is in the catalog, a date is selected, it
   starts strictly after the current minute if that date is today, and no
   appointment that is not cancelled holds it.
   */
  lemma {:induction false} AvailableIff(selectedDate: string, today: string, now: Clock, apps: seq<Appointment>, t: string)
    ensures t in AvailableTimeSlots(selectedDate, today, now, apps) <==>
      && t in Catalog
      && selectedDate != ""
      && IsClockText(t)
      && (selectedDate == today ==> StartsAfter(ClockOf(t), now))
      && !Occupied(apps, selectedDate, t)
  {
    CatalogClocks();
    if IsClockText(t) {
      NotPastIffStartsAfter(ClockOf(t), now);
    }
  }

  /** On today's date, no slot at or before the current minute is offered. */
  lemma {:induction false} NoPastSlotToday(today: string, now: Clock, apps: seq<Appointment>, t: string)
    requires t in AvailableTimeSlots(today, today, now, apps)
    ensures IsClockText(t) && !SlotInPast(ClockOf(t), now)
  {
  }

  /** No offered slot is held by an appointment that is not cancelled. */
  lemma {:induction false} NoHeldSlotOffered(selectedDate: string, today: string, now: Clock, apps: seq<Appointment>, i: int)
    requires 0 <= i < |apps| && apps[i].status != Cancelled && apps[i].date == selectedDate
    ensures apps[i].time !in AvailableTimeSlots(selectedDate, today, now, apps)
  {
    assert Holds(apps[i], selectedDate, apps[i].time);
  }

  /** Adding a cancelled appointment never changes which slots are held. */
  lemma {:induction false} CancelledHoldsNothing(apps: seq<Appointment>, a: Appointment, date: string, t: string)
    requires a.status == Cancelled
    ensures Occupied(apps + [a], date, t) <==> Occupied(apps, date, t)
  {
    if Occupied(apps + [a], date, t) {
      var i :| 0 <= i < |apps + [a]| && Holds((apps + [a])[i], date, t);
      assert i < |apps| && (apps + [a])[i] == apps[i];
    }
    if Occupied(apps, date, t) {
      var i :| 0 <= i < |apps| && Holds(apps[i], date, t);
      assert (apps + [a])[i] == apps[i];
    }
  }

  /** A cancelled appointment never takes a slot away. */
  lemma {:induction false} CancelledNeverSuppresses(selectedDate: string, today: string, now: Clock, apps: seq<Appointment>, a: Appointment)
    requires a.status == Cancelled
    ensures AvailableTimeSlots(selectedDate, today, now, apps + [a]) == AvailableTimeSlots(selectedDate, today, now, apps)
  {
    forall t {
      CancelledHoldsNothing(apps, a, selectedDate, t);
    }
    FilterCongruent(Catalog,
      t => KeepSlot(t, selectedDate, today, now, apps + [a]),
      t => KeepSlot(t, selectedDate, today, now, apps));
  }

  /** On any date other than today, occupancy is the only test: past dates are not rejected. */
  lemma {:induction false} OtherDateOnlyOccupancy(selectedDate: string, today: string, now: Clock, apps: seq<Appointment>, t: string)
    requires selectedDate != "" && selectedDate != today
    ensures t in AvailableTimeSlots(selectedDate, today, now, apps) <==> t in Catalog && !Occupied(apps, selectedDate, t)
  {
    CatalogClocks();
  }

  /** The filter's test for a slot starting at `c`, once its text has been read. */
  predicate OpenAt(c: Clock, t: string, selectedDate: string, today: string, now: Clock, apps: seq<Appointment>) {
    !(selectedDate == today && SlotInPast(c, now)) && !Occupied(apps, selectedDate, t)
  }

  /** The three catalog slots, each kept or dropped by the filter's test, in catalog order. */
  lemma AvailableSpelledOut(selectedDate: string, today: string, now: Clock, apps: seq<Appointment>)
    requires selectedDate != ""
    ensures AvailableTimeSlots(selectedDate, today, now, apps) ==
      (if OpenAt(Clock(8, 0), "08:00", selectedDate, today, now, apps) then ["08:00"] else [])
      + ((if OpenAt(Clock(13, 0), "13:00", selectedDate, today, now, apps) then ["13:00"] else [])
      + (if OpenAt(Clock(14, 0), "14:00", selectedDate, today, now, apps) then ["14:00"] else []))
  {
    CatalogClocks();
    var keep := t => KeepSlot(t, selectedDate, today, now, apps);
    assert keep("08:00") == OpenAt(Clock(8, 0), "08:00", selectedDate, today, now, apps);
    assert keep("13:00") == OpenAt(Clock(13, 0), "13:00", selectedDate, today, now, apps);
    assert keep("14:00") == OpenAt(Clock(14, 0), "14:00", selectedDate, today, now, apps);
    FilterThree("08:00", "13:00", "14:00", keep);
  }

  /** With no appointments at all, a date other than today offers the whole catalog. */
  lemma {:induction false} OtherDateEmptyAgenda(selectedDate: string, today: string, now: Clock)
    requires selectedDate != "" && selectedDate != today
    ensures AvailableTimeSlots(selectedDate, today, now, []) == Catalog
  {
    AvailableSpelledOut(selectedDate, today, now, []);
  }

  /** At 07:00 on an empty day every slot is offered. */
  lemma {:induction false} EarlyMorningAllSlots(today: string)
    requires today != ""
    ensures AvailableTimeSlots(today, today, Clock(7, 0), []) == ["08:00", "13:00", "14:00"]
  {
    AvailableSpelledOut(today, today, Clock(7, 0), []);
  }

  /** At 08:30 the 08:00 slot is gone. */
  lemma {:induction false} MidMorningDropsPastSlot(today: string)
    requires today != ""
    ensures AvailableTimeSlots(today, today, Clock(8, 30), []) == ["13:00", "14:00"]
  {
    AvailableSpelledOut(today, today, Clock(8, 30), []);
  }

  /** At exactly 13:00 the 13:00 slot is no longer offered: a slot must start strictly after now. */
  lemma {:induction false} SlotAtCurrentMinuteDropped(today: string)
    requires today != ""
    ensures AvailableTimeSlots(today, today, Clock(13, 0), []) == ["14:00"]
  {
    AvailableSpelledOut(today, today, Clock(13, 0), []);
  }

  /** A scheduled 13:00 appointment on a date other than today hides exactly that slot. */
  lemma {:induction false} ScheduledHidesSlot(d: string, today: string, now: Clock, a: Appointment)
    requires d != "" && d != today
    requires a.date == d && a.time == "13:00" && a.status == Scheduled
    ensures AvailableTimeSlots(d, today, now, [a]) == ["08:00", "14:00"]
  {
    assert Holds([a][0], d, "13:00");
    AvailableSpelledOut(d, today, now, [a]);
  }

  /** The same appointment, cancelled, hides nothing. */
  lemma {:induction false} CancelledHidesNoSlot(d: string, today: string, now: Clock, a: Appointment)
    requires d != "" && d != today
    requires a.status == Cancelled
    ensures AvailableTimeSlots(d, today, now, [a]) == ["08:00", "13:00", "14:00"]
  {
    CancelledNeverSuppresses(d, today, now, [], a);
    OtherDateEmptyAgenda(d, today, now);
    assert [] + [a] == [a];
  }

  /** A scheduled 13:00 appointment hides that slot; cancelling it brings the slot back. */
  lemma {:induction false} CancellingFreesSlot(d: string, today: string, now: Clock, a: Appointment)
    requires d != "" && d != today
    requires a.date == d && a.time == "13:00" && a.status == Scheduled
    ensures AvailableTimeSlots(d, today, now, [a]) == ["08:00", "14:00"]
    ensures AvailableTimeSlots(d, today, now, [a.(status := Cancelled)]) == ["08:00", "13:00", "14:00"]
  {
    ScheduledHidesSlot(d, today, now, a);
    CancelledHidesNoSlot(d, today, now, a.(status := Cancelled));
  }
}
