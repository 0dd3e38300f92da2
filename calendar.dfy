/**
 * The month view of frontend/src/calendar/Calendar.tsx: the slots sorted
 * by start time in place and put into one bucket per calendar day, and the
 * grid of day cells for the selected month. The calendar facts of a month
 * (its number of days, the weekdays of its first and last day) and the UTC
 * components of a date are inputs; `utc` gives the components of a
 * millisecond timestamp.
 */
module Calendar {
  import opened Wrappers
  import opened Text
  import Utils

  type CalendarSlot = Utils.CalendarSlot

  /** The UTC components of a date: month 0-based, as `getUTCMonth` gives it. */
  datatype DateParts = DateParts(year: int, month: int, date: int, hours: nat, minutes: nat)

  /** The facts about the selected month that `Date` computes. */
  datatype MonthFacts = MonthFacts(daysInMonth: nat, firstWeekday: nat, lastWeekday: nat)

  datatype DayStatus = NotInMonth | Regular | Today | DifferentMonth

  datatype SlotEntry = SlotEntry(id: string, title: string)

  datatype Day = Day(title: string, status: DayStatus, slots: Option<seq<SlotEntry>>)

  /** A calendar day, standing for the timestamp of its local midnight used as the bucket key. */
  datatype DayKey = DayKey(year: int, month: int, day: int)

  /** `formatTime(hour, minutes)` of the calendar: "HH:MM", both zero-padded to two digits. */
  function FormatTime(hour: nat, minutes: nat): (r: string)
    ensures hour < 100 && minutes < 100 ==>
              |r| == 5 && AllDigits(r[..2]) && ParseDigits(r[..2]) == hour && r[2] == ':'
              && AllDigits(r[3..5]) && ParseDigits(r[3..5]) == minutes
  {
    var h, m := Pad2(hour), Pad2(minutes);
    var r := h + ":" + m;
    if hour < 100 && minutes < 100 then
      FieldLayout(h, ":", m, "");
      assert r == h + ":" + m + "";
      r
    else r
  }

  /** The list view's time is the calendar's time with " UTC" after it. */
  lemma FormatTimeUtc(hour: nat, minutes: nat)
    ensures Utils.FormatTime(hour, minutes) == FormatTime(hour, minutes) + " UTC"
  {
  }

  // ---- sortCalendarSlots ----

  predicate SortedByStartTime(s: seq<CalendarSlot>) {
    forall i, j :: 0 <= i < j < |s| ==> s[i].startTime <= s[j].startTime
  }

  method Swap(a: array<CalendarSlot>, i: nat, j: nat)
    requires i < a.Length && j < a.Length
    modifies a
    ensures a[..] == old(a[..])[i := old(a[j])][j := old(a[i])]
    ensures multiset(a[..]) == old(multiset(a[..]))
  {
    a[i], a[j] := a[j], a[i];
  }

  /** `slots.sort((a, b) => a.startTime - b.startTime)`, in place, as an insertion sort. */
  method SortByStartTime(a: array<CalendarSlot>)
    modifies a
    ensures SortedByStartTime(a[..])
    ensures multiset(a[..]) == old(multiset(a[..]))
  {
    var i := 0;
    while i < a.Length
      invariant 0 <= i <= a.Length
      invariant SortedByStartTime(a[..i])
      invariant multiset(a[..]) == old(multiset(a[..]))
    {
      var j := i;
      while j > 0 && a[j - 1].startTime > a[j].startTime
        invariant 0 <= j <= i
        invariant forall k, l :: 0 <= k < l <= i && k != j && l != j ==> a[k].startTime <= a[l].startTime
        invariant forall l :: j < l <= i ==> a[j].startTime <= a[l].startTime
        invariant multiset(a[..]) == old(multiset(a[..]))
      {
        Swap(a, j - 1, j);
        j := j - 1;
      }
      i := i + 1;
    }
  }

  /** The bucket key of a slot: the UTC calendar date it starts on. */
  function DayOf(slot: CalendarSlot, utc: int -> DateParts): (k: DayKey)
    ensures var p := utc(slot.startTime); k.year == p.year && k.month == p.month && k.day == p.date
  {
    var p := utc(slot.startTime);
    DayKey(p.year, p.month, p.date)
  }

  /** Two slots share a bucket key exactly when they start on the same UTC date. */
  lemma SameDayKey(a: CalendarSlot, b: CalendarSlot, utc: int -> DateParts)
    ensures var pa := utc(a.startTime); var pb := utc(b.startTime);
      DayOf(a, utc) == DayOf(b, utc) <==> pa.year == pb.year && pa.month == pb.month && pa.date == pb.date
  {
  }

  /** The slots of one day, in list order. */
  function Bucket(s: seq<CalendarSlot>, key: DayKey, utc: int -> DateParts): (b: seq<CalendarSlot>)
    ensures forall i :: 0 <= i < |b| ==> DayOf(b[i], utc) == key
  {
    if s == [] then []
    else Bucket(s[..|s| - 1], key, utc) + (if DayOf(s[|s| - 1], utc) == key then [s[|s| - 1]] else [])
  }

  /** The days that have at least one slot. */
  function DaysOf(s: seq<CalendarSlot>, utc: int -> DateParts): set<DayKey> {
    set i | 0 <= i < |s| :: DayOf(s[i], utc)
  }

  /** The buckets: one per day with slots. */
  function Grouped(s: seq<CalendarSlot>, utc: int -> DateParts): map<DayKey, seq<CalendarSlot>> {
    map key | key in DaysOf(s, utc) :: Bucket(s, key, utc)
  }

  /** A slot is in the bucket of a day exactly when it is in the list and starts that day. */
  lemma {:induction false} BucketMembers(s: seq<CalendarSlot>, key: DayKey, utc: int -> DateParts, x: CalendarSlot)
    ensures x in Bucket(s, key, utc) <==> x in s && DayOf(x, utc) == key
  {
    if s != [] {
      BucketMembers(s[..|s| - 1], key, utc, x);
      assert s == s[..|s| - 1] + [s[|s| - 1]];
    }
  }

  /** Each bucket of a sorted list is sorted. */
  lemma {:induction false} BucketSorted(s: seq<CalendarSlot>, key: DayKey, utc: int -> DateParts)
    requires SortedByStartTime(s)
    ensures SortedByStartTime(Bucket(s, key, utc))
  {
    if s != [] {
      var init := s[..|s| - 1];
      var last := s[|s| - 1];
      BucketSorted(init, key, utc);
      if DayOf(last, utc) == key {
        var b := Bucket(init, key, utc);
        forall x | x in b ensures x.startTime <= last.startTime {
          BucketMembers(init, key, utc, x);
        }
        var b' := b + [last];
        forall i, j | 0 <= i < j < |b'| ensures b'[i].startTime <= b'[j].startTime {
          if j == |b| {
            assert b'[i] in b;
          }
        }
      }
    }
  }

  /**
   * Every slot is in exactly one bucket, that of the day it starts on, and
   * every bucket is sorted when the list is.
   */
  lemma EverySlotInOneBucket(s: seq<CalendarSlot>, utc: int -> DateParts, x: CalendarSlot, key: DayKey)
    requires x in s
    ensures DayOf(x, utc) in Grouped(s, utc)
    ensures key in Grouped(s, utc) && x in Grouped(s, utc)[key] <==> key == DayOf(x, utc)
    ensures SortedByStartTime(s) && key in Grouped(s, utc) ==> SortedByStartTime(Grouped(s, utc)[key])
  {
    var i :| 0 <= i < |s| && s[i] == x;
    assert DayOf(s[i], utc) in DaysOf(s, utc);
    BucketMembers(s, key, utc, x);
    if SortedByStartTime(s) {
      BucketSorted(s, key, utc);
    }
  }

  /** The `forEach` that fills the buckets from the sorted list. */
  method GroupByDay(sorted: seq<CalendarSlot>, utc: int -> DateParts) returns (byDay: map<DayKey, seq<CalendarSlot>>)
    ensures byDay == Grouped(sorted, utc)
  {
    byDay := map[];
    var i := 0;
    while i < |sorted|
      invariant 0 <= i <= |sorted|
      invariant byDay == Grouped(sorted[..i], utc)
    {
      var slot := sorted[i];
      var day := DayOf(slot, utc);
      if day !in byDay {
        byDay := byDay[day := []];
      }
      byDay := byDay[day := byDay[day] + [slot]];
      GroupedStep(sorted[..i], slot, utc);
      assert sorted[..i + 1] == sorted[..i] + [slot];
      i := i + 1;
    }
    assert sorted[..|sorted|] == sorted;
  }

  lemma {:induction false} BucketEmpty(s: seq<CalendarSlot>, key: DayKey, utc: int -> DateParts)
    requires forall j :: 0 <= j < |s| ==> DayOf(s[j], utc) != key
    ensures Bucket(s, key, utc) == []
  {
    if s != [] {
      BucketEmpty(s[..|s| - 1], key, utc);
    }
  }

  lemma GroupedStep(s: seq<CalendarSlot>, slot: CalendarSlot, utc: int -> DateParts)
    ensures var g := Grouped(s, utc);
      var day := DayOf(slot, utc);
      Grouped(s + [slot], utc) == g[day := (if day in g then g[day] else []) + [slot]]
  {
    var g := Grouped(s, utc);
    var day := DayOf(slot, utc);
    var s' := s + [slot];
    assert s'[..|s'| - 1] == s;
    assert DaysOf(s', utc) == DaysOf(s, utc) + {day} by {
      forall k | k in DaysOf(s', utc) ensures k in DaysOf(s, utc) + {day} {
        var i :| 0 <= i < |s'| && DayOf(s'[i], utc) == k;
        if i < |s| {
          assert s'[i] == s[i];
        }
      }
      forall k | k in DaysOf(s, utc) ensures k in DaysOf(s', utc) {
        var i :| 0 <= i < |s| && DayOf(s[i], utc) == k;
        assert s'[i] == s[i];
      }
      assert DayOf(s'[|s|], utc) == day;
    }
    if day !in g {
      forall j | 0 <= j < |s| ensures DayOf(s[j], utc) != day {
        assert DayOf(s[j], utc) in DaysOf(s, utc);
      }
      BucketEmpty(s, day, utc);
    }
    var g' := g[day := (if day in g then g[day] else []) + [slot]];
    forall k | k in DaysOf(s', utc) ensures Grouped(s', utc)[k] == g'[k] {
      assert Bucket(s', k, utc) == Bucket(s, k, utc) + (if day == k then [slot] else []);
    }
  }

  /** `sortCalendarSlots`: the input array ends up sorted, and the map holds the bucket of every day with slots. */
  method SortCalendarSlots(slots: array<CalendarSlot>, utc: int -> DateParts) returns (byDay: map<DayKey, seq<CalendarSlot>>)
    modifies slots
    ensures SortedByStartTime(slots[..]) && multiset(slots[..]) == old(multiset(slots[..]))
    ensures byDay == Grouped(slots[..], utc)
  {
    SortByStartTime(slots);
    byDay := GroupByDay(slots[..], utc);
  }

  // ---- getDaysArrayForCurrentMonth ----

  /** A cell of the grid outside the month. */
  const Blank: Day := Day("", NotInMonth, None)

  /**
   * The status of a day of the month shown: DifferentMonth when the shown
   * month is not today's, otherwise Today on the shown date and Regular on
   * every other day; never NotInMonth.
   */
  function StatusOf(date: DateParts, today: DateParts, day: nat): (st: DayStatus)
    ensures st != NotInMonth
    ensures st == DifferentMonth <==> date.year != today.year || date.month != today.month
    ensures st == Today <==> date.year == today.year && date.month == today.month && day == date.date
  {
    if date.year != today.year || date.month != today.month then DifferentMonth
    else if day == date.date then Today
    else Regular
  }

  /** A slot's line in its day cell: "HH:MM - N min.". */
  function SlotTitle(slot: CalendarSlot, utc: int -> DateParts): (title: string)
    ensures var p := utc(slot.startTime);
      var n := IntToString(slot.durationInMinutes);
      p.hours < 100 && p.minutes < 100 ==>
        && |title| == 13 + |n| && title[..5] == FormatTime(p.hours, p.minutes) && title[5..8] == " - "
        && title[8..|title| - 5] == n && title[|title| - 5..] == " min."
  {
    var p := utc(slot.startTime);
    var t := FormatTime(p.hours, p.minutes);
    var n := IntToString(slot.durationInMinutes);
    var title := t + " - " + n + " min.";
    if p.hours < 100 && p.minutes < 100 then
      TitleLayout(t, n);
      title
    else title
  }

  /** The entries of a day cell: absent when no slot starts that day. */
  function SlotsOfDay(byDay: map<DayKey, seq<CalendarSlot>>, key: DayKey, utc: int -> DateParts): (r: Option<seq<SlotEntry>>)
    ensures r.None? <==> key !in byDay
    ensures r.Some? ==>
              && |r.value| == |byDay[key]|
              && forall i :: 0 <= i < |r.value| ==>
                   r.value[i].id == byDay[key][i].id && r.value[i].title == SlotTitle(byDay[key][i], utc)
  {
    if key in byDay then
      Some(seq(|byDay[key]|, i requires 0 <= i < |byDay[key]| => SlotEntry(byDay[key][i].id, SlotTitle(byDay[key][i], utc))))
    else None
  }

  function DayCell(date: DateParts, today: DateParts, byDay: map<DayKey, seq<CalendarSlot>>,
                   utc: int -> DateParts, day: nat): Day {
    Day(NatToString(day), StatusOf(date, today, day), SlotsOfDay(byDay, DayKey(date.year, date.month, day), utc))
  }

  /** The blank cells after the last day: the row is filled up to Saturday (weekday 6). */
  function Trailing(month: MonthFacts): (n: nat)
    ensures month.lastWeekday + n >= 6
    ensures month.lastWeekday < 6 ==> month.lastWeekday + n == 6
    ensures month.lastWeekday >= 6 ==> n == 0
  {
    if month.lastWeekday < 6 then 6 - month.lastWeekday else 0
  }

  /** The grid: blank cells up to the first weekday, the days of the month, blank cells up to Saturday. */
  function MonthGrid(date: DateParts, today: DateParts, month: MonthFacts,
                     byDay: map<DayKey, seq<CalendarSlot>>, utc: int -> DateParts): (g: seq<Day>)
    ensures |g| == month.firstWeekday + month.daysInMonth + Trailing(month)
  {
    seq(month.firstWeekday, _ => Blank)
    + seq(month.daysInMonth, i requires 0 <= i < month.daysInMonth => DayCell(date, today, byDay, utc, i + 1))
    + seq(Trailing(month), _ => Blank)
  }

  /** The three loops that build the grid. */
  method LayOutMonth(date: DateParts, today: DateParts, month: MonthFacts,
                     byDay: map<DayKey, seq<CalendarSlot>>, utc: int -> DateParts) returns (days: seq<Day>)
    ensures days == MonthGrid(date, today, month, byDay, utc)
  {
    days := [];
    var prefixDays := 0;
    while prefixDays < month.firstWeekday
      invariant prefixDays <= month.firstWeekday
      invariant days == seq(prefixDays, _ => Blank)
    {
      days := days + [Blank];
      prefixDays := prefixDays + 1;
    }
    ghost var leading := days;
    var day := 1;
    while day <= month.daysInMonth
      invariant 1 <= day <= month.daysInMonth + 1
      invariant days == leading + seq(day - 1, i requires 0 <= i < day - 1 => DayCell(date, today, byDay, utc, i + 1))
    {
      days := days + [DayCell(date, today, byDay, utc, day)];
      day := day + 1;
    }
    ghost var body := days;
    var suffixDays := month.lastWeekday;
    while suffixDays < 6
      invariant month.lastWeekday <= suffixDays
      invariant suffixDays == month.lastWeekday || suffixDays <= 6
      invariant days == body + seq(suffixDays - month.lastWeekday, _ => Blank)
    {
      days := days + [Blank];
      suffixDays := suffixDays + 1;
    }
  }

  /** `getDaysArrayForCurrentMonth`: sorts the slots in place, buckets them and lays out the month. */
  method GetDaysArrayForCurrentMonth(date: DateParts, today: DateParts, month: MonthFacts,
                                     slots: array<CalendarSlot>, utc: int -> DateParts) returns (days: seq<Day>)
    modifies slots
    ensures SortedByStartTime(slots[..]) && multiset(slots[..]) == old(multiset(slots[..]))
    ensures days == MonthGrid(date, today, month, Grouped(slots[..], utc), utc)
  {
    var byDay := SortCalendarSlots(slots, utc);
    days := LayOutMonth(date, today, month, byDay, utc);
  }

  /** The grid fills whole weeks of seven cells. */
  lemma {:induction false} MonthGridWholeWeeks(date: DateParts, today: DateParts, month: MonthFacts,
                                               byDay: map<DayKey, seq<CalendarSlot>>, utc: int -> DateParts)
    requires month.firstWeekday < 7 && month.daysInMonth >= 1
    requires month.lastWeekday == (month.firstWeekday + month.daysInMonth - 1) % 7
    ensures |MonthGrid(date, today, month, byDay, utc)| % 7 == 0
  {
    var n := month.firstWeekday + month.daysInMonth - 1;
    assert n == 7 * (n / 7) + month.lastWeekday;
    assert |MonthGrid(date, today, month, byDay, utc)| == 7 * (n / 7) + 7;
  }

  /**
   * The cells of the grid: blank outside the month; inside it, the day's
   * number as its title and its slots. In the month of today exactly the
   * selected day is marked Today; in any other month every day is marked
   * DifferentMonth.
   */
  lemma MonthGridCells(date: DateParts, today: DateParts, month: MonthFacts,
                       byDay: map<DayKey, seq<CalendarSlot>>, utc: int -> DateParts, i: nat)
    requires i < |MonthGrid(date, today, month, byDay, utc)|
    ensures var g := MonthGrid(date, today, month, byDay, utc);
      var first := month.firstWeekday;
      && (i < first || i >= first + month.daysInMonth ==> g[i] == Blank)
      && (first <= i < first + month.daysInMonth ==>
            && g[i].title == NatToString(i - first + 1)
            && AllDigits(g[i].title) && ParseDigits(g[i].title) == i - first + 1
            && g[i].slots.Some? == (DayKey(date.year, date.month, i - first + 1) in byDay)
            && g[i].slots == SlotsOfDay(byDay, DayKey(date.year, date.month, i - first + 1), utc)
            && g[i].status != NotInMonth
            && (date.year == today.year && date.month == today.month ==>
                  g[i].status == if i - first + 1 == date.date then Today else Regular)
            && (date.year != today.year || date.month != today.month ==> g[i].status == DifferentMonth))
  {
    MonthGridAt(date, today, month, byDay, utc, i);
    var first := month.firstWeekday;
    if first <= i < first + month.daysInMonth {
      ParseNatToString(i - first + 1);
    }
  }

  /** The cell at index `i`: blank outside the month, the day's cell inside it. */
  lemma MonthGridAt(date: DateParts, today: DateParts, month: MonthFacts,
                    byDay: map<DayKey, seq<CalendarSlot>>, utc: int -> DateParts, i: nat)
    requires i < |MonthGrid(date, today, month, byDay, utc)|
    ensures var g := MonthGrid(date, today, month, byDay, utc);
      var first := month.firstWeekday;
      g[i] == if first <= i < first + month.daysInMonth then DayCell(date, today, byDay, utc, i - first + 1) else Blank
  {
  }
}
