/**
 * The frontend helpers of frontend/src/utils.ts: converting the JSON the
 * GraphQL API answers with into the frontend's records, and formatting
 * times and dates. Dates are integer milliseconds since the epoch;
 * `new Date(isoString)` is the parameter `parseDate`, and the UTC and local
 * calendar components of a date are passed in as whole numbers.
 */
module Utils {
  import opened Text
  import Types
  import Resolvers

  const MillisecondsPerDay: int := 24 * 60 * 60 * 1000

  /** The frontend's calendar slot: dates as milliseconds. */
  datatype CalendarSlot = CalendarSlot(id: string, startTime: int, endTime: int, durationInMinutes: int, available: bool)

  /**
   * The frontend's appointment. The status is the string the API sent:
   * the cast to the frontend's status enum checks nothing.
   */
  datatype Appointment = Appointment(id: string, appointmentStatus: string, calendarSlot: CalendarSlot)

  /** A calendar slot as it arrives in the JSON answer, dates as ISO strings. */
  datatype RawCalendarSlot = RawCalendarSlot(id: string, startTime: string, endTime: string,
                                             durationInMinutes: int, available: bool)

  datatype RawAppointment = RawAppointment(id: string, appointmentStatus: string, calendarSlot: RawCalendarSlot)

  /** `toCalendarSlot`: the dates are parsed, every other field is carried over. */
  function ToCalendarSlot(value: RawCalendarSlot, parseDate: string -> int): (slot: CalendarSlot)
    ensures slot.id == value.id && slot.durationInMinutes == value.durationInMinutes && slot.available == value.available
    ensures slot.startTime == parseDate(value.startTime) && slot.endTime == parseDate(value.endTime)
  {
    CalendarSlot(value.id, parseDate(value.startTime), parseDate(value.endTime), value.durationInMinutes, value.available)
  }

  /** `toAppointment`: id and status carried over, the nested slot converted. */
  function ToAppointment(value: RawAppointment, parseDate: string -> int): (a: Appointment)
    ensures a.id == value.id && a.appointmentStatus == value.appointmentStatus
    ensures a.calendarSlot == ToCalendarSlot(value.calendarSlot, parseDate)
  {
    Appointment(value.id, value.appointmentStatus, ToCalendarSlot(value.calendarSlot, parseDate))
  }

  /** The JSON the backend's field resolvers give for a stored slot, with `toISOString` as `serialize`. */
  function Wire(slot: Types.CalendarSlot, durationInMinutes: int, serialize: int -> string): RawCalendarSlot {
    RawCalendarSlot(slot.id, serialize(Resolvers.StartTime(slot)), serialize(Resolvers.EndTime(slot)),
                    durationInMinutes, slot.available)
  }

  /**
   * From the store to the screen: a slot the backend sends arrives with
   * its id, its availability, its duration and its start and end second.
   */
  lemma {:induction false} WireRoundTrip(slot: Types.CalendarSlot, durationInMinutes: int,
                                         serialize: int -> string, parseDate: string -> int)
    requires forall ms :: parseDate(serialize(ms)) == ms
    requires Resolvers.DurationInMinutes(slot) == durationInMinutes as real
    ensures var s := ToCalendarSlot(Wire(slot, durationInMinutes, serialize), parseDate);
      && s.id == slot.id && s.available == slot.available
      && s.startTime / 1000 == slot.startTimestamp && s.endTime / 1000 == slot.endTimestamp
      && s.endTime - s.startTime == s.durationInMinutes * 60 * 1000
  {
    var s := ToCalendarSlot(Wire(slot, durationInMinutes, serialize), parseDate);
    assert s.startTime == Resolvers.StartTime(slot);
    assert s.endTime == Resolvers.EndTime(slot);
    assert (slot.endTimestamp - slot.startTimestamp) as real == durationInMinutes as real * 60.0;
  }

  /** `formatTime(hour, minutes)`: "HH:MM UTC", both numbers zero-padded to two digits. */
  function FormatTime(hour: nat, minutes: nat): (r: string)
    ensures hour < 100 && minutes < 100 ==>
              |r| == 9 && AllDigits(r[..2]) && ParseDigits(r[..2]) == hour && r[2] == ':' && AllDigits(r[3..5]) && ParseDigits(r[3..5]) == minutes
              && r[5..] == " UTC"
  {
    var h, m := Pad2(hour), Pad2(minutes);
    var r := h + ":" + m + " UTC";
    if hour < 100 && minutes < 100 then FieldLayout(h, ":", m, " UTC"); r else r
  }

  /**
   * The layout of `formatDate`: "DD.MM " and the time. The month is the
   * 0-based `getUTCMonth`, shown 1-based.
   */
  function FormatDate(utcDate: nat, utcMonth: nat, hours: nat, minutes: nat): (r: string)
    ensures utcDate < 100 && utcMonth < 99 ==>
              |r| >= 6 && AllDigits(r[..2]) && ParseDigits(r[..2]) == utcDate && r[2] == '.' && AllDigits(r[3..5]) && ParseDigits(r[3..5]) == utcMonth + 1
              && r[5] == ' ' && r[6..] == FormatTime(hours, minutes)
    ensures utcDate < 100 && utcMonth < 99 && hours < 100 && minutes < 100 ==>
              |r| == 15 && AllDigits(r[9..11]) && ParseDigits(r[9..11]) == minutes
  {
    var d, m, t := Pad2(utcDate), Pad2(utcMonth + 1), FormatTime(hours, minutes);
    var tail := " " + t;
    var r := d + "." + m + tail;
    if utcDate < 100 && utcMonth < 99 then
      FieldLayout(d, ".", m, tail);
      assert r[5..][0] == tail[0] == ' ' && r[6..] == r[5..][1..] == tail[1..] == t;
      if hours < 100 && minutes < 100 then
        TimeAfterPrefix(r, t);
        r
      else r
    else r
  }

  /**
   * The minute a local-time getter reads in a zone `offsetMinutes` ahead
   * of UTC (negative west of Greenwich).
   */
  function LocalMinutes(utcMinutes: nat, offsetMinutes: int): (m: nat)
    ensures m < 60 && (m - utcMinutes - offsetMinutes) % 60 == 0
    ensures utcMinutes < 60 ==> (m == utcMinutes <==> offsetMinutes % 60 == 0)
  {
    (utcMinutes + offsetMinutes) % 60
  }

  /**
   * `formatDate(date)` as written: day, month and hour from the UTC
   * getters, the minutes from the local-time `getMinutes`.
   */
  function FormatDateAsWritten(utcDate: nat, utcMonth: nat, utcHours: nat, utcMinutes: nat, offsetMinutes: int): (r: string)
    ensures utcDate < 100 && utcMonth < 99 && utcHours < 100 ==>
              |r| == 15 && AllDigits(r[9..11]) && ParseDigits(r[9..11]) == LocalMinutes(utcMinutes, offsetMinutes)
  {
    FormatDate(utcDate, utcMonth, utcHours, LocalMinutes(utcMinutes, offsetMinutes))
  }

  /** `formatDate(date)` with every component read in UTC, as its " UTC" suffix says. */
  function FormatDateUtc(utcDate: nat, utcMonth: nat, utcHours: nat, utcMinutes: nat): (r: string)
    ensures utcDate < 100 && utcMonth < 99 && utcHours < 100 && utcMinutes < 100 ==>
              |r| == 15 && r[6..] == FormatTime(utcHours, utcMinutes)
              && AllDigits(r[9..11]) && ParseDigits(r[9..11]) == utcMinutes
  {
    FormatDate(utcDate, utcMonth, utcHours, utcMinutes)
  }

  /** In a zone a whole number of hours from UTC the two readings agree. */
  lemma {:induction false} WholeHourZonesAgree(utcDate: nat, utcMonth: nat, utcHours: nat, utcMinutes: nat, offsetMinutes: int)
    requires utcMinutes < 60 && offsetMinutes % 60 == 0
    ensures FormatDateAsWritten(utcDate, utcMonth, utcHours, utcMinutes, offsetMinutes)
            == FormatDateUtc(utcDate, utcMonth, utcHours, utcMinutes)
  {
    assert LocalMinutes(utcMinutes, offsetMinutes) == utcMinutes;
  }

  /**
   * The discrepancy: in a zone whose offset is not a whole number of hours
   * (5 hours 30 minutes ahead of UTC, say, where 12:00 UTC reads as 12:30)
   * the minutes shown next to the UTC hour are off, a time that is neither
   * the UTC nor the local one.
   */
  lemma {:induction false} FractionalZonesDisagree(utcDate: nat, utcMonth: nat, utcHours: nat, utcMinutes: nat, offsetMinutes: int)
    requires utcDate < 100 && utcMonth < 99 && utcHours < 100 && utcMinutes < 60
    requires offsetMinutes % 60 != 0
    ensures FormatDateAsWritten(utcDate, utcMonth, utcHours, utcMinutes, offsetMinutes)
            != FormatDateUtc(utcDate, utcMonth, utcHours, utcMinutes)
  {
    var asWritten := FormatDateAsWritten(utcDate, utcMonth, utcHours, utcMinutes, offsetMinutes);
    var utc := FormatDateUtc(utcDate, utcMonth, utcHours, utcMinutes);
    assert ParseDigits(asWritten[9..11]) != ParseDigits(utc[9..11]);
  }

  /** `getDate(daysDifference)`, with the current time as `now`. */
  function GetDate(now: int, daysDifference: int): (ms: int)
    ensures ms - now == daysDifference * MillisecondsPerDay
  {
    now + daysDifference * MillisecondsPerDay
  }

  /** Going `a` days and then `b` days lands where going `a + b` days does. */
  lemma GetDateAdditive(now: int, a: int, b: int)
    ensures GetDate(GetDate(now, a), b) == GetDate(now, a + b)
    ensures GetDate(now, 0) == now
  {
  }
}
