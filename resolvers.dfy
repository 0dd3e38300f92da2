/**
 * The GraphQL resolvers of backend/src/resolvers.ts: the slot queries and
 * field resolvers as functions, the mutations as methods that look rows
 * up, assign their fields and save or remove them against the store.
 */
module Resolvers {
  import opened Wrappers
  import opened Types
  import opened Seqs
  import opened Store

  const SecondsPerMinute := 60
  const SecondsPerDay := 24 * 60 * 60
  /** The furthest a new slot may start: 365 days from now. */
  const Horizon := 365 * SecondsPerDay
  /** `durationInMinutes` when the argument is left out. */
  const DefaultDuration := 30

  // ---- field resolvers ----

  /** The slot's length in minutes, a JavaScript number (not necessarily whole). */
  function DurationInMinutes(slot: CalendarSlot): (r: real)
    ensures r * 60.0 == (slot.endTimestamp - slot.startTimestamp) as real
  {
    (slot.endTimestamp - slot.startTimestamp) as real / 60.0
  }

  /** `startTime`: the stored second timestamp as a `Date`, in milliseconds. */
  function StartTime(slot: CalendarSlot): (ms: int)
    ensures ms / 1000 == slot.startTimestamp && ms % 1000 == 0
  {
    slot.startTimestamp * 1000
  }

  function EndTime(slot: CalendarSlot): (ms: int)
    ensures ms / 1000 == slot.endTimestamp && ms % 1000 == 0
  {
    slot.endTimestamp * 1000
  }

  // ---- getCalendarSlots ----

  predicate SlotMatches(s: CalendarSlot, startTime: Option<int>, endTime: Option<int>, available: Option<bool>) {
    && (startTime.Some? ==> s.startTimestamp >= startTime.value)
    && (endTime.Some? ==> s.endTimestamp <= endTime.value)
    && (available.Some? ==> s.available == available.value)
  }

  predicate SortedByStart(s: seq<CalendarSlot>) {
    forall i, j :: 0 <= i < j < |s| ==> s[i].startTimestamp <= s[j].startTimestamp
  }

  function InsertByStart(x: CalendarSlot, s: seq<CalendarSlot>): (r: seq<CalendarSlot>)
    requires SortedByStart(s)
    ensures |r| == |s| + 1
    ensures forall i :: 0 <= i < |r| ==> r[i] == x || r[i] in s
    ensures SortedByStart(r) && multiset(r) == multiset(s) + multiset{x}
  {
    if s == [] then [x]
    else if x.startTimestamp <= s[0].startTimestamp then [x] + s
    else
      var rest := InsertByStart(x, s[1..]);
      HeadBelow(x, s, rest);
      SortedCons(s[0], rest);
      assert s == [s[0]] + s[1..];
      [s[0]] + rest
  }

  /** The head of a sorted list starts no later than anything inserted behind it. */
  lemma HeadBelow(x: CalendarSlot, s: seq<CalendarSlot>, rest: seq<CalendarSlot>)
    requires SortedByStart(s) && s != [] && s[0].startTimestamp < x.startTimestamp
    requires forall i :: 0 <= i < |rest| ==> rest[i] == x || rest[i] in s[1..]
    ensures forall i :: 0 <= i < |rest| ==> s[0].startTimestamp <= rest[i].startTimestamp
  {
    forall i | 0 <= i < |rest| ensures s[0].startTimestamp <= rest[i].startTimestamp {
      if rest[i] != x {
        var j :| 0 <= j < |s[1..]| && s[1..][j] == rest[i];
        assert s[j + 1] == rest[i];
      }
    }
  }

  lemma SortedCons(h: CalendarSlot, rest: seq<CalendarSlot>)
    requires SortedByStart(rest)
    requires forall i :: 0 <= i < |rest| ==> h.startTimestamp <= rest[i].startTimestamp
    ensures SortedByStart([h] + rest)
  {
    var r := [h] + rest;
    forall i, j | 0 <= i < j < |r| ensures r[i].startTimestamp <= r[j].startTimestamp {
      assert r[j] == rest[j - 1];
      if 0 < i {
        assert r[i] == rest[i - 1];
      }
    }
  }

  /** `order: { startTimestamp: 'ASC' }`. */
  function SortByStart(s: seq<CalendarSlot>): (r: seq<CalendarSlot>)
    ensures SortedByStart(r) && multiset(r) == multiset(s)
  {
    if s == [] then []
    else
      assert s == [s[0]] + s[1..];
      InsertByStart(s[0], SortByStart(s[1..]))
  }

  /**
   * getCalendarSlots: the slots starting at or after `startTime`, ending at
   * or before `endTime` and with the requested availability, ascending by start.
   */
  function GetCalendarSlots(slots: seq<CalendarSlot>, startTime: Option<int>, endTime: Option<int>, available: Option<bool>): (r: seq<CalendarSlot>)
    ensures SortedByStart(r)
    ensures forall s :: s in r <==> s in slots && SlotMatches(s, startTime, endTime, available)
    ensures multiset(r) == multiset(Filter(slots, s => SlotMatches(s, startTime, endTime, available)))
  {
    var matching := Filter(slots, s => SlotMatches(s, startTime, endTime, available));
    var r := SortByStart(matching);
    assert forall s :: s in r <==> s in multiset(r);
    assert forall s :: s in matching <==> s in multiset(matching);
    r
  }

  // ---- createCalendarSlot ----

  /**
   * The overlap query as written: an existing slot whose closed interval
   * contains the new start or the new end.
   */
  predicate EndpointInside(s: CalendarSlot, start: int, end: int) {
    || (s.startTimestamp <= start && s.endTimestamp >= start)
    || (s.startTimestamp <= end && s.endTimestamp >= end)
  }

  /** The corrected overlap test: the two closed intervals share a point. */
  predicate Intersects(s: CalendarSlot, start: int, end: int) {
    s.startTimestamp <= end && start <= s.endTimestamp
  }

  /** The query as written finds a subset of what the corrected test finds. */
  lemma EndpointInsideIntersects(s: CalendarSlot, start: int, end: int)
    requires start <= end && s.startTimestamp <= s.endTimestamp
    ensures EndpointInside(s, start, end) ==> Intersects(s, start, end)
    ensures Intersects(s, start, end) && !EndpointInside(s, start, end) <==>
      start < s.startTimestamp && s.endTimestamp < end
  {
  }

  /**
   * The discrepancy: the new slot [0, 1800] strictly contains the existing
   * slot [600, 1200]; neither new endpoint lies inside it, so the query as
   * written finds nothing and the overlapping slot would be created.
   */
  lemma EndpointQueryMissesContainment()
    ensures var existing := CalendarSlot("existing", 600, 1200, true);
      && !OverlapQueryAsWritten([existing], 0, 1800)
      && Intersects(existing, 0, 1800)
  {
    var existing := CalendarSlot("existing", 600, 1200, true);
    assert !EndpointInside(existing, 0, 1800);
  }

  /** The `Or` of the two `Between` conditions in the slot query: some slot holds an endpoint of the new interval. */
  predicate OverlapQueryAsWritten(slots: seq<CalendarSlot>, start: int, end: int) {
    exists i :: 0 <= i < |slots| && EndpointInside(slots[i], start, end)
  }

  /**
   * On well-ordered intervals the query as written reports only real
   * overlaps, and the overlaps it misses are exactly the existing slots
   * lying strictly inside the new interval.
   */
  lemma OverlapQueryAsWrittenSubset(slots: seq<CalendarSlot>, start: int, end: int)
    requires start <= end
    requires forall i :: 0 <= i < |slots| ==> slots[i].startTimestamp <= slots[i].endTimestamp
    ensures OverlapQueryAsWritten(slots, start, end) ==> FirstOverlap(slots, start, end).Some?
    ensures FirstOverlap(slots, start, end).Some? && !OverlapQueryAsWritten(slots, start, end) ==>
      exists i :: 0 <= i < |slots| && start < slots[i].startTimestamp && slots[i].endTimestamp < end
  {
    forall i | 0 <= i < |slots| ensures EndpointInside(slots[i], start, end) ==> Intersects(slots[i], start, end) {
      EndpointInsideIntersects(slots[i], start, end);
    }
    if FirstOverlap(slots, start, end).Some? && !OverlapQueryAsWritten(slots, start, end) {
      var k := FirstOverlap(slots, start, end).value;
      EndpointInsideIntersects(slots[k], start, end);
    }
  }

  /** No two slots share a point of time (closed intervals). */
  predicate NoOverlap(slots: seq<CalendarSlot>) {
    forall i, j :: 0 <= i < |slots| && 0 <= j < |slots| && i != j ==>
      !Intersects(slots[i], slots[j].startTimestamp, slots[j].endTimestamp)
  }

  /** The first existing slot that the new interval meets. */
  function FirstOverlap(slots: seq<CalendarSlot>, start: int, end: int): (r: Option<nat>)
    ensures r.Some? ==> r.value < |slots| && Intersects(slots[r.value], start, end)
    ensures r.None? <==> forall i :: 0 <= i < |slots| ==> !Intersects(slots[i], start, end)
  {
    FirstIndex(slots, (s: CalendarSlot) => Intersects(s, start, end))
  }

  /** Appending a positive-length slot that meets no existing slot keeps every constraint. */
  lemma AddSlotKeeps(cs: seq<Customer>, slots: seq<CalendarSlot>, apps: seq<Appointment>, s: CalendarSlot)
    requires WellFormed(cs, slots, apps) && !HasSlot(slots, s.id) && s.available
    requires s.startTimestamp < s.endTimestamp
    requires forall i :: 0 <= i < |slots| ==> !Intersects(slots[i], s.startTimestamp, s.endTimestamp)
    ensures WellFormed(cs, slots + [s], apps)
    ensures Exclusive(slots, apps) ==> Exclusive(slots + [s], apps)
    ensures NoOverlap(slots) ==> NoOverlap(slots + [s])
  {
    var slots' := slots + [s];
    forall i, j | 0 <= i < |slots'| && 0 <= j < |slots'| && i != j
      ensures slots'[i].id != slots'[j].id && slots'[i].startTimestamp != slots'[j].startTimestamp
      ensures slots'[i].endTimestamp != slots'[j].endTimestamp
      ensures NoOverlap(slots) ==> !Intersects(slots'[i], slots'[j].startTimestamp, slots'[j].endTimestamp)
    {
      if i < |slots| && j < |slots| {
        assert slots'[i] == slots[i] && slots'[j] == slots[j];
      } else if i < |slots| {
        assert slots'[i] == slots[i] && slots'[j] == s;
        assert !Intersects(slots[i], s.startTimestamp, s.endTimestamp);
      } else {
        assert slots'[i] == s && slots'[j] == slots[j];
        assert !Intersects(slots[j], s.startTimestamp, s.endTimestamp);
      }
    }
    forall i | 0 <= i < |apps| ensures HasSlot(slots', apps[i].slotId) && apps[i].slotId != s.id {
      var j :| 0 <= j < |slots| && slots[j].id == apps[i].slotId;
      assert slots'[j].id == apps[i].slotId;
    }
    assert !Referenced(apps, s.id);
    if Exclusive(slots, apps) {
      forall p | 0 <= p < |slots'| ensures !slots'[p].available <==> Referenced(apps, slots'[p].id) {
        if p < |slots| {
          assert slots'[p] == slots[p];
        }
      }
    }
  }

  /**
   * createCalendarSlot: a start strictly after `now` and at most a year
   * ahead, a duration strictly between 0 and 60 minutes, and no overlap;
   * then one available slot is added. The overlap rejection uses the
   * corrected closed-interval test `Intersects`, not the endpoint query as
   * written (see `EndpointQueryMissesContainment`).
   */
  method CreateCalendarSlot(db: Database, now: int, startTimestamp: int, durationInMinutes: Option<int>, newId: Uuid)
    returns (r: Result<CalendarSlot, Error>)
    requires db.WellFormed() && !HasSlot(db.slots, newId)
    modifies db
    ensures db.WellFormed() && (old(db.Exclusive()) ==> db.Exclusive())
    ensures old(NoOverlap(db.slots)) ==> NoOverlap(db.slots)
    ensures db.customers == old(db.customers) && db.appointments == old(db.appointments) && db.notices == old(db.notices)
    ensures var d := durationInMinutes.GetOr(DefaultDuration);
      var end := startTimestamp + SecondsPerMinute * d;
      var startOk := now < startTimestamp <= now + Horizon;
      var durationOk := 0 < d < 60;
      && (!startOk ==> r == Err(InvalidStartTime))
      && (startOk && !durationOk ==> r == Err(InvalidDuration))
      && (startOk && durationOk && FirstOverlap(old(db.slots), startTimestamp, end).Some? ==> r == Err(OverlapsOtherSlot))
      && (r.Ok? <==> startOk && durationOk && FirstOverlap(old(db.slots), startTimestamp, end).None?)
      && (r.Ok? ==> r.value == CalendarSlot(newId, startTimestamp, end, true)
                    && DurationInMinutes(r.value) == d as real
                    && db.slots == old(db.slots) + [r.value])
    ensures r.Err? ==> db.slots == old(db.slots)
  {
    var d := durationInMinutes.GetOr(DefaultDuration);
    var endTimestamp := startTimestamp + SecondsPerMinute * d;
    var oneYearAway := now + Horizon;
    if startTimestamp <= now || startTimestamp > oneYearAway {
      return Err(InvalidStartTime);
    }
    if d <= 0 || d >= 60 {
      return Err(InvalidDuration);
    }
    if FirstOverlap(db.slots, startTimestamp, endTimestamp).Some? {
      return Err(OverlapsOtherSlot);
    }
    var slot := CalendarSlot(newId, startTimestamp, endTimestamp, true);
    AddSlotKeeps(db.customers, db.slots, db.appointments, slot);
    db.slots := db.slots + [slot];
    return Ok(slot);
  }

  // ---- deleteCalendarSlot ----

  lemma RemoveSlotKeeps(cs: seq<Customer>, slots: seq<CalendarSlot>, apps: seq<Appointment>, p: nat)
    requires WellFormed(cs, slots, apps) && p < |slots| && !Referenced(apps, slots[p].id)
    ensures WellFormed(cs, RemoveAt(slots, p), apps)
    ensures Exclusive(slots, apps) ==> Exclusive(RemoveAt(slots, p), apps)
    ensures NoOverlap(slots) ==> NoOverlap(RemoveAt(slots, p))
  {
    var slots' := RemoveAt(slots, p);
    forall i, j | 0 <= i < |slots'| && 0 <= j < |slots'| && i != j
      ensures slots'[i].id != slots'[j].id && slots'[i].startTimestamp != slots'[j].startTimestamp
      ensures slots'[i].endTimestamp != slots'[j].endTimestamp
      ensures NoOverlap(slots) ==> !Intersects(slots'[i], slots'[j].startTimestamp, slots'[j].endTimestamp)
    {
      var oi, oj := if i < p then i else i + 1, if j < p then j else j + 1;
      assert slots'[i] == slots[oi] && slots'[j] == slots[oj];
    }
    forall i | 0 <= i < |apps| ensures HasSlot(slots', apps[i].slotId) {
      var j :| 0 <= j < |slots| && slots[j].id == apps[i].slotId;
      assert j != p;
      var n := if j < p then j else j - 1;
      assert slots'[n].id == apps[i].slotId;
    }
  }

  /**
   * deleteCalendarSlot: false for an unknown id; an error, keeping the
   * slot, while an appointment references it; otherwise that one row goes.
   */
  method DeleteCalendarSlot(db: Database, id: Uuid) returns (r: Result<bool, Error>)
    requires db.WellFormed()
    modifies db
    ensures db.WellFormed() && (old(db.Exclusive()) ==> db.Exclusive())
    ensures old(NoOverlap(db.slots)) ==> NoOverlap(db.slots)
    ensures db.customers == old(db.customers) && db.appointments == old(db.appointments) && db.notices == old(db.notices)
    ensures !HasSlot(old(db.slots), id) ==> r == Ok(false) && db.slots == old(db.slots)
    ensures HasSlot(old(db.slots), id) && Referenced(old(db.appointments), id) ==>
      r == Err(SlotHasAppointment) && db.slots == old(db.slots)
    ensures HasSlot(old(db.slots), id) && !Referenced(old(db.appointments), id) ==>
      r == Ok(true) && db.slots == RemoveAt(old(db.slots), SlotIndex(old(db.slots), id).value)
      && !HasSlot(db.slots, id)
  {
    var p := SlotIndex(db.slots, id);
    if p.None? {
      return Ok(false);
    }
    if AppointmentOfSlot(db.appointments, id).Some? {
      return Err(SlotHasAppointment);
    }
    RemoveSlotKeeps(db.customers, db.slots, db.appointments, p.value);
    db.slots := RemoveAt(db.slots, p.value);
    assert !HasSlot(db.slots, id) by {
      forall i | 0 <= i < |db.slots| ensures db.slots[i].id != id {
        var o := if i < p.value then i else i + 1;
        assert db.slots[i] == old(db.slots)[o];
      }
    }
    return Ok(true);
  }

  // ---- appointment queries ----

  /** The joined slot of an appointment (the `calendarSlot` relation). */
  function SlotOf(slots: seq<CalendarSlot>, a: Appointment): (s: CalendarSlot)
    requires HasSlot(slots, a.slotId)
    ensures s in slots && s.id == a.slotId
  {
    slots[SlotIndex(slots, a.slotId).value]
  }

  predicate AllSlotsLoaded(slots: seq<CalendarSlot>, apps: seq<Appointment>) {
    forall i :: 0 <= i < |apps| ==> HasSlot(slots, apps[i].slotId)
  }

  /** The status filter in the query, then the start and end filters on the joined slot. */
  function FilterAppointments(apps: seq<Appointment>, slots: seq<CalendarSlot>, statuses: Option<seq<AppointmentStatus>>, startTime: Option<int>, endTime: Option<int>): (r: seq<Appointment>)
    requires AllSlotsLoaded(slots, apps)
    ensures forall a :: a in r <==>
      && a in apps
      && a.status in statuses.GetOr(AllStatuses)
      && (startTime.Some? ==> SlotOf(slots, a).startTimestamp >= startTime.value)
      && (endTime.Some? ==> SlotOf(slots, a).endTimestamp <= endTime.value)
  {
    var wanted := statuses.GetOr(AllStatuses);
    var byStatus := Filter(apps, (a: Appointment) => a.status in wanted);
    var byStart := if startTime.Some? then
      Filter(byStatus, (a: Appointment) => HasSlot(slots, a.slotId) && SlotOf(slots, a).startTimestamp >= startTime.value)
      else byStatus;
    if endTime.Some? then
      Filter(byStart, (a: Appointment) => HasSlot(slots, a.slotId) && SlotOf(slots, a).endTimestamp <= endTime.value)
    else byStart
  }

  /** getAppointments (admin): every appointment passing the filters. */
  function GetAppointments(apps: seq<Appointment>, slots: seq<CalendarSlot>, statuses: Option<seq<AppointmentStatus>>, startTime: Option<int>, endTime: Option<int>): (r: seq<Appointment>)
    requires AllSlotsLoaded(slots, apps)
    ensures forall a :: a in r ==> a in apps && a.status in statuses.GetOr(AllStatuses)
    ensures statuses.None? ==> forall a :: a in r ==> a.status != PendingPayment
    ensures statuses.None? && startTime.None? && endTime.None? ==>
      forall a :: a in apps ==> (a in r <==> a.status != PendingPayment)
  {
    forall a | a in apps ensures a.status in AllStatuses <==> a.status != PendingPayment {
      AllStatusesComplete(a.status);
    }
    FilterAppointments(apps, slots, statuses, startTime, endTime)
  }

  /** getCustomerAppointments: the caller's own appointments passing the filters. */
  function GetCustomerAppointments(cs: seq<Customer>, apps: seq<Appointment>, slots: seq<CalendarSlot>, ctx: Context, statuses: Option<seq<AppointmentStatus>>, startTime: Option<int>, endTime: Option<int>): (r: Result<seq<Appointment>, Error>)
    requires AllSlotsLoaded(slots, apps)
    ensures !Truthy(ctx.customerId) ==> r == Err(NoCustomerId)
    ensures Truthy(ctx.customerId) && !HasCustomer(cs, ctx.customerId.value) ==> r == Err(NoCustomerFound)
    ensures r.Ok? <==> Truthy(ctx.customerId) && HasCustomer(cs, ctx.customerId.value)
    ensures r.Ok? ==> forall a :: a in r.value <==>
      a in FilterAppointments(apps, slots, statuses, startTime, endTime) && a.customerId == ctx.customerId.value
    ensures r.Ok? && statuses.None? ==> forall a :: a in r.value ==> a.status != PendingPayment
    ensures r.Ok? && statuses.None? && startTime.None? && endTime.None? ==>
      forall a :: a in apps ==> (a in r.value <==> a.customerId == ctx.customerId.value && a.status != PendingPayment)
  {
    forall a | a in apps ensures a.status in AllStatuses <==> a.status != PendingPayment {
      AllStatusesComplete(a.status);
    }
    if !Truthy(ctx.customerId) then Err(NoCustomerId)
    else if CustomerIndex(cs, ctx.customerId.value).None? then Err(NoCustomerFound)
    else
      var own := Filter(apps, (a: Appointment) => a.customerId == ctx.customerId.value);
      assert AllSlotsLoaded(slots, own) by {
        forall i | 0 <= i < |own| ensures HasSlot(slots, own[i].slotId) {
          assert own[i] in apps;
        }
      }
      Ok(FilterAppointments(own, slots, statuses, startTime, endTime))
  }

  // ---- createAppointment ----

  /**
   * createAppointment: the caller, the slot and its availability are
   * checked; a slot found already referenced is forced unavailable and the
   * booking fails; otherwise the slot is taken and one Reserved appointment
   * is added for the caller.
   */
  method CreateAppointment(db: Database, ctx: Context, calendarSlotId: Uuid, newId: Uuid) returns (r: Result<Appointment, Error>)
    requires db.WellFormed()
    requires forall i :: 0 <= i < |db.appointments| ==> db.appointments[i].id != newId
    modifies db
    ensures db.WellFormed() && (old(db.Exclusive()) ==> db.Exclusive())
    ensures db.customers == old(db.customers) && db.notices == old(db.notices)
    ensures !Truthy(ctx.customerId) ==> r == Err(NoCustomerId)
    ensures Truthy(ctx.customerId) && !HasCustomer(old(db.customers), ctx.customerId.value) ==> r == Err(NoCustomerFound)
    ensures Truthy(ctx.customerId) && HasCustomer(old(db.customers), ctx.customerId.value) ==>
      && (!HasSlot(old(db.slots), calendarSlotId) ==> r == Err(NoCalendarSlotFound))
      && (HasSlot(old(db.slots), calendarSlotId) ==>
            var slot := old(db.slots)[SlotIndex(old(db.slots), calendarSlotId).value];
            && (!slot.available ==> r == Err(SlotNotAvailable))
            && (slot.available && Referenced(old(db.appointments), calendarSlotId) ==>
                  r == Err(SlotNotAvailable) && db.slots == WithAvailability(old(db.slots), calendarSlotId, false))
            && (slot.available && !Referenced(old(db.appointments), calendarSlotId) ==>
                  r == Ok(Appointment(newId, ctx.customerId.value, calendarSlotId, Reserved))))
    ensures r.Ok? ==> (db.slots == WithAvailability(old(db.slots), calendarSlotId, false)
                       && db.appointments == old(db.appointments) + [r.value])
    ensures r.Err? ==> db.appointments == old(db.appointments)
    ensures r.Err? && (old(db.Exclusive()) || r != Err(SlotNotAvailable)) ==> db.slots == old(db.slots)
  {
    if !Truthy(ctx.customerId) {
      return Err(NoCustomerId);
    }
    var customerId := ctx.customerId.value;
    if CustomerIndex(db.customers, customerId).None? {
      return Err(NoCustomerFound);
    }
    var p := SlotIndex(db.slots, calendarSlotId);
    if p.None? {
      return Err(NoCalendarSlotFound);
    }
    var slot := db.slots[p.value];
    if !slot.available {
      return Err(SlotNotAvailable);
    }
    if AppointmentOfSlot(db.appointments, calendarSlotId).Some? {
      MarkHeldKeeps(db.customers, db.slots, db.appointments, calendarSlotId);
      SetAvailableAt(db.slots, p.value, false);
      db.slots := db.slots[p.value := slot.(available := false)];
      return Err(SlotNotAvailable);
    }
    var a := Appointment(newId, customerId, calendarSlotId, Reserved);
    BookKeeps(db.customers, db.slots, db.appointments, a);
    SetAvailableAt(db.slots, p.value, false);
    db.slots := db.slots[p.value := slot.(available := false)];
    db.appointments := db.appointments + [a];
    return Ok(a);
  }

  // ---- cancelAppointment, confirmAppointment, deleteAppointment ----

  /**
   * cancelAppointment: the caller must own the appointment; its slot is
   * freed and the appointment removed, whatever its status.
   */
  method CancelAppointment(db: Database, ctx: Context, appointmentId: Uuid) returns (r: Result<bool, Error>)
    requires db.WellFormed()
    modifies db
    ensures db.WellFormed() && (old(db.Exclusive()) ==> db.Exclusive())
    ensures db.customers == old(db.customers) && db.notices == old(db.notices)
    ensures !Truthy(ctx.customerId) ==> r == Err(NoCustomerId)
    ensures Truthy(ctx.customerId) && !HasCustomer(old(db.customers), ctx.customerId.value) ==> r == Err(NoCustomerFound)
    ensures Truthy(ctx.customerId) && HasCustomer(old(db.customers), ctx.customerId.value) ==>
      var k := AppointmentIndex(old(db.appointments), appointmentId);
      && (k.None? ==> r == Err(NoAppointmentFound))
      && (k.Some? && old(db.appointments)[k.value].customerId != ctx.customerId.value ==> r == Err(DifferentCustomer))
      && (k.Some? && old(db.appointments)[k.value].customerId == ctx.customerId.value ==>
            && r == Ok(true)
            && db.slots == WithAvailability(old(db.slots), old(db.appointments)[k.value].slotId, true)
            && db.appointments == RemoveAt(old(db.appointments), k.value))
    ensures r.Err? ==> db.slots == old(db.slots) && db.appointments == old(db.appointments)
  {
    if !Truthy(ctx.customerId) {
      return Err(NoCustomerId);
    }
    var customerId := ctx.customerId.value;
    if CustomerIndex(db.customers, customerId).None? {
      return Err(NoCustomerFound);
    }
    var k := AppointmentIndex(db.appointments, appointmentId);
    if k.None? {
      return Err(NoAppointmentFound);
    }
    if db.appointments[k.value].customerId != customerId {
      return Err(DifferentCustomer);
    }
    var _ := ReleaseAndRemove(db, k.value);
    return Ok(true);
  }

  /** confirmAppointment: only a Reserved appointment moves, to Confirmed; nothing else changes. */
  method ConfirmAppointment(db: Database, id: Uuid) returns (r: Result<Appointment, Error>)
    requires db.WellFormed()
    modifies db
    ensures db.WellFormed() && (old(db.Exclusive()) ==> db.Exclusive())
    ensures db.customers == old(db.customers) && db.slots == old(db.slots) && db.notices == old(db.notices)
    ensures var k := AppointmentIndex(old(db.appointments), id);
      && (k.None? ==> r == Err(NoAppointmentFound))
      && (k.Some? && old(db.appointments)[k.value].status != Reserved ==> r == Err(NotReadyForConfirmation))
      && (k.Some? && old(db.appointments)[k.value].status == Reserved ==>
            r == Ok(old(db.appointments)[k.value].(status := Confirmed)))
    ensures r.Err? ==> db.appointments == old(db.appointments)
    ensures r.Ok? ==> db.appointments == Advance(old(db.appointments), id, Reserved, Confirmed)
    ensures |db.appointments| == |old(db.appointments)|
    ensures forall i :: 0 <= i < |db.appointments| && db.appointments[i].id != id ==> db.appointments[i] == old(db.appointments)[i]
  {
    var k := AppointmentIndex(db.appointments, id);
    if k.None? {
      return Err(NoAppointmentFound);
    }
    var a := db.appointments[k.value];
    if a.status != Reserved {
      return Err(NotReadyForConfirmation);
    }
    AdvanceKeeps(db.customers, db.slots, db.appointments, id, Reserved, Confirmed);
    SetStatusAt(db.appointments, k.value, Confirmed);
    var confirmed := a.(status := Confirmed);
    db.appointments := db.appointments[k.value := confirmed];
    return Ok(confirmed);
  }

  /** deleteAppointment (admin): false for an unknown id; otherwise the slot is freed and the row removed. */
  method DeleteAppointment(db: Database, id: Uuid) returns (deleted: bool)
    requires db.WellFormed()
    modifies db
    ensures db.WellFormed() && (old(db.Exclusive()) ==> db.Exclusive())
    ensures db.customers == old(db.customers) && db.notices == old(db.notices)
    ensures var k := AppointmentIndex(old(db.appointments), id);
      && (deleted <==> k.Some?)
      && (k.None? ==> db.slots == old(db.slots) && db.appointments == old(db.appointments))
      && (k.Some? ==> db.slots == WithAvailability(old(db.slots), old(db.appointments)[k.value].slotId, true)
                      && db.appointments == RemoveAt(old(db.appointments), k.value))
  {
    var k := AppointmentIndex(db.appointments, id);
    if k.None? {
      return false;
    }
    var _ := ReleaseAndRemove(db, k.value);
    return true;
  }

  // ---- signup ----

  /**
   * `string.length` in JavaScript: the number of UTF-16 code units, where a
   * character outside the Basic Multilingual Plane is a surrogate pair.
   */
  function Utf16Length(s: string): (n: nat)
    ensures |s| <= n <= 2 * |s|
    ensures n == |s| <==> forall i :: 0 <= i < |s| ==> s[i] < '\U{10000}'
  {
    if s == [] then 0
    else
      var rest := Utf16Length(s[1..]);
      assert forall i :: 1 <= i < |s| ==> s[1..][i - 1] == s[i];
      (if s[0] < '\U{10000}' then 1 else 2) + rest
  }

  /** A single emoji is one Dafny character but two code units, so it is a long enough name. */
  lemma AstralCharIsTwoUnits()
    ensures |"\U{1F600}"| == 1 && Utf16Length("\U{1F600}") == 2
  {
    assert "\U{1F600}"[1..] == [];
  }

  /**
   * signup: a name of at least two UTF-16 code units and a valid email address;
   * the customer row is created with the name only (the entity's column is
   * `mailAddress`, so the `emailAddress` passed to `create` is not stored);
   * the unique name column rejects a second customer of the same name.
   */
  method Signup(db: Database, name: string, emailAddress: string, isValidEmail: string -> bool, newId: Uuid)
    returns (r: Result<Uuid, Error>)
    requires db.WellFormed() && !HasCustomer(db.customers, newId)
    modifies db
    ensures db.WellFormed() && (old(db.Exclusive()) ==> db.Exclusive())
    ensures db.slots == old(db.slots) && db.appointments == old(db.appointments) && db.notices == old(db.notices)
    ensures Utf16Length(name) < 2 ==> r == Err(InvalidName)
    ensures Utf16Length(name) >= 2 && (emailAddress == "" || !isValidEmail(emailAddress)) ==> r == Err(InvalidEmailAddress)
    ensures r.Ok? <==> Utf16Length(name) >= 2 && emailAddress != "" && isValidEmail(emailAddress)
                       && forall i :: 0 <= i < |old(db.customers)| ==> old(db.customers)[i].name != name
    ensures (Utf16Length(name) >= 2 && emailAddress != "" && isValidEmail(emailAddress)
             && exists i :: 0 <= i < |old(db.customers)| && old(db.customers)[i].name == name) ==> r == Err(NameTaken)
    ensures r.Ok? ==> r.value == newId && db.customers == old(db.customers) + [Customer(newId, name, None, None)]
    ensures r.Err? ==> db.customers == old(db.customers)
  {
    if name == "" || Utf16Length(name) < 2 {
      return Err(InvalidName);
    }
    if emailAddress == "" || !isValidEmail(emailAddress) {
      return Err(InvalidEmailAddress);
    }
    var taken := FirstIndex(db.customers, (c: Customer) => c.name == name);
    if taken.Some? {
      return Err(NameTaken);
    }
    var c := Customer(newId, name, None, None);
    var cs' := db.customers + [c];
    forall i | 0 <= i < |db.appointments| ensures HasCustomer(cs', db.appointments[i].customerId) {
      assert HasCustomer(db.customers, db.appointments[i].customerId);
      var j :| 0 <= j < |db.customers| && db.customers[j].id == db.appointments[i].customerId;
      assert cs'[j].id == db.appointments[i].customerId;
    }
    db.customers := cs';
    return Ok(newId);
  }
}
