/**
 * Entity shapes of the booking backend (backend/src/types.ts) and the
 * constraints the database schema declares on them: primary keys, the
 * unique columns and the many-to-one references of an appointment.
 */
module Types {
  import opened Wrappers

  /** Identifiers are UUID strings generated by the entity at creation. */
  type Uuid = string

  /**
   * The union of the backend enum (Available, Reserved, Confirmed) and the
   * PendingPayment value that the payment actions and the frontend use; the
   * backend enum itself declares no PendingPayment member.
   */
  datatype AppointmentStatus = Available | PendingPayment | Reserved | Confirmed

  /**
   * `Object.values(AppointmentStatus)`: the default status filter of the
   * appointment queries. It lists the three members of the backend enum
   * only, so PendingPayment rows never pass the default filter.
   */
  const AllStatuses: seq<AppointmentStatus> := [Available, Reserved, Confirmed]

  lemma AllStatusesComplete(st: AppointmentStatus)
    ensures st in AllStatuses <==> st != PendingPayment
  {
    match st
    case Available => assert AllStatuses[0] == st;
    case PendingPayment => assert forall i :: 0 <= i < |AllStatuses| ==> AllStatuses[i] != st;
    case Reserved => assert AllStatuses[1] == st;
    case Confirmed => assert AllStatuses[2] == st;
  }

  datatype Customer = Customer(id: Uuid, name: string, mailAddress: Option<string>, phoneNumber: Option<string>)

  /** Timestamps are whole seconds since the epoch. */
  datatype CalendarSlot = CalendarSlot(id: Uuid, startTimestamp: int, endTimestamp: int, available: bool)

  /** The two many-to-one relations are kept as the referenced rows' ids. */
  datatype Appointment = Appointment(id: Uuid, customerId: Uuid, slotId: Uuid, status: AppointmentStatus)

  /** The request context the resolvers receive: the caller's customer id and admin flag. */
  datatype Context = Context(customerId: Option<Uuid>, isAdmin: bool)

  /** JavaScript truthiness of an optional string: present and non-empty. */
  predicate Truthy(s: Option<string>) {
    s.Some? && s.value != ""
  }

  /** The errors the backend raises, one per distinct message. */
  datatype Error =
    | NoCustomerId            // 'No customer id found'
    | NoCustomerFound         // 'No customer found'
    | NoCalendarSlotFound     // 'No calendar slot found'
    | SlotNotAvailable        // 'Calendar slot not available'
    | NoAppointmentFound      // 'No appointment found'
    | DifferentCustomer       // 'Appointment has different customer'
    | NotReadyForConfirmation // 'Appointment not ready for confirmation'
    | InvalidStartTime        // 'Invalid start time'
    | InvalidDuration         // 'Invalid duration in minutes'
    | OverlapsOtherSlot       // 'Overlaps with other slot'
    | SlotHasAppointment      // 'Calendar Slot has an appointment, delete appointment first'
    | InvalidName             // 'Invalid name'
    | InvalidEmailAddress     // 'Invalid email address'
    | NameTaken               // the unique constraint on Customer.name rejecting the insert

  // ---- primary keys and unique columns ----

  predicate CustomerIdsUnique(cs: seq<Customer>) {
    forall i, j :: 0 <= i < |cs| && 0 <= j < |cs| && i != j ==> cs[i].id != cs[j].id
  }

  predicate CustomerNamesUnique(cs: seq<Customer>) {
    forall i, j :: 0 <= i < |cs| && 0 <= j < |cs| && i != j ==> cs[i].name != cs[j].name
  }

  predicate SlotIdsUnique(slots: seq<CalendarSlot>) {
    forall i, j :: 0 <= i < |slots| && 0 <= j < |slots| && i != j ==> slots[i].id != slots[j].id
  }

  predicate SlotStartsUnique(slots: seq<CalendarSlot>) {
    forall i, j :: 0 <= i < |slots| && 0 <= j < |slots| && i != j ==> slots[i].startTimestamp != slots[j].startTimestamp
  }

  predicate SlotEndsUnique(slots: seq<CalendarSlot>) {
    forall i, j :: 0 <= i < |slots| && 0 <= j < |slots| && i != j ==> slots[i].endTimestamp != slots[j].endTimestamp
  }

  /** Slots are created with a positive duration and never resized. */
  predicate SlotsForward(slots: seq<CalendarSlot>) {
    forall i :: 0 <= i < |slots| ==> slots[i].startTimestamp < slots[i].endTimestamp
  }

  predicate AppointmentIdsUnique(apps: seq<Appointment>) {
    forall i, j :: 0 <= i < |apps| && 0 <= j < |apps| && i != j ==> apps[i].id != apps[j].id
  }

  // ---- references ----

  predicate HasCustomer(cs: seq<Customer>, id: Uuid) {
    exists i :: 0 <= i < |cs| && cs[i].id == id
  }

  predicate HasSlot(slots: seq<CalendarSlot>, id: Uuid) {
    exists i :: 0 <= i < |slots| && slots[i].id == id
  }

  /** Some appointment of the table references the slot `slotId`. */
  predicate Referenced(apps: seq<Appointment>, slotId: Uuid) {
    exists i :: 0 <= i < |apps| && apps[i].slotId == slotId
  }

  /** Every appointment references exactly one existing customer and one existing slot. */
  predicate ReferencesResolve(cs: seq<Customer>, slots: seq<CalendarSlot>, apps: seq<Appointment>) {
    forall i :: 0 <= i < |apps| ==> HasCustomer(cs, apps[i].customerId) && HasSlot(slots, apps[i].slotId)
  }

  /** What the schema guarantees of every database state. */
  predicate WellFormed(cs: seq<Customer>, slots: seq<CalendarSlot>, apps: seq<Appointment>) {
    && CustomerIdsUnique(cs) && CustomerNamesUnique(cs)
    && SlotIdsUnique(slots) && SlotStartsUnique(slots) && SlotEndsUnique(slots) && SlotsForward(slots)
    && AppointmentIdsUnique(apps)
    && ReferencesResolve(cs, slots, apps)
  }

  /**
   * Slot exclusivity, the property the booking engine exists to keep: no
   * two appointments share a slot, and a slot is unavailable exactly when
   * an appointment references it.
   */
  predicate Exclusive(slots: seq<CalendarSlot>, apps: seq<Appointment>) {
    && (forall i, j :: 0 <= i < |apps| && 0 <= j < |apps| && i != j ==> apps[i].slotId != apps[j].slotId)
    && (forall p :: 0 <= p < |slots| ==> (!slots[p].available <==> Referenced(apps, slots[p].id)))
  }

  /** The number of appointments that reference the slot `slotId`. */
  function HolderCount(apps: seq<Appointment>, slotId: Uuid): nat {
    if apps == [] then 0
    else HolderCount(apps[..|apps| - 1], slotId) + (if apps[|apps| - 1].slotId == slotId then 1 else 0)
  }

  lemma {:induction false} HolderCountZero(apps: seq<Appointment>, slotId: Uuid)
    ensures HolderCount(apps, slotId) == 0 <==> !Referenced(apps, slotId)
  {
    if apps != [] {
      var init := apps[..|apps| - 1];
      HolderCountZero(init, slotId);
      if Referenced(init, slotId) {
        var i :| 0 <= i < |init| && init[i].slotId == slotId;
        assert apps[i].slotId == slotId;
      }
      if Referenced(apps, slotId) && apps[|apps| - 1].slotId != slotId {
        var i :| 0 <= i < |apps| && apps[i].slotId == slotId;
        assert init[i].slotId == slotId;
      }
    }
  }

  lemma {:induction false} HolderCountAtMostOne(apps: seq<Appointment>, slotId: Uuid)
    requires forall i, j :: 0 <= i < |apps| && 0 <= j < |apps| && i != j ==> apps[i].slotId != apps[j].slotId
    ensures HolderCount(apps, slotId) <= 1
  {
    if apps != [] {
      var init := apps[..|apps| - 1];
      HolderCountAtMostOne(init, slotId);
      if apps[|apps| - 1].slotId == slotId {
        assert !Referenced(init, slotId) by {
          forall i | 0 <= i < |init| ensures init[i].slotId != slotId {
            assert init[i] == apps[i];
          }
        }
        HolderCountZero(init, slotId);
      }
    }
  }

  /**
   * Exclusivity read as a count: every slot is held by zero or one
   * appointment, and it is unavailable exactly when the count is one.
   */
  lemma ExclusiveCounts(slots: seq<CalendarSlot>, apps: seq<Appointment>, p: nat)
    requires Exclusive(slots, apps) && p < |slots|
    ensures HolderCount(apps, slots[p].id) <= 1
    ensures !slots[p].available <==> HolderCount(apps, slots[p].id) == 1
  {
    HolderCountAtMostOne(apps, slots[p].id);
    HolderCountZero(apps, slots[p].id);
  }
}
