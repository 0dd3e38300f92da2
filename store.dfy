/**
 * The entity store: the three tables of backend/src/types.ts held as
 * sequences of rows in table order, plus the log that `notifyCustomer`
 * writes. The lemmas here are the table-level facts every mutation needs:
 * which row updates keep the schema constraints and slot exclusivity.
 */
module Store {
  import opened Wrappers
  import opened Types
  import opened Seqs

  /** What `notifyCustomer` reports: a new status, or 'CANCELLED'. */
  datatype NoticeStatus = NewStatus(status: AppointmentStatus) | Cancelled

  datatype Notice = Notice(appointmentId: Uuid, slot: CalendarSlot, status: NoticeStatus)

  class Database {
    var customers: seq<Customer>
    var slots: seq<CalendarSlot>
    var appointments: seq<Appointment>
    var notices: seq<Notice>

    constructor ()
      ensures customers == [] && slots == [] && appointments == [] && notices == []
      ensures WellFormed() && Exclusive()
    {
      customers, slots, appointments, notices := [], [], [], [];
    }

    predicate WellFormed()
      reads this
    {
      Types.WellFormed(customers, slots, appointments)
    }

    predicate Exclusive()
      reads this
    {
      Types.Exclusive(slots, appointments)
    }
  }

  // ---- lookups (`findOne` by key) ----

  function SlotIndex(slots: seq<CalendarSlot>, id: Uuid): (r: Option<nat>)
    ensures r.Some? ==> r.value < |slots| && slots[r.value].id == id
    ensures r.None? <==> !HasSlot(slots, id)
  {
    FirstIndex(slots, (s: CalendarSlot) => s.id == id)
  }

  function CustomerIndex(cs: seq<Customer>, id: Uuid): (r: Option<nat>)
    ensures r.Some? ==> r.value < |cs| && cs[r.value].id == id
    ensures r.None? <==> !HasCustomer(cs, id)
  {
    FirstIndex(cs, (c: Customer) => c.id == id)
  }

  function AppointmentIndex(apps: seq<Appointment>, id: Uuid): (r: Option<nat>)
    ensures r.Some? ==> r.value < |apps| && apps[r.value].id == id
    ensures r.None? <==> forall i :: 0 <= i < |apps| ==> apps[i].id != id
  {
    FirstIndex(apps, (a: Appointment) => a.id == id)
  }

  /** `Appointment.findOne({ where: { calendarSlot } })`. */
  function AppointmentOfSlot(apps: seq<Appointment>, slotId: Uuid): (r: Option<nat>)
    ensures r.Some? ==> r.value < |apps| && apps[r.value].slotId == slotId
    ensures r.None? <==> !Referenced(apps, slotId)
  {
    FirstIndex(apps, (a: Appointment) => a.slotId == slotId)
  }

  // ---- row updates ----

  /** Every slot with id `id` gets `available == b`; with unique ids that is one row. */
  function WithAvailability(slots: seq<CalendarSlot>, id: Uuid, b: bool): (r: seq<CalendarSlot>)
    ensures |r| == |slots|
    ensures forall i :: 0 <= i < |r| ==> r[i] == if slots[i].id == id then slots[i].(available := b) else slots[i]
  {
    seq(|slots|, i requires 0 <= i < |slots| => if slots[i].id == id then slots[i].(available := b) else slots[i])
  }

  /** Every appointment with id `id` whose status is `from` moves to `to`; others are kept. */
  function Advance(apps: seq<Appointment>, id: Uuid, from: AppointmentStatus, to: AppointmentStatus): (r: seq<Appointment>)
    ensures |r| == |apps|
    ensures forall i :: 0 <= i < |r| ==>
      r[i] == if apps[i].id == id && apps[i].status == from then apps[i].(status := to) else apps[i]
  {
    seq(|apps|, i requires 0 <= i < |apps| =>
      if apps[i].id == id && apps[i].status == from then apps[i].(status := to) else apps[i])
  }

  /** With unique ids, assigning the field of the one row found is the same as `WithAvailability`. */
  lemma SetAvailableAt(slots: seq<CalendarSlot>, p: nat, b: bool)
    requires SlotIdsUnique(slots) && p < |slots|
    ensures slots[p := slots[p].(available := b)] == WithAvailability(slots, slots[p].id, b)
  {
  }

  lemma SetStatusAt(apps: seq<Appointment>, k: nat, to: AppointmentStatus)
    requires AppointmentIdsUnique(apps) && k < |apps|
    ensures apps[k := apps[k].(status := to)] == Advance(apps, apps[k].id, apps[k].status, to)
  {
  }

  /** Advancing twice with the same arguments advances once. */
  lemma {:induction false} AdvanceIdempotent(apps: seq<Appointment>, id: Uuid, from: AppointmentStatus, to: AppointmentStatus)
    requires from != to
    ensures Advance(Advance(apps, id, from, to), id, from, to) == Advance(apps, id, from, to)
  {
    var once := Advance(apps, id, from, to);
    var twice := Advance(once, id, from, to);
    assert |twice| == |once|;
    forall i | 0 <= i < |once| ensures twice[i] == once[i] {
      if apps[i].id == id && apps[i].status == from {
        assert once[i].status == to;
      }
    }
  }

  lemma HasSlotWithAvailability(slots: seq<CalendarSlot>, id: Uuid, b: bool, x: Uuid)
    ensures HasSlot(WithAvailability(slots, id, b), x) <==> HasSlot(slots, x)
  {
    var r := WithAvailability(slots, id, b);
    if HasSlot(slots, x) {
      var j :| 0 <= j < |slots| && slots[j].id == x;
      assert r[j].id == x;
    }
    if HasSlot(r, x) {
      var j :| 0 <= j < |r| && r[j].id == x;
      assert slots[j].id == x;
    }
  }

  lemma ReferencedAdvance(apps: seq<Appointment>, id: Uuid, from: AppointmentStatus, to: AppointmentStatus, x: Uuid)
    ensures Referenced(Advance(apps, id, from, to), x) <==> Referenced(apps, x)
  {
    var r := Advance(apps, id, from, to);
    if Referenced(apps, x) {
      var j :| 0 <= j < |apps| && apps[j].slotId == x;
      assert r[j].slotId == x;
    }
    if Referenced(r, x) {
      var j :| 0 <= j < |r| && r[j].slotId == x;
      assert apps[j].slotId == x;
    }
  }

  /** Taking out row `k` unreferences exactly `apps[k].slotId` when references are distinct. */
  lemma ReferencedRemoveAt(apps: seq<Appointment>, k: nat, x: Uuid)
    requires k < |apps|
    requires forall i, j :: 0 <= i < |apps| && 0 <= j < |apps| && i != j ==> apps[i].slotId != apps[j].slotId
    ensures Referenced(RemoveAt(apps, k), x) <==> Referenced(apps, x) && x != apps[k].slotId
  {
    var r := RemoveAt(apps, k);
    if Referenced(r, x) {
      var j :| 0 <= j < |r| && r[j].slotId == x;
      var o := if j < k then j else j + 1;
      assert apps[o].slotId == x && o != k;
    }
    if Referenced(apps, x) && x != apps[k].slotId {
      var j :| 0 <= j < |apps| && apps[j].slotId == x;
      assert j != k;
      var n := if j < k then j else j - 1;
      assert r[n].slotId == x;
    }
  }

  lemma ReferencedAppend(apps: seq<Appointment>, a: Appointment, x: Uuid)
    ensures Referenced(apps + [a], x) <==> Referenced(apps, x) || a.slotId == x
  {
    var r := apps + [a];
    if Referenced(apps, x) {
      var j :| 0 <= j < |apps| && apps[j].slotId == x;
      assert r[j].slotId == x;
    }
    if a.slotId == x {
      assert r[|apps|].slotId == x;
    }
    if Referenced(r, x) && a.slotId != x {
      var j :| 0 <= j < |r| && r[j].slotId == x;
      assert j < |apps| && apps[j].slotId == x;
    }
  }

  // ---- what each kind of row update keeps ----

  /** Freeing the slot of appointment `k` and removing `k` (cancel, delete, expiry). */
  lemma ReleaseKeeps(cs: seq<Customer>, slots: seq<CalendarSlot>, apps: seq<Appointment>, k: nat)
    requires WellFormed(cs, slots, apps) && k < |apps|
    ensures WellFormed(cs, WithAvailability(slots, apps[k].slotId, true), RemoveAt(apps, k))
    ensures Exclusive(slots, apps) ==> Exclusive(WithAvailability(slots, apps[k].slotId, true), RemoveAt(apps, k))
  {
    var slots', apps' := WithAvailability(slots, apps[k].slotId, true), RemoveAt(apps, k);
    forall i | 0 <= i < |apps'| ensures HasCustomer(cs, apps'[i].customerId) && HasSlot(slots', apps'[i].slotId) {
      var o := if i < k then i else i + 1;
      assert apps'[i] == apps[o];
      HasSlotWithAvailability(slots, apps[k].slotId, true, apps'[i].slotId);
    }
    if Exclusive(slots, apps) {
      forall p | 0 <= p < |slots'| ensures !slots'[p].available <==> Referenced(apps', slots'[p].id) {
        ReferencedRemoveAt(apps, k, slots[p].id);
      }
    }
  }

  /** Marking slot `slotId` unavailable and appending an appointment for it (booking). */
  lemma BookKeeps(cs: seq<Customer>, slots: seq<CalendarSlot>, apps: seq<Appointment>, a: Appointment)
    requires WellFormed(cs, slots, apps)
    requires HasSlot(slots, a.slotId) && HasCustomer(cs, a.customerId) && !Referenced(apps, a.slotId)
    requires forall i :: 0 <= i < |apps| ==> apps[i].id != a.id
    ensures WellFormed(cs, WithAvailability(slots, a.slotId, false), apps + [a])
    ensures Exclusive(slots, apps) ==> Exclusive(WithAvailability(slots, a.slotId, false), apps + [a])
  {
    var slots', apps' := WithAvailability(slots, a.slotId, false), apps + [a];
    forall i | 0 <= i < |apps'| ensures HasCustomer(cs, apps'[i].customerId) && HasSlot(slots', apps'[i].slotId) {
      HasSlotWithAvailability(slots, a.slotId, false, apps'[i].slotId);
    }
    forall i | 0 <= i < |apps| ensures apps[i].slotId != a.slotId {
    }
    if Exclusive(slots, apps) {
      forall p | 0 <= p < |slots'| ensures !slots'[p].available <==> Referenced(apps', slots'[p].id) {
        ReferencedAppend(apps, a, slots[p].id);
      }
    }
  }

  /** Marking an already referenced slot unavailable (the defensive re-check of booking). */
  lemma MarkHeldKeeps(cs: seq<Customer>, slots: seq<CalendarSlot>, apps: seq<Appointment>, id: Uuid)
    requires WellFormed(cs, slots, apps) && Referenced(apps, id)
    ensures WellFormed(cs, WithAvailability(slots, id, false), apps)
    ensures Exclusive(slots, apps) ==> Exclusive(WithAvailability(slots, id, false), apps)
  {
    forall i | 0 <= i < |apps| ensures HasSlot(WithAvailability(slots, id, false), apps[i].slotId) {
      HasSlotWithAvailability(slots, id, false, apps[i].slotId);
    }
  }

  /** A status change touches no slot reference. */
  lemma AdvanceKeeps(cs: seq<Customer>, slots: seq<CalendarSlot>, apps: seq<Appointment>, id: Uuid, from: AppointmentStatus, to: AppointmentStatus)
    requires WellFormed(cs, slots, apps)
    ensures WellFormed(cs, slots, Advance(apps, id, from, to))
    ensures Exclusive(slots, apps) ==> Exclusive(slots, Advance(apps, id, from, to))
  {
    var apps' := Advance(apps, id, from, to);
    forall p | 0 <= p < |slots| ensures Referenced(apps', slots[p].id) <==> Referenced(apps, slots[p].id) {
      ReferencedAdvance(apps, id, from, to, slots[p].id);
    }
  }

  /** Freeing the slot of appointment `k`, removing `k`, in one step against the store. */
  method ReleaseAndRemove(db: Database, k: nat) returns (freed: CalendarSlot)
    requires db.WellFormed() && k < |db.appointments|
    modifies db
    ensures db.WellFormed() && (old(db.Exclusive()) ==> db.Exclusive())
    ensures db.slots == WithAvailability(old(db.slots), old(db.appointments[k].slotId), true)
    ensures db.appointments == RemoveAt(old(db.appointments), k)
    ensures db.customers == old(db.customers) && db.notices == old(db.notices)
    ensures freed.id == old(db.appointments[k].slotId) && freed.available
    ensures exists p :: 0 <= p < |old(db.slots)| && freed == old(db.slots)[p].(available := true)
  {
    var a := db.appointments[k];
    ReleaseKeeps(db.customers, db.slots, db.appointments, k);
    var p := SlotIndex(db.slots, a.slotId).value;
    freed := db.slots[p].(available := true);
    SetAvailableAt(db.slots, p, true);
    db.slots := db.slots[p := freed];
    db.appointments := RemoveAt(db.appointments, k);
  }
}
