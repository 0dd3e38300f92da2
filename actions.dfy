/**
 * The payment-driven transitions of backend/src/actions.ts: the pending
 * list, `processPayment` (PendingPayment to Reserved), the expiry
 * transition `cancelIfNotPaid`, `deleteAppointment` and `notifyCustomer`,
 * whose console line is modelled as an append to the store's notice log.
 */
module Actions {
  import opened Wrappers
  import opened Types
  import opened Seqs
  import opened Store
  import Resolvers

  /** getPendingPaymentAppointments: the PendingPayment rows, in table order. */
  function PendingPaymentAppointments(apps: seq<Appointment>): (r: seq<Appointment>)
    ensures forall a :: a in r <==> a in apps && a.status == PendingPayment
  {
    Filter(apps, (a: Appointment) => a.status == PendingPayment)
  }

  /** The table after paying for `id`: that row moves from PendingPayment to Reserved if it is pending. */
  function Paid(apps: seq<Appointment>, id: Uuid): (r: seq<Appointment>)
    ensures |r| == |apps|
    ensures forall i :: 0 <= i < |r| ==>
      && r[i].id == apps[i].id && r[i].customerId == apps[i].customerId && r[i].slotId == apps[i].slotId
      && (apps[i].id != id ==> r[i].status == apps[i].status)
    ensures forall i :: 0 <= i < |r| && r[i].id == id ==>
      r[i].status == (if apps[i].status == PendingPayment then Reserved else apps[i].status)
    ensures forall i :: 0 <= i < |r| && r[i].id == id ==> r[i].status != PendingPayment
  {
    Advance(apps, id, PendingPayment, Reserved)
  }

  /** Paying twice for the same id leaves the table as paying once. */
  lemma PaidIdempotent(apps: seq<Appointment>, id: Uuid)
    ensures Paid(Paid(apps, id), id) == Paid(apps, id)
  {
    AdvanceIdempotent(apps, id, PendingPayment, Reserved);
  }

  /** After paying for `id`, no pending appointment has that id. */
  lemma {:induction false} NoPendingAfterPaid(apps: seq<Appointment>, id: Uuid)
    ensures forall a :: a in PendingPaymentAppointments(Paid(apps, id)) ==> a.id != id
  {
    var paid := Paid(apps, id);
    forall a | a in PendingPaymentAppointments(paid) ensures a.id != id {
      var i :| 0 <= i < |paid| && paid[i] == a;
    }
  }

  /** notifyCustomer: one line recording the appointment, its slot and the new status. */
  method NotifyCustomer(db: Database, appointmentId: Uuid, slot: CalendarSlot, status: NoticeStatus)
    modifies db
    ensures db.notices == old(db.notices) + [Notice(appointmentId, slot, status)]
    ensures db.customers == old(db.customers) && db.slots == old(db.slots) && db.appointments == old(db.appointments)
  {
    db.notices := db.notices + [Notice(appointmentId, slot, status)];
  }

  /**
   * processPayment: an error for an unknown id; a pending appointment
   * becomes Reserved and one notice is written; any other status is left
   * alone with no notice.
   */
  method ProcessPayment(db: Database, appointmentId: Uuid) returns (r: Result<(), Error>)
    requires db.WellFormed()
    modifies db
    ensures db.WellFormed() && (old(db.Exclusive()) ==> db.Exclusive())
    ensures db.customers == old(db.customers) && db.slots == old(db.slots)
    ensures var k := AppointmentIndex(old(db.appointments), appointmentId);
      && (k.None? ==> r == Err(NoAppointmentFound))
      && (k.Some? ==> r == Ok(()))
      && (k.Some? && old(db.appointments)[k.value].status == PendingPayment ==>
            db.notices == old(db.notices) + [Notice(appointmentId, Resolvers.SlotOf(old(db.slots), old(db.appointments)[k.value]), NewStatus(Reserved))])
      && (k.None? || old(db.appointments)[k.value].status != PendingPayment ==>
            db.appointments == old(db.appointments) && db.notices == old(db.notices))
    ensures db.appointments == Paid(old(db.appointments), appointmentId)
  {
    var k := AppointmentIndex(db.appointments, appointmentId);
    if k.None? {
      return Err(NoAppointmentFound);
    }
    var a := db.appointments[k.value];
    if a.status == PendingPayment {
      AdvanceKeeps(db.customers, db.slots, db.appointments, appointmentId, PendingPayment, Reserved);
      SetStatusAt(db.appointments, k.value, Reserved);
      db.appointments := db.appointments[k.value := a.(status := Reserved)];
      NotifyCustomer(db, appointmentId, Resolvers.SlotOf(db.slots, a), NewStatus(Reserved));
    } else {
      assert db.appointments == Paid(db.appointments, appointmentId);
    }
    return Ok(());
  }

  /**
   * deleteAppointment: false for an unknown id; otherwise the slot is freed,
   * the row removed and a 'CANCELLED' notice written, so a second call
   * returns false.
   */
  method DeleteAppointment(db: Database, appointmentId: Uuid) returns (deleted: bool)
    requires db.WellFormed()
    modifies db
    ensures db.WellFormed() && (old(db.Exclusive()) ==> db.Exclusive())
    ensures db.customers == old(db.customers)
    ensures var k := AppointmentIndex(old(db.appointments), appointmentId);
      && (deleted <==> k.Some?)
      && (k.None? ==> db.slots == old(db.slots) && db.appointments == old(db.appointments) && db.notices == old(db.notices))
      && (k.Some? ==>
            && db.slots == WithAvailability(old(db.slots), old(db.appointments)[k.value].slotId, true)
            && db.appointments == RemoveAt(old(db.appointments), k.value)
            && db.notices == old(db.notices) + [Notice(appointmentId, Resolvers.SlotOf(old(db.slots), old(db.appointments)[k.value]).(available := true), Cancelled)])
    ensures deleted ==> AppointmentIndex(db.appointments, appointmentId).None?
  {
    var k := AppointmentIndex(db.appointments, appointmentId);
    if k.None? {
      return false;
    }
    ghost var before := db.appointments;
    ghost var slotsBefore := db.slots;
    var freed := ReleaseAndRemove(db, k.value);
    assert freed == Resolvers.SlotOf(slotsBefore, before[k.value]).(available := true);
    forall i | 0 <= i < |db.appointments| ensures db.appointments[i].id != appointmentId {
      var o := if i < k.value then i else i + 1;
      assert db.appointments[i] == before[o];
    }
    NotifyCustomer(db, appointmentId, freed, Cancelled);
    return true;
  }

  /**
   * cancelIfNotPaid: an error for an unknown id; a still pending
   * appointment is deleted; once the status has moved on it does nothing.
   */
  method CancelIfNotPaid(db: Database, appointmentId: Uuid) returns (r: Result<(), Error>)
    requires db.WellFormed()
    modifies db
    ensures db.WellFormed() && (old(db.Exclusive()) ==> db.Exclusive())
    ensures db.customers == old(db.customers)
    ensures var k := AppointmentIndex(old(db.appointments), appointmentId);
      && (k.None? ==> r == Err(NoAppointmentFound))
      && (k.Some? ==> r == Ok(()))
      && (k.Some? && old(db.appointments)[k.value].status == PendingPayment ==>
            && db.slots == WithAvailability(old(db.slots), old(db.appointments)[k.value].slotId, true)
            && db.appointments == RemoveAt(old(db.appointments), k.value)
            && |db.notices| == |old(db.notices)| + 1 && db.notices[|db.notices| - 1].status == Cancelled
            && db.notices == old(db.notices) + [Notice(appointmentId, Resolvers.SlotOf(old(db.slots), old(db.appointments)[k.value]).(available := true), Cancelled)])
      && (k.None? || old(db.appointments)[k.value].status != PendingPayment ==>
            db.slots == old(db.slots) && db.appointments == old(db.appointments) && db.notices == old(db.notices))
  {
    var k := AppointmentIndex(db.appointments, appointmentId);
    if k.None? {
      return Err(NoAppointmentFound);
    }
    if db.appointments[k.value].status == PendingPayment {
      var _ := DeleteAppointment(db, appointmentId);
    }
    return Ok(());
  }

  /**
   * The race the status guard settles: once the payment has been processed,
   * the expiry firing for the same appointment changes nothing.
   */
  method PaymentThenExpiry(db: Database, appointmentId: Uuid)
    requires db.WellFormed()
    modifies db
    ensures db.WellFormed() && (old(db.Exclusive()) ==> db.Exclusive())
    ensures db.slots == old(db.slots) && db.appointments == Paid(old(db.appointments), appointmentId)
  {
    var _ := ProcessPayment(db, appointmentId);
    var k := AppointmentIndex(db.appointments, appointmentId);
    if k.Some? {
      assert db.appointments[k.value].status != PendingPayment;
    }
    var _ := CancelIfNotPaid(db, appointmentId);
  }
}
