/**
 * The `Paid` event handler of backend/src/paymentlistener.ts. The event
 * `Paid(string indexed appointmentId, address indexed customer, uint256 cost)`
 * carries in topics[1] the Keccak-256 hash of the appointment id (an
 * indexed dynamic type is logged as its hash, per the "Events" section of
 * the Solidity ABI specification) and in topics[2] the payer. `ethers.id`
 * is the parameter `hash`; the feed of events is the input.
 */
module PaymentListener {
  import opened Wrappers
  import opened Types
  import opened Seqs
  import opened Store
  import Actions
  import Resolvers

  /** `const [_, appointmentIdHash, customerAddress] = event.topics`; a missing element is undefined. */
  datatype PaidTopics = PaidTopics(appointmentIdHash: Option<string>, customerAddress: Option<string>)

  function DestructureTopics(topics: seq<string>): (t: PaidTopics)
    ensures t.appointmentIdHash.Some? <==> |topics| >= 2
    ensures t.appointmentIdHash.Some? ==> t.appointmentIdHash.value == topics[1]
    ensures t.customerAddress.Some? <==> |topics| >= 3
    ensures t.customerAddress.Some? ==> t.customerAddress.value == topics[2]
  {
    PaidTopics(if |topics| >= 2 then Some(topics[1]) else None,
               if |topics| >= 3 then Some(topics[2]) else None)
  }

  /**
   * The position in the pending list of the first appointment whose hashed
   * id equals the topic; none when the topic is missing.
   */
  function MatchPending(pending: seq<Appointment>, appointmentIdHash: Option<string>, hash: string -> string): (r: Option<nat>)
    ensures appointmentIdHash.None? ==> r.None?
    ensures r.Some? ==> r.value < |pending| && hash(pending[r.value].id) == appointmentIdHash.value
    ensures r.Some? ==> forall j :: 0 <= j < r.value ==> hash(pending[j].id) != appointmentIdHash.value
    ensures r.None? && appointmentIdHash.Some? ==> forall j :: 0 <= j < |pending| ==> hash(pending[j].id) != appointmentIdHash.value
  {
    if appointmentIdHash.None? then None
    else FirstIndex(pending, (a: Appointment) => hash(a.id) == appointmentIdHash.value)
  }

  /** `ethers.id` separates the ids of the table (collision resistance of Keccak-256, taken as a hypothesis). */
  predicate HashSeparates(apps: seq<Appointment>, hash: string -> string) {
    forall i, j :: 0 <= i < |apps| && 0 <= j < |apps| && hash(apps[i].id) == hash(apps[j].id) ==> apps[i].id == apps[j].id
  }

  /**
   * Once the matched appointment has been paid, the same event matches
   * nothing: every pending appointment left has an id of a different hash.
   */
  lemma {:induction false} NoMatchAfterPaid(apps: seq<Appointment>, topic: string, hash: string -> string, id: Uuid)
    requires HashSeparates(apps, hash)
    requires exists i :: 0 <= i < |apps| && apps[i].id == id && hash(id) == topic
    ensures MatchPending(Actions.PendingPaymentAppointments(Actions.Paid(apps, id)), Some(topic), hash).None?
  {
    var paid := Actions.Paid(apps, id);
    var pending := Actions.PendingPaymentAppointments(paid);
    var w :| 0 <= w < |apps| && apps[w].id == id && hash(id) == topic;
    Actions.NoPendingAfterPaid(apps, id);
    forall j | 0 <= j < |pending| ensures hash(pending[j].id) != topic {
      assert pending[j] in paid;
      var i :| 0 <= i < |paid| && paid[i] == pending[j];
      assert paid[i].id == apps[i].id;
      assert apps[i].id != apps[w].id;
    }
  }

  /**
   * The handler: with no pending appointment matching topics[1] nothing
   * happens; otherwise `processPayment` runs for the matched id.
   */
  method OnPaidEvent(db: Database, topics: seq<string>, hash: string -> string) returns (paidFor: Option<Uuid>)
    requires db.WellFormed()
    modifies db
    ensures db.WellFormed() && (old(db.Exclusive()) ==> db.Exclusive())
    ensures db.customers == old(db.customers) && db.slots == old(db.slots)
    ensures var pending := Actions.PendingPaymentAppointments(old(db.appointments));
      var m := MatchPending(pending, DestructureTopics(topics).appointmentIdHash, hash);
      && (m.None? ==> paidFor.None? && db.appointments == old(db.appointments) && db.notices == old(db.notices))
      && (m.Some? ==> paidFor == Some(pending[m.value].id)
                      && db.appointments == Actions.Paid(old(db.appointments), pending[m.value].id)
                      && |db.notices| == |old(db.notices)| + 1
                      && HasSlot(old(db.slots), pending[m.value].slotId)
                      && db.notices == old(db.notices) + [Notice(pending[m.value].id, Resolvers.SlotOf(old(db.slots), pending[m.value]), NewStatus(Reserved))])
    ensures paidFor.Some? ==>
              (exists i :: 0 <= i < |old(db.appointments)| && old(db.appointments)[i].id == paidFor.value
                           && old(db.appointments)[i].status == PendingPayment && hash(paidFor.value) == topics[1])
  {
    var event := DestructureTopics(topics);
    var pending := Actions.PendingPaymentAppointments(db.appointments);
    var m := MatchPending(pending, event.appointmentIdHash, hash);
    if m.None? {
      return None;
    }
    var appointment := pending[m.value];
    assert appointment in db.appointments;
    var i :| 0 <= i < |db.appointments| && db.appointments[i] == appointment;
    assert AppointmentIndex(db.appointments, appointment.id) == Some(i);
    var _ := Actions.ProcessPayment(db, appointment.id);
    return Some(appointment.id);
  }

  /**
   * The feed delivers at least once: a second delivery of the same event
   * matches nothing, so the two deliveries together leave the table as the
   * first alone, with one notice sent.
   */
  method RedeliveredEvent(db: Database, topics: seq<string>, hash: string -> string) returns (first: Option<Uuid>, second: Option<Uuid>)
    requires db.WellFormed() && HashSeparates(db.appointments, hash)
    modifies db
    ensures db.WellFormed() && (old(db.Exclusive()) ==> db.Exclusive())
    ensures second.None?
    ensures db.customers == old(db.customers) && db.slots == old(db.slots)
    ensures first.Some? ==> db.appointments == Actions.Paid(old(db.appointments), first.value)
                            && |db.notices| == |old(db.notices)| + 1
    ensures first.None? ==> db.appointments == old(db.appointments) && db.notices == old(db.notices)
  {
    first := OnPaidEvent(db, topics, hash);
    if first.Some? {
      NoMatchAfterPaid(old(db.appointments), topics[1], hash, first.value);
    }
    second := OnPaidEvent(db, topics, hash);
  }
}
