/**
 * The Escrow contract as its test (contract/test/Escrow.ts) pins it down:
 * an owner, a cost in wei, the contract's balance and a map from
 * appointment id to the payment made for it. Every call names its sender
 * and, for `pay` and plain transfers, the value sent; a rejected call
 * reverts and leaves the state as it was.
 */
module Escrow {
  import opened Wrappers

  type Address = string

  datatype Payment = Payment(payer: Address, amount: nat)

  datatype EscrowEvent =
    | Paid(appointmentId: string, payer: Address, amount: nat)
    | Refund(appointmentId: string, payer: Address, amount: nat)

  /** An outgoing transfer of wei made by the contract. */
  datatype Transfer = Transfer(to: Address, amount: nat)

  datatype EscrowError =
    | InvalidAppointmentId
    | SentWeiSmallerThanCost
    | SentWeiLargerThanCost
    | AppointmentIdInUse
    | OwnerOnly
    | AppointmentIdNotInUse
    | InsufficientFunds

  /** The revert reason of each error. */
  function Reason(e: EscrowError): string {
    match e
    case InvalidAppointmentId => "Invalid appointment id"
    case SentWeiSmallerThanCost => "Sent wei is smaller than cost"
    case SentWeiLargerThanCost => "Sent wei is larger than cost"
    case AppointmentIdInUse => "Appointment id is already in use"
    case OwnerOnly => "Owner only"
    case AppointmentIdNotInUse => "Appointment id is not in use"
    case InsufficientFunds => "Contract has insufficient funds"
  }

  /** The outcome of `pay` in a given state: None when it goes through. */
  function PayCheck(cost: nat, payments: map<string, Payment>, appointmentId: string, value: nat): (e: Option<EscrowError>)
    ensures e.None? <==> appointmentId != "" && value == cost && appointmentId !in payments
    ensures appointmentId == "" ==> e == Some(InvalidAppointmentId)
    ensures appointmentId != "" && value < cost ==> e == Some(SentWeiSmallerThanCost)
    ensures appointmentId != "" && value > cost ==> e == Some(SentWeiLargerThanCost)
    ensures appointmentId != "" && value == cost && appointmentId in payments ==> e == Some(AppointmentIdInUse)
  {
    if appointmentId == "" then Some(InvalidAppointmentId)
    else if value < cost then Some(SentWeiSmallerThanCost)
    else if value > cost then Some(SentWeiLargerThanCost)
    else if appointmentId in payments then Some(AppointmentIdInUse)
    else None
  }

  /** The outcome of `refund` in a given state: None when it goes through. */
  function RefundCheck(owner: Address, balance: nat, payments: map<string, Payment>,
                       sender: Address, appointmentId: string): (e: Option<EscrowError>)
    ensures e.None? <==> sender == owner && appointmentId != "" && appointmentId in payments
                         && payments[appointmentId].amount <= balance
    ensures sender != owner ==> e == Some(OwnerOnly)
    ensures sender == owner && appointmentId == "" ==> e == Some(InvalidAppointmentId)
    ensures sender == owner && appointmentId != "" && appointmentId !in payments ==> e == Some(AppointmentIdNotInUse)
    ensures sender == owner && appointmentId != "" && appointmentId in payments && payments[appointmentId].amount > balance ==>
              e == Some(InsufficientFunds)
  {
    if sender != owner then Some(OwnerOnly)
    else if appointmentId == "" then Some(InvalidAppointmentId)
    else if appointmentId !in payments then Some(AppointmentIdNotInUse)
    else if payments[appointmentId].amount > balance then Some(InsufficientFunds)
    else None
  }

  function SumTransfers(ts: seq<Transfer>): nat {
    if ts == [] then 0 else SumTransfers(ts[..|ts| - 1]) + ts[|ts| - 1].amount
  }

  class Escrow {
    const owner: Address
    var cost: nat
    var balance: nat
    var payments: map<string, Payment>
    var events: seq<EscrowEvent>
    var transfers: seq<Transfer>
    /** All wei ever received by the contract. */
    ghost var received: nat

    /** Conservation of wei: what came in is held or has been sent out. */
    ghost predicate Valid()
      reads this
    {
      balance + SumTransfers(transfers) == received
    }

    /** Deployment by `owner` with an initial cost. */
    constructor (owner: Address, cost: nat)
      ensures Valid()
      ensures this.owner == owner && this.cost == cost && balance == 0
      ensures payments == map[] && events == [] && transfers == []
    {
      this.owner := owner;
      this.cost := cost;
      balance := 0;
      payments := map[];
      events := [];
      transfers := [];
      received := 0;
    }

    /** The `cost()` getter. */
    function Cost(): (c: nat)
      reads this
      ensures c == cost
    {
      cost
    }

    /** `pay(appointmentId)` with `value` wei attached. */
    method Pay(sender: Address, appointmentId: string, value: nat) returns (r: Result<(), EscrowError>)
      requires Valid()
      modifies this
      ensures Valid()
      ensures r.Err? <==> PayCheck(old(cost), old(payments), appointmentId, value).Some?
      ensures r.Err? ==> r.error == PayCheck(old(cost), old(payments), appointmentId, value).value
                         && unchanged(this)
      ensures r.Ok? ==> payments == old(payments)[appointmentId := Payment(sender, value)]
                        && balance == old(balance) + value
                        && events == old(events) + [Paid(appointmentId, sender, value)]
                        && cost == old(cost) && transfers == old(transfers)
    {
      var e := PayCheck(cost, payments, appointmentId, value);
      if e.Some? {
        return Err(e.value);
      }
      payments := payments[appointmentId := Payment(sender, value)];
      balance := balance + value;
      received := received + value;
      events := events + [Paid(appointmentId, sender, value)];
      return Ok(());
    }

    /**
     * `refund(appointmentId)` by the owner: the amount originally paid goes
     * back to the original payer, whatever the cost is now, and the id is
     * free again.
     */
    method RefundPayment(sender: Address, appointmentId: string) returns (r: Result<(), EscrowError>)
      requires Valid()
      modifies this
      ensures Valid()
      ensures r.Err? <==> RefundCheck(owner, old(balance), old(payments), sender, appointmentId).Some?
      ensures r.Err? ==> r.error == RefundCheck(owner, old(balance), old(payments), sender, appointmentId).value
                         && unchanged(this)
      ensures r.Ok? ==> var p := old(payments)[appointmentId];
                        && payments == old(payments) - {appointmentId}
                        && balance == old(balance) - p.amount
                        && transfers == old(transfers) + [Transfer(p.payer, p.amount)]
                        && events == old(events) + [Refund(appointmentId, p.payer, p.amount)]
                        && cost == old(cost)
    {
      var e := RefundCheck(owner, balance, payments, sender, appointmentId);
      if e.Some? {
        return Err(e.value);
      }
      var p := payments[appointmentId];
      payments := payments - {appointmentId};
      balance := balance - p.amount;
      transfers := transfers + [Transfer(p.payer, p.amount)];
      events := events + [Refund(appointmentId, p.payer, p.amount)];
      return Ok(());
    }

    /** `setCost(newCost)`, owner only; recorded payments keep their amounts. */
    method SetCost(sender: Address, newCost: nat) returns (r: Result<(), EscrowError>)
      requires Valid()
      modifies this
      ensures Valid()
      ensures r.Err? <==> sender != owner
      ensures r.Err? ==> r.error == OwnerOnly && unchanged(this)
      ensures r.Ok? ==> cost == newCost && balance == old(balance) && payments == old(payments)
                        && events == old(events) && transfers == old(transfers)
    {
      if sender != owner {
        return Err(OwnerOnly);
      }
      cost := newCost;
      return Ok(());
    }

    /** `withdraw()`, owner only: the whole balance goes to the owner; payments stay on record. */
    method Withdraw(sender: Address) returns (r: Result<(), EscrowError>)
      requires Valid()
      modifies this
      ensures Valid()
      ensures r.Err? <==> sender != owner
      ensures r.Err? ==> r.error == OwnerOnly && unchanged(this)
      ensures r.Ok? ==> balance == 0 && transfers == old(transfers) + [Transfer(owner, old(balance))]
                        && cost == old(cost) && payments == old(payments) && events == old(events)
    {
      if sender != owner {
        return Err(OwnerOnly);
      }
      transfers := transfers + [Transfer(owner, balance)];
      balance := 0;
      return Ok(());
    }

    /** A plain transfer of `value` wei to the contract. */
    method Receive(value: nat)
      requires Valid()
      modifies this
      ensures Valid()
      ensures balance == old(balance) + value
      ensures cost == old(cost) && payments == old(payments) && events == old(events) && transfers == old(transfers)
    {
      balance := balance + value;
      received := received + value;
    }
  }

  /** Deployment with cost 100, the three rejected payments, the accepted one and its replay. */
  method PayPhase(escrow: Escrow, customer: Address)
    requires escrow.Valid() && escrow.owner != customer
    requires escrow.cost == 100 && escrow.balance == 0 && escrow.payments == map[] && escrow.events == []
    modifies escrow
    ensures escrow.Valid()
    ensures escrow.cost == 100 && escrow.balance == 100 && escrow.payments == map["id" := Payment(customer, 100)]
    ensures escrow.events == [Paid("id", customer, 100)]
  {
    var r := escrow.Pay(customer, "", 100);
    assert r == Err(InvalidAppointmentId) && Reason(r.error) == "Invalid appointment id";
    r := escrow.Pay(customer, "id", 0);
    assert r == Err(SentWeiSmallerThanCost);
    r := escrow.Pay(customer, "id", 101);
    assert r == Err(SentWeiLargerThanCost);
    r := escrow.Pay(customer, "id", 100);
    assert r.Ok? && escrow.balance == 100;
    r := escrow.Pay(customer, "id", 100);
    assert r == Err(AppointmentIdInUse);
  }

  /** The rejected refunds and cost change, then the refund of the full 100 after the cost fell to 50. */
  method RefundPhase(escrow: Escrow, customer: Address)
    requires escrow.Valid() && escrow.owner != customer
    requires escrow.cost == 100 && escrow.balance == 100 && escrow.payments == map["id" := Payment(customer, 100)]
    modifies escrow
    ensures escrow.Valid()
    ensures escrow.cost == 50 && escrow.balance == 0 && escrow.payments == map[]
    ensures escrow.events == old(escrow.events) + [Refund("id", customer, 100)]
  {
    var owner := escrow.owner;
    var r := escrow.RefundPayment(customer, "");
    assert r == Err(OwnerOnly);
    r := escrow.RefundPayment(owner, "");
    assert r == Err(InvalidAppointmentId);
    r := escrow.RefundPayment(owner, "id1");
    assert r == Err(AppointmentIdNotInUse);
    r := escrow.SetCost(customer, 50);
    assert r == Err(OwnerOnly);
    r := escrow.SetCost(owner, 50);
    assert r.Ok? && escrow.Cost() == 50;
    r := escrow.RefundPayment(owner, "id");
    assert r.Ok? && escrow.balance == 0 && escrow.transfers[|escrow.transfers| - 1] == Transfer(customer, 100);
    assert escrow.payments == map[];
    r := escrow.RefundPayment(owner, "id");
    assert r == Err(AppointmentIdNotInUse);
  }

  /** The id paid again at cost 50, the withdrawal that leaves a refund unfunded, and a top-up of 1000. */
  method WithdrawPhase(escrow: Escrow, customer: Address)
    requires escrow.Valid() && escrow.owner != customer
    requires escrow.cost == 50 && escrow.balance == 0 && escrow.payments == map[]
    modifies escrow
    ensures escrow.Valid()
    ensures escrow.cost == 50 && escrow.balance == 1000 && escrow.payments == map["id" := Payment(customer, 50)]
    ensures escrow.events == old(escrow.events) + [Paid("id", customer, 50)]
  {
    var owner := escrow.owner;
    var r := escrow.Pay(customer, "id", 50);
    assert r.Ok? && escrow.balance == 50;
    r := escrow.Withdraw(customer);
    assert r == Err(OwnerOnly);
    r := escrow.Withdraw(owner);
    assert r.Ok? && escrow.balance == 0;
    r := escrow.RefundPayment(owner, "id");
    assert r == Err(InsufficientFunds) && Reason(r.error) == "Contract has insufficient funds";
    escrow.Receive(1000);
  }

  /** Cost 0: a payment and a refund of 0 wei leave the balance at 1000. */
  method FreePhase(escrow: Escrow, customer: Address)
    requires escrow.Valid() && escrow.owner != customer
    requires escrow.cost == 50 && escrow.balance == 1000 && escrow.payments == map["id" := Payment(customer, 50)]
    modifies escrow
    ensures escrow.Valid()
    ensures escrow.cost == 0 && escrow.balance == 1000
    ensures escrow.events == old(escrow.events) + [Paid("id2", customer, 0), Refund("id2", customer, 0)]
  {
    var owner := escrow.owner;
    var r := escrow.SetCost(owner, 0);
    assert r.Ok? && escrow.Cost() == 0;
    r := escrow.Pay(customer, "id2", 0);
    assert r.Ok? && escrow.balance == 1000;
    r := escrow.RefundPayment(owner, "id2");
    assert r.Ok? && escrow.balance == 1000;
    r := escrow.RefundPayment(owner, "id2");
    assert r == Err(AppointmentIdNotInUse);
  }

  /**
   * The test run, replayed: in each phase every rejection carries the
   * reason the test expects and every balance is the one it expects; the
   * events are the ones it asserts were emitted, in order.
   */
  method EscrowScenario(owner: Address, customer: Address) returns (log: seq<EscrowEvent>)
    requires owner != customer
    ensures log == [Paid("id", customer, 100), Refund("id", customer, 100),
                    Paid("id", customer, 50), Paid("id2", customer, 0), Refund("id2", customer, 0)]
  {
    var escrow := new Escrow(owner, 100);
    assert escrow.balance == 0 && escrow.Cost() == 100;
    PayPhase(escrow, customer);
    RefundPhase(escrow, customer);
    WithdrawPhase(escrow, customer);
    FreePhase(escrow, customer);
    log := escrow.events;
  }
}
