/** The enterprise loop: cashier, then chef. */
module Loop {
  import opened Wrappers
  import opened Json
  import opened Chain
  import opened ReceiptLedger
  import opened Cashier
  import opened Kitchen

  /** What is fixed when a loop is built. */
  datatype House = House(c: Crypto, menu: Menu, policies: seq<Policy>)
  {
    function Outcome(store: StoreState, order: Order, draw: Draw): Outcome {
      ProcessOutcome(c, menu, policies, store, order, draw)
    }

    function Store(store: StoreState, order: Order, draw: Draw): StoreState {
      ProcessStore(menu, policies, store, order, draw)
    }

    /** `SentinelLoop.place` lets an exception out of a table that can be appended to: the order is
        ticketed, and the runner raises. */
    predicate PlaceRaises(store: StoreState, order: Order, draw: Draw) {
      Outcome(store, order, draw).Ticketed? && RunnerRaises(order.orderId, draw.kitchen)
    }

    /** The receipt `SentinelLoop.place` comes to append, if any. */
    function PlaceReceipt(store: StoreState, order: Order, draw: Draw): Option<Receipt> {
      match Outcome(store, order, draw)
      case Refused(_, receipt) => Some(receipt)
      case Ticketed(ticket) => ExecutionReceipt(c, ticket, order.Meta(), draw)
    }
  }

  class SentinelLoop {
    const house: House
    const store: CashierStore
    const ledger: Ledger
    var lastChef: Option<ChefResult>
    var currentOrderMeta: Option<OrderMeta>

    constructor (house: House, store: CashierStore, ledger: Ledger)
      ensures this.house == house && this.store == store && this.ledger == ledger
      ensures lastChef.None?
    {
      this.house := house;
      this.store := store;
      this.ledger := ledger;
      lastChef := None;
      currentOrderMeta := None;
    }

    /** The loop's ledger signs and hashes as the loop does. */
    ghost predicate Ready() {
      ledger.c == house.c
    }

    /** The engine's spawn hook; false is the exception, which leaves everything as it was. */
    method Spawn(ticket: Ticket, draw: Draw) returns (returned: bool)
      requires Ready() && currentOrderMeta.Some?
      modifies this`lastChef, ledger`rows
      ensures returned <==> HeadReadable(old(ledger.rows)) && !RunnerRaises(ticket.orderId, draw.kitchen)
      ensures lastChef
           == if returned then ChefResultOf(house.c, ticket, currentOrderMeta.value, draw) else old(lastChef)
      ensures ledger.rows
           == AppendedIf(house.c, old(ledger.rows), ExecutionReceipt(house.c, ticket, currentOrderMeta.value, draw))
    {
      hide HeadReadable, Appended, HasNul;
      var result := RunChef(house.c, ticket, ledger, currentOrderMeta.value, draw);
      if result.Some? {
        lastChef := result;
      }
      returned := result.Some?;
    }

    /** `place`: the chef runs exactly when the cashier issued a ticket. Either way one receipt is
        appended, unless the runner raises or the table cannot be appended to: then the exception is
        let out (`None`) with the nonce spent, an accepted order stamped, and nothing appended. */
    method Place(order: Order, draw: Draw) returns (outcome: Option<Outcome>)
      requires Ready()
      modifies this, store, ledger`rows
      ensures var before := old(store.State());
        outcome == if !HeadReadable(old(ledger.rows)) || house.PlaceRaises(before, order, draw) then None
                   else Some(house.Outcome(before, order, draw))
      ensures store.State() == house.Store(old(store.State()), order, draw)
      ensures ledger.rows
           == AppendedIf(house.c, old(ledger.rows), house.PlaceReceipt(old(store.State()), order, draw))
      ensures lastChef == if outcome.Some? && outcome.value.Ticketed?
                          then ChefResultOf(house.c, outcome.value.ticket, order.Meta(), draw) else None
    {
      hide Appended, HeadReadable, ProcessOutcome, ProcessStore, HasNul;
      ghost var before := store.State();
      lastChef := None;
      currentOrderMeta := Some(order.Meta());
      outcome := ProcessOrder(house.c, house.menu, house.policies, store, ledger, order, draw);
      if outcome.Some? && outcome.value.Ticketed? {
        TicketNamesOrder(house, before, order, draw);
        var returned := Spawn(outcome.value.ticket, draw);
        if !returned {
          return None;
        }
      }
    }
  }

  lemma TicketNamesOrder(house: House, store: StoreState, order: Order, draw: Draw)
    requires house.Outcome(store, order, draw).Ticketed?
    ensures house.Outcome(store, order, draw).ticket.orderId == order.orderId
  {
    hide EvaluateOrder, Canonical;
  }
}
