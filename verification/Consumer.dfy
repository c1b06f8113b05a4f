/** Personal permissions and the loop that asks before it executes. */
module Consumer {
  import opened Wrappers
  import opened Chain
  import opened ReceiptLedger
  import opened Cashier
  import opened Kitchen
  import opened Loop

  datatype Permission = ALLOW | ASK | BLOCK
  type Settings = map<string, Permission>

  function EffectiveState(settings: Settings, capability: Capability): Permission {
    if capability.id in settings then settings[capability.id]
    else if capability.requiresUserConfirmation then ASK
    else ALLOW
  }

  class Preferences {
    var settings: Settings

    constructor (settings: Settings)
      ensures this.settings == settings
    {
      this.settings := settings;
    }

    method SetState(capabilityId: string, state: Permission)
      modifies this
      ensures settings == old(settings)[capabilityId := state]
    {
      settings := settings[capabilityId := state];
    }

    /** Forget an explicit setting. */
    method Clear(capabilityId: string)
      modifies this
      ensures settings == old(settings) - {capabilityId}
    {
      settings := settings - {capabilityId};
    }
  }

  /** What the prompt would come to: the user's answer, and whether an "allow always" can be saved;
      or the approver raises instead of answering. */
  datatype Approval = Approval(allow: bool, remember: bool, saved: bool) | Unanswered
  {
    predicate Yes() {
      Approval? && allow
    }

    predicate Always() {
      Yes() && remember
    }

    /** Asking ends in an exception. */
    predicate Lost() {
      Unanswered? || (Always() && !saved)
    }
  }

  datatype ConsumerStatus = REJECTED_BY_POLICY | BLOCKED_BY_USER | DENIED_BY_USER | DONE | FAILED

  datatype ConsumerOutcome = ConsumerOutcome(
    status: ConsumerStatus,
    reason: Option<Reason>,
    receipt: Receipt,
    draft: Option<string>,
    confirmationRequired: bool,
    confirmationAsked: bool)
  {
    /** What the caller is told, for a call that returns: which gate stopped the order or that none
        did, the receipt's own reason, the draft exactly when the order is done, and a prompt
        exactly when there was one. */
    predicate Tells(house: House, store: StoreState, settings: Settings, order: Order, draw: Draw, answer: Approval) {
      var ticketed := house.Outcome(store, order, draw).Ticketed?;
      var asked := Prompts(house, store, settings, order, draw);
      var permitted := Permitted(house, store, settings, order, draw, answer);
      && (status == REJECTED_BY_POLICY <==> !ticketed)
      && (status == BLOCKED_BY_USER <==> ticketed && !asked && !permitted)
      && (status == DENIED_BY_USER <==> asked && !answer.Yes())
      && (status == DONE <==> permitted && Succeeded(draw.kitchen))
      && (status == FAILED <==> permitted && !Succeeded(draw.kitchen))
      && reason == receipt.reason
      && draft == (if status == DONE then draw.kitchen.draft else None)
      && confirmationRequired == asked && confirmationAsked == asked
    }
  }

  function ConsumerRejection(order: Order, ticket: Ticket, reason: Reason, draw: Draw): Receipt {
    Receipt(draw.receiptId, order.orderId, Some(ticket.ticketId), REJECTED, Some(reason),
            None, None, order.Meta(), None)
  }

  /** The permission a personal order meets; only defined for an order on the menu. */
  function StateFor(house: House, settings: Settings, order: Order): Permission
    requires order.capabilityId in house.menu
  {
    EffectiveState(settings, house.menu[order.capabilityId])
  }

  lemma TicketedOnMenu(house: House, store: StoreState, order: Order, draw: Draw)
    requires house.Outcome(store, order, draw).Ticketed?
    ensures order.capabilityId in house.menu
  {
    AllowMeans(order, house.menu, house.policies, store, draw.checkTime);
  }

  /** Does this order bring up the prompt? */
  predicate Prompts(house: House, store: StoreState, settings: Settings, order: Order, draw: Draw) {
    && house.Outcome(store, order, draw).Ticketed?
    && order.capabilityId in house.menu
    && StateFor(house, settings, order) == ASK
  }

  /** May the chef run for this order? */
  predicate Permitted(house: House, store: StoreState, settings: Settings, order: Order, draw: Draw, answer: Approval) {
    && house.Outcome(store, order, draw).Ticketed?
    && order.capabilityId in house.menu
    && (StateFor(house, settings, order) == ALLOW
        || (StateFor(house, settings, order) == ASK && answer.Yes() && !answer.Lost()))
  }

  /** `ConsumerLoop.place` lets an exception out of a table that can be appended to: asking ended
      in one, or the runner raises. */
  predicate ConsumerRaises(house: House, store: StoreState, settings: Settings, order: Order, draw: Draw,
                           answer: Approval)
  {
    || (Prompts(house, store, settings, order, draw) && answer.Lost())
    || (Permitted(house, store, settings, order, draw, answer) && RunnerRaises(order.orderId, draw.kitchen))
  }

  /** The receipt `ConsumerLoop.place` comes to append, if any. */
  function ConsumerReceipt(house: House, store: StoreState, settings: Settings, order: Order, draw: Draw,
                           answer: Approval): Option<Receipt>
  {
    match house.Outcome(store, order, draw)
    case Refused(_, receipt) => Some(receipt)
    case Ticketed(ticket) =>
      TicketedOnMenu(house, store, order, draw);
      match StateFor(house, settings, order)
      case BLOCK => Some(ConsumerRejection(order, ticket, USER_BLOCKED, draw))
      case ASK =>
        if answer.Lost() then None
        else if answer.allow then ExecutionReceipt(house.c, ticket, order.Meta(), draw)
        else Some(ConsumerRejection(order, ticket, USER_DENIED, draw))
      case ALLOW => ExecutionReceipt(house.c, ticket, order.Meta(), draw)
  }

  /** An "allow always" holds in memory even if saving it then fails. */
  function SettingsAfter(house: House, store: StoreState, settings: Settings, order: Order, draw: Draw,
                         answer: Approval): Settings
  {
    if Prompts(house, store, settings, order, draw) && answer.Always()
    then settings[order.capabilityId := ALLOW]
    else settings
  }

  class ConsumerLoop {
    const loop: SentinelLoop
    const prefs: Preferences

    constructor (loop: SentinelLoop, prefs: Preferences)
      ensures this.loop == loop && this.prefs == prefs
    {
      this.loop := loop;
      this.prefs := prefs;
    }

    /** `place`; `None` is the exception. */
    method Place(order: Order, draw: Draw, answer: Approval) returns (r: Option<ConsumerOutcome>)
      requires loop.Ready()
      modifies loop.store, loop.ledger`rows, prefs
      ensures loop.store.State() == loop.house.Store(old(loop.store.State()), order, draw)
      ensures prefs.settings
           == SettingsAfter(loop.house, old(loop.store.State()), old(prefs.settings), order, draw, answer)
      ensures r.None? <==>
        || !HeadReadable(old(loop.ledger.rows))
        || ConsumerRaises(loop.house, old(loop.store.State()), old(prefs.settings), order, draw, answer)
      ensures loop.ledger.rows
           == AppendedIf(loop.house.c, old(loop.ledger.rows),
                         ConsumerReceipt(loop.house, old(loop.store.State()), old(prefs.settings), order, draw, answer))
      ensures r.Some? ==>
        && ConsumerReceipt(loop.house, old(loop.store.State()), old(prefs.settings), order, draw, answer)
           == Some(r.value.receipt)
        && r.value.Tells(loop.house, old(loop.store.State()), old(prefs.settings), order, draw, answer)
    {
      hide Appended, HeadReadable, ProcessOutcome, ProcessStore, HasNul;
      var house := loop.house;
      ghost var store := loop.store.State();
      var outcome := ProcessOrder(house.c, house.menu, house.policies, loop.store, loop.ledger, order, draw);
      assert outcome.Some? ==> outcome.value == house.Outcome(store, order, draw);
      if outcome.None? {
        return None;
      }
      match outcome.value {
        case Refused(reason, receipt) =>
          RefusalReason(house, store, order, draw);
          return Some(ConsumerOutcome(REJECTED_BY_POLICY, Some(reason), receipt, None, false, false));
        case Ticketed(ticket) =>
          TicketedOnMenu(house, store, order, draw);
          TicketNamesOrder(house, store, order, draw);
          var state := EffectiveState(prefs.settings, house.menu[order.capabilityId]);
          if state == BLOCK {
            var receipt := ConsumerRejection(order, ticket, USER_BLOCKED, draw);
            var appended := loop.ledger.Append(receipt);
            if !appended {
              return None;
            }
            return Some(ConsumerOutcome(BLOCKED_BY_USER, Some(USER_BLOCKED), receipt, None, false, false));
          }
          var asked := false;
          if state == ASK {
            asked := true;
            if answer.Unanswered? {
              return None;
            }
            if answer.allow && answer.remember {
              prefs.SetState(order.capabilityId, ALLOW);
              if !answer.saved {
                return None;
              }
            }
            if !answer.allow {
              var receipt := ConsumerRejection(order, ticket, USER_DENIED, draw);
              var appended := loop.ledger.Append(receipt);
              if !appended {
                return None;
              }
              return Some(ConsumerOutcome(DENIED_BY_USER, Some(USER_DENIED), receipt, None, true, true));
            }
          }
          var chef := RunChef(house.c, ticket, loop.ledger, order.Meta(), draw);
          if chef.None? {
            return None;
          }
          var fulfilled := chef.value.returncode == 0 && chef.value.draft.Some?;
          return Some(ConsumerOutcome(
              if fulfilled then DONE else FAILED,
              if fulfilled then None else Some(EXECUTION_FAILED),
              chef.value.receipt, if fulfilled then chef.value.draft else None, state == ASK, asked));
      }
    }
  }

  lemma RefusalReason(house: House, store: StoreState, order: Order, draw: Draw)
    requires house.Outcome(store, order, draw).Refused?
    ensures house.Outcome(store, order, draw).receipt.reason == Some(house.Outcome(store, order, draw).reason)
  {
  }
}
