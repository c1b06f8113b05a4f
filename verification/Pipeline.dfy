/** Whole runs of the order pipeline: any interleaving of enterprise orders, personal orders and
    gateway intakes over one cashier store, one receipt table and one set of permissions. */
module Pipeline {
  import opened Wrappers
  import opened Json
  import opened Chain
  import opened Tamper
  import opened ReceiptLedger
  import opened Cashier
  import opened Kitchen
  import opened Loop
  import opened Consumer
  import opened Gateway

  /** One call of `SentinelLoop.place`, `ConsumerLoop.place` or `place_order_json`. */
  datatype Call =
    | Agent(order: Order, draw: Draw)
    | Personal(order: Order, draw: Draw, answer: Approval)
    | Intake(reading: Reading, draw: Draw, gatewayOrderId: string)

  datatype World = World(store: StoreState, rows: Table, settings: Settings)

  /** The order the cashier gets to see, if any. */
  function OrderIn(call: Call): Option<Order> {
    match call
    case Agent(order, _) => Some(order)
    case Personal(order, _, _) => Some(order)
    case Intake(reading, _, _) => match ParseOrder(reading) case Admitted(order) => Some(order) case _ => None
  }

  function OutcomeOf(house: House, w: World, call: Call): Option<Outcome> {
    match OrderIn(call)
    case None => None
    case Some(order) => Some(house.Outcome(w.store, order, call.draw))
  }

  /** The receipt each kind of call comes to append, if any, as its method's contract states it. */
  function ReceiptDue(house: House, w: World, call: Call): Option<Receipt> {
    match call
    case Agent(order, draw) => house.PlaceReceipt(w.store, order, draw)
    case Personal(order, draw, answer) => ConsumerReceipt(house, w.store, w.settings, order, draw, answer)
    case Intake(reading, draw, id) =>
      match ParseOrder(reading)
      case Admitted(order) => house.PlaceReceipt(w.store, order, draw)
      case Rejected(_) => Some(MalformedReceipt(id, draw.receiptId, draw.issuedTs))
      case Escapes => None
  }

  /** The receipt that is appended: none on a table whose head cannot be read. */
  function ReceiptOf(house: House, w: World, call: Call): (r: Option<Receipt>)
    ensures r.Some? ==> HeadReadable(w.rows)
  {
    if HeadReadable(w.rows) then ReceiptDue(house, w, call) else None
  }

  /** The call ends in an exception, as its method's contract states it. */
  predicate Raises(house: House, w: World, call: Call) {
    || !HeadReadable(w.rows)
    || match call
       case Agent(order, draw) => house.PlaceRaises(w.store, order, draw)
       case Personal(order, draw, answer) => ConsumerRaises(house, w.store, w.settings, order, draw, answer)
       case Intake(reading, draw, _) =>
         match ParseOrder(reading)
         case Admitted(order) => house.PlaceRaises(w.store, order, draw)
         case Rejected(_) => false
         case Escapes => true
  }

  function StoreAfter(house: House, w: World, call: Call): StoreState {
    match OrderIn(call)
    case None => w.store
    case Some(order) => house.Store(w.store, order, call.draw)
  }

  function SettingsOf(house: House, w: World, call: Call): Settings {
    match call
    case Personal(order, draw, answer) => SettingsAfter(house, w.store, w.settings, order, draw, answer)
    case _ => w.settings
  }

  function Step(house: House, w: World, call: Call): World {
    World(StoreAfter(house, w, call),
          AppendedIf(house.c, w.rows, ReceiptOf(house, w, call)),
          SettingsOf(house, w, call))
  }

  function Run(house: House, w: World, calls: seq<Call>): World {
    if calls == [] then w
    else Step(house, Run(house, w, calls[..|calls| - 1]), calls[|calls| - 1])
  }

  /** The world the i-th call of a run meets. */
  function Before(house: House, w: World, calls: seq<Call>, i: nat): World
    requires i <= |calls|
  {
    Run(house, w, calls[..i])
  }

  lemma BeforeSteps(house: House, w: World, calls: seq<Call>, i: nat)
    requires i < |calls|
    ensures Before(house, w, calls, i + 1) == Step(house, Before(house, w, calls, i), calls[i])
  {
    assert calls[..i + 1][..i] == calls[..i];
  }

  // ---- the objects refine the state machine ----

  /** The world held by the objects of a consumer installation. */
  ghost function WorldOf(consumer: ConsumerLoop): World
    reads consumer, consumer.loop, consumer.loop.store, consumer.loop.ledger, consumer.prefs
  {
    World(consumer.loop.store.State(), consumer.loop.ledger.rows, consumer.prefs.settings)
  }

  /** Whichever entry point serves the call, the objects move as `Step` says, also when it ends in
      an exception. */
  method Serve(consumer: ConsumerLoop, call: Call) returns (returned: bool)
    requires consumer.loop.Ready()
    modifies consumer.loop, consumer.loop.store, consumer.loop.ledger`rows, consumer.prefs
    ensures returned <==> !Raises(consumer.loop.house, old(WorldOf(consumer)), call)
    ensures WorldOf(consumer) == Step(consumer.loop.house, old(WorldOf(consumer)), call)
  {
    hide ReceiptRow, ProcessOutcome, ProcessStore, ParseOrder, HeadReadable;
    hide ConsumerReceipt, SettingsAfter, ConsumerRaises, HasNul;
    match call {
      case Agent(order, draw) =>
        var outcome := consumer.loop.Place(order, draw);
        returned := outcome.Some?;
      case Personal(order, draw, answer) =>
        var outcome := consumer.Place(order, draw, answer);
        returned := outcome.Some?;
      case Intake(reading, draw, id) =>
        var answer := PlaceOrderJson(consumer.loop, reading, draw, id);
        returned := answer.Some?;
    }
  }

  /** A whole day of calls, in order; an exception ends its own call and nothing else. */
  method ServeAll(consumer: ConsumerLoop, calls: seq<Call>) returns (raised: nat)
    requires consumer.loop.Ready()
    modifies consumer.loop, consumer.loop.store, consumer.loop.ledger`rows, consumer.prefs
    ensures raised == RaisedIn(consumer.loop.house, old(WorldOf(consumer)), calls)
    ensures WorldOf(consumer) == Run(consumer.loop.house, old(WorldOf(consumer)), calls)
  {
    hide Step, Raises;
    ghost var w := WorldOf(consumer);
    raised := 0;
    for i := 0 to |calls|
      invariant raised == RaisedIn(consumer.loop.house, w, calls[..i])
      invariant WorldOf(consumer) == Run(consumer.loop.house, w, calls[..i])
    {
      BeforeSteps(consumer.loop.house, w, calls, i);
      assert calls[..i + 1][..i] == calls[..i];
      var returned := Serve(consumer, calls[i]);
      if !returned {
        raised := raised + 1;
      }
    }
    assert calls[..|calls|] == calls;
  }

  // ---- one row per call that returns ----

  function RaisedIn(house: House, w: World, calls: seq<Call>): nat {
    if calls == [] then 0
    else
      var init := calls[..|calls| - 1];
      RaisedIn(house, w, init) + if Raises(house, Run(house, w, init), calls[|calls| - 1]) then 1 else 0
  }

  /** A call leaves no receipt exactly when it ends in an exception. */
  lemma NoReceiptExactly(house: House, w: World, call: Call)
    ensures ReceiptOf(house, w, call).None? <==> Raises(house, w, call)
  {
    hide EvaluateOrder, ParseOrder, Canonical, HasNul, ChefReceipt;
    match OrderIn(call)
    case None =>
    case Some(order) =>
      if house.Outcome(w.store, order, call.draw).Ticketed? {
        TicketedOnMenu(house, w.store, order, call.draw);
        TicketNamesOrder(house, w.store, order, call.draw);
      }
  }

  /** When that is: the table has a last row that is no object or stores no hash, and then every call;
      or the intake is more than the JSON reader can take; or the user does not answer the prompt, or
      allows always and that cannot be saved; or the order is executed and its id holds NUL or what
      the runner calls raises. */
  lemma RaisesMeans(house: House, w: World, call: Call)
    ensures Raises(house, w, call) <==>
      || (w.rows != [] && var last := w.rows[|w.rows| - 1].text;
          !(last.Parsed? && last.value.JObj? && "this_hash" in last.value.fields))
      || (call.Intake? && call.reading.Overwhelms?)
      || (Prompted(house, w, call)
          && (call.answer.Unanswered? || (call.answer.allow && call.answer.remember && !call.answer.saved)))
      || (Executed(house, w, call)
          && ((exists i :: 0 <= i < |OrderIn(call).value.orderId| && OrderIn(call).value.orderId[i] as int == 0)
              || call.draw.kitchen.Raised?))
  {
    hide EvaluateOrder, FirstMissing, FirstNonString, Canonical, HasNul;
    if OrderIn(call).Some? {
      NulMeans(OrderIn(call).value.orderId);
    }
  }

  /** No call makes a head readable or unreadable. */
  lemma {:induction false} HeadKeeps(house: House, w: World, calls: seq<Call>)
    ensures HeadReadable(Run(house, w, calls).rows) <==> HeadReadable(w.rows)
  {
    hide HeadReadable, ReceiptOf, Appended;
    if calls != [] {
      var m, call := Run(house, w, calls[..|calls| - 1]), calls[|calls| - 1];
      HeadKeeps(house, w, calls[..|calls| - 1]);
      if ReceiptOf(house, m, call).Some? {
        AppendedHead(house.c, m.rows, ReceiptOf(house, m, call).value);
      }
    }
  }

  /** On a table whose head cannot be read nothing is ever recorded: every call of every run
      raises, and the table stays as it is. */
  lemma {:induction false} UnreadableHeadLosesAll(house: House, w: World, calls: seq<Call>)
    requires !HeadReadable(w.rows)
    ensures Run(house, w, calls).rows == w.rows && RaisedIn(house, w, calls) == |calls|
  {
    hide HeadReadable, ReceiptDue;
    if calls != [] {
      UnreadableHeadLosesAll(house, w, calls[..|calls| - 1]);
    }
  }

  /** From any table the verifier accepts, old rows included, every call that returns adds exactly
      one row and every call that raises none; earlier rows are kept, and the verifier accepts. */
  lemma {:induction false} OneRowPerReturn(house: House, w: World, calls: seq<Call>)
    requires house.c.Lawful() && Accepted(house.c, Domain.Receipts, w.rows)
    ensures RaisedIn(house, w, calls) <= |calls|
    ensures var w' := Run(house, w, calls);
      && w.rows <= w'.rows
      && Accepted(house.c, Domain.Receipts, w'.rows)
      && VerdictOf(house.c, Domain.Receipts, w'.rows) == Verified(|w.rows| + |calls| - RaisedIn(house, w, calls))
  {
    hide Step, Accepted, VerdictOf, Raises;
    var w' := Run(house, w, calls);
    if calls != [] {
      var m := Run(house, w, calls[..|calls| - 1]);
      OneRowPerReturn(house, w, calls[..|calls| - 1]);
      VerifiedMeansAccepted(house.c, Domain.Receipts, m.rows);
      StepAppends(house, m, calls[|calls| - 1]);
      if ReceiptOf(house, m, calls[|calls| - 1]).Some? {
        AppendedAccepted(house.c, m.rows, ReceiptOf(house, m, calls[|calls| - 1]).value);
      }
    }
    VerifiedMeansAccepted(house.c, Domain.Receipts, w'.rows);
    RunLength(house, w, calls);
  }

  lemma StepAppends(house: House, w: World, call: Call)
    ensures Step(house, w, call).rows == AppendedIf(house.c, w.rows, ReceiptOf(house, w, call))
    ensures w.rows <= Step(house, w, call).rows
    ensures |Step(house, w, call).rows| == |w.rows| + if Raises(house, w, call) then 0 else 1
  {
    hide ReceiptOf, ReceiptRow, Raises;
    NoReceiptExactly(house, w, call);
  }

  lemma {:induction false} RunLength(house: House, w: World, calls: seq<Call>)
    ensures |Run(house, w, calls).rows| == |w.rows| + |calls| - RaisedIn(house, w, calls)
  {
    hide Step, Raises;
    if calls != [] {
      var init := calls[..|calls| - 1];
      RunLength(house, w, init);
      StepAppends(house, Run(house, w, init), calls[|calls| - 1]);
    }
  }

  lemma {:induction false} NoneRaised(house: House, w: World, calls: seq<Call>)
    ensures RaisedIn(house, w, calls) == 0
       <==> forall i :: 0 <= i < |calls| ==> !Raises(house, Before(house, w, calls, i), calls[i])
  {
    hide Raises, Run;
    if calls != [] {
      var n := |calls| - 1;
      var init := calls[..n];
      NoneRaised(house, w, init);
      assert forall i :: 0 <= i < n ==> init[..i] == calls[..i] && init[i] == calls[i];
      if RaisedIn(house, w, init) == 0 && !Raises(house, Before(house, w, calls, n), calls[n]) {
        forall i | 0 <= i < |calls| ensures !Raises(house, Before(house, w, calls, i), calls[i]) {
          if i < n {
            assert !Raises(house, Before(house, w, init, i), init[i]);
          }
        }
      }
      if forall i :: 0 <= i < |calls| ==> !Raises(house, Before(house, w, calls, i), calls[i]) {
        forall i | 0 <= i < n ensures !Raises(house, Before(house, w, init, i), init[i]) {
          assert !Raises(house, Before(house, w, calls, i), calls[i]);
        }
        assert !Raises(house, Before(house, w, calls, n), calls[n]);
      }
    }
  }

  /** One row per call holds if and only if no call of the run raises. */
  lemma OneRowPerCallExactly(house: House, w: World, calls: seq<Call>)
    ensures |Run(house, w, calls).rows| == |w.rows| + |calls|
       <==> forall i :: 0 <= i < |calls| ==> !Raises(house, Before(house, w, calls, i), calls[i])
  {
    hide Run, Raises;
    RunLength(house, w, calls);
    NoneRaised(house, w, calls);
  }

  /** Over any run the seqs of the table go on increasing; a table written from nothing is numbered
      1, 2, 3. */
  lemma {:induction false} SeqsOverRun(house: House, w: World, calls: seq<Call>)
    requires SeqsIncrease(w.rows)
    ensures SeqsIncrease(Run(house, w, calls).rows)
    ensures w.rows == [] ==>
      var rows := Run(house, w, calls).rows; forall k :: 0 <= k < |rows| ==> rows[k].seqNo == k + 1
  {
    hide Step, SeqsIncrease, ReceiptOf, ReceiptRow;
    if calls != [] {
      var init, call := calls[..|calls| - 1], calls[|calls| - 1];
      var m := Run(house, w, init);
      SeqsOverRun(house, w, init);
      StepAppends(house, m, call);
      if ReceiptOf(house, m, call).Some? {
        AppendedSeqs(house.c, m.rows, ReceiptOf(house, m, call).value);
      }
    }
  }

  /** Which row came from which call. */
  lemma {:induction false} RowOfCall(house: House, w: World, calls: seq<Call>, i: nat)
    requires i < |calls| && !Raises(house, Before(house, w, calls, i), calls[i])
    ensures var b := Before(house, w, calls, i);
      && |b.rows| == |w.rows| + i - RaisedIn(house, w, calls[..i])
      && |b.rows| < |Run(house, w, calls).rows|
      && HeadReadable(b.rows) && ReceiptOf(house, b, calls[i]).Some?
      && Run(house, w, calls).rows[|b.rows|] == ReceiptRow(house.c, b.rows, ReceiptOf(house, b, calls[i]).value)
    decreases |calls|
  {
    hide ReceiptOf, ReceiptRow, Raises;
    var n := |calls| - 1;
    RunLength(house, w, calls[..i]);
    if i < n {
      assert calls[..n][..i] == calls[..i];
      RowOfCall(house, w, calls[..n], i);
      StepAppends(house, Run(house, w, calls[..n]), calls[n]);
    } else {
      NoReceiptExactly(house, Run(house, w, calls[..n]), calls[n]);
    }
  }

  /** On the objects, from an accepted table to the verifier's own answer: a day of calls leaves a
      table of which the verifier says `OK` with as many rows more as calls returned. */
  method ServeAndVerify(consumer: ConsumerLoop, calls: seq<Call>) returns (raised: nat, verdict: Verdict)
    requires consumer.loop.ledger.c == consumer.loop.house.c && consumer.loop.house.c.Lawful()
    requires Accepted(consumer.loop.house.c, Domain.Receipts, consumer.loop.ledger.rows)
    modifies consumer.loop, consumer.loop.store, consumer.loop.ledger`rows, consumer.prefs
    ensures raised == RaisedIn(consumer.loop.house, old(WorldOf(consumer)), calls) <= |calls|
    ensures verdict == Verified(old(|consumer.loop.ledger.rows|) + |calls| - raised)
  {
    hide Accepted, RaisedIn, Run, VerdictOf;
    var house := consumer.loop.house;
    ghost var w := WorldOf(consumer);
    OneRowPerReturn(house, w, calls);
    raised := ServeAll(consumer, calls);
    verdict := VerifyTable(house.c, Domain.Receipts, consumer.loop.ledger.rows);
  }

  // ---- what a row says about its call ----

  /** The cashier accepted, and for a personal call the user's permission or answer let it on. */
  predicate Executed(house: House, w: World, call: Call) {
    && OutcomeOf(house, w, call).Some? && OutcomeOf(house, w, call).value.Ticketed?
    && (call.Personal? ==> Permitted(house, w.store, w.settings, call.order, call.draw, call.answer))
  }

  /** The row of an admitted order names that order; it is FULFILLED exactly when the order was
      executed and the chef came back with exit code 0 and a draft, and only then carries a digest,
      which is the draft's; it carries a ticket id exactly when the cashier issued a ticket; and its
      reason is EXECUTION_FAILED for a failed chef, the cashier's own for a refusal, USER_DENIED for
      a prompt that got no leave, and USER_BLOCKED for a block that did not even ask. */
  lemma RowTellsOutcome(house: House, w: World, call: Call)
    requires OrderIn(call).Some? && !Raises(house, w, call)
    ensures ReceiptOf(house, w, call).Some?
    ensures var r := ReceiptOf(house, w, call).value;
      var order, outcome := OrderIn(call).value, OutcomeOf(house, w, call).value;
      var ran, kitchen := Executed(house, w, call), call.draw.kitchen;
      var done := kitchen.KitchenRun? && kitchen.returncode == 0 && kitchen.draft.Some?;
      && r.receiptId == call.draw.receiptId && r.orderId == order.orderId
      && r.orderMeta == OrderMeta(order.principal, order.role, order.capabilityId, order.ts)
      && r.ticketId == (if outcome.Ticketed? then Some(call.draw.ticketId) else None)
      && r.containment == (if ran then Some(call.draw.kitchen.containment) else None)
      && (r.status == FULFILLED <==> ran && done)
      && r.resultDigest == (if ran && done then Some(house.c.digest(call.draw.kitchen.draft.value)) else None)
      && r.attestation == (if ran && done then Some(call.draw.kitchen.quote) else None)
      && (r.reason.None? <==> ran && done)
      && (r.reason == Some(EXECUTION_FAILED) <==> ran && !done)
      && (r.reason == Some(USER_DENIED) <==> Prompted(house, w, call) && !ran)
      && (r.reason == Some(USER_BLOCKED) <==> outcome.Ticketed? && !Prompted(house, w, call) && !ran)
      && (outcome.Refused? ==> r.reason == Some(outcome.reason))
      && (outcome.Refused? <==> r.reason.Some? && r.reason.value in {REPLAY, OFF_MENU, ROLE_NOT_PERMITTED,
                                  CAPABILITY_PAUSED, OUT_OF_SCOPE, RATE_LIMITED})
  {
    hide Canonical, EvaluateOrder, ParseOrder, HasNul;
    var order := OrderIn(call).value;
    NoReceiptExactly(house, w, call);
    if house.Outcome(w.store, order, call.draw).Ticketed? {
      TicketedOnMenu(house, w.store, order, call.draw);
    } else {
      CashierReasons(house, w.store, order, call.draw);
    }
  }

  lemma CashierReasons(house: House, store: StoreState, order: Order, draw: Draw)
    requires house.Outcome(store, order, draw).Refused?
    ensures house.Outcome(store, order, draw).reason
         in {REPLAY, OFF_MENU, ROLE_NOT_PERMITTED, CAPABILITY_PAUSED, OUT_OF_SCOPE, RATE_LIMITED}
  {
    hide InScope, RateCount, ForRole, Canonical;
  }

  /** The row of an intake that is no order says only that it came; an intake the JSON reader
      cannot take leaves nothing at all. */
  lemma MalformedRow(house: House, w: World, call: Call)
    requires OrderIn(call).None?
    ensures Step(house, w, call).store == w.store && Step(house, w, call).settings == w.settings
    ensures Raises(house, w, call) ==> Step(house, w, call).rows == w.rows
    ensures !Raises(house, w, call) ==> ReceiptOf(house, w, call).Some?
    ensures !Raises(house, w, call) ==>
      var r := ReceiptOf(house, w, call).value;
      && call.Intake? && r.receiptId == call.draw.receiptId && r.orderId == "gw-unadmitted-" + call.gatewayOrderId
      && r.status == REJECTED && r.reason == Some(MALFORMED_ORDER) && r.ticketId.None? && r.resultDigest.None?
      && r.attestation.None? && r.containment.None?
      && r.orderMeta == OrderMeta("gateway:unadmitted", "(none)", "(unparsed)", call.draw.issuedTs)
  {
    hide ParseOrder, Appended;
  }

  // ---- conservation between the store and the table ----

  /** A row with a ticket id and this principal and capability in its order metadata. */
  predicate CountsFor(entry: Entry, key: RateKey) {
    && entry.text.Parsed? && entry.text.value.JObj?
    && Lookup(entry.text.value.fields, "ticket_id") != JNull
    && var meta := Lookup(entry.text.value.fields, "order_meta");
       meta.JObj?
       && Lookup(meta.fields, "principal") == JStr(key.principal)
       && Lookup(meta.fields, "capability_id") == JStr(key.capabilityId)
  }

  function TicketRows(rows: Table, key: RateKey): nat {
    if rows == [] then 0
    else TicketRows(rows[..|rows| - 1], key) + if CountsFor(rows[|rows| - 1], key) then 1 else 0
  }

  predicate ReceiptCountsFor(r: Receipt, key: RateKey) {
    r.ticketId.Some? && r.orderMeta.principal == key.principal && r.orderMeta.capabilityId == key.capabilityId
  }

  lemma RowCountsFor(c: Crypto, rows: Table, r: Receipt, key: RateKey)
    requires HeadReadable(rows)
    ensures CountsFor(ReceiptRow(c, rows, r), key) <==> ReceiptCountsFor(r, key)
  {
    hide Canonical, HeadLink;
    var row := ReceiptRow(c, rows, r).text.value.fields;
    assert row["ticket_id"] == TextOrNull(r.ticketId);
    assert row["order_meta"] == r.orderMeta.ToJson();
    var meta := r.orderMeta.ToJson().fields;
    assert meta["principal"] == JStr(r.orderMeta.principal) && meta["capability_id"] == JStr(r.orderMeta.capabilityId);
  }

  /** The call raised after the cashier had issued a ticket for this principal and capability. */
  predicate RaisesFor(house: House, w: World, call: Call, key: RateKey) {
    Raises(house, w, call) && Tickets(house, w, call, key)
  }

  function RaisedFor(house: House, w: World, calls: seq<Call>, key: RateKey): nat {
    if calls == [] then 0
    else
      var init := calls[..|calls| - 1];
      RaisedFor(house, w, init, key) + if RaisesFor(house, Run(house, w, init), calls[|calls| - 1], key) then 1 else 0
  }

  predicate LeavesTicket(house: House, w: World, call: Call, key: RateKey) {
    ReceiptOf(house, w, call).Some? && ReceiptCountsFor(ReceiptOf(house, w, call).value, key)
  }

  /** The cashier issued a ticket for this principal and capability. */
  predicate Tickets(house: House, w: World, call: Call, key: RateKey) {
    OrderIn(call).Some? && OutcomeOf(house, w, call).value.Ticketed? && OrderIn(call).value.Key() == key
  }

  lemma StampsAfter(house: House, w: World, call: Call, key: RateKey)
    ensures |StoreAfter(house, w, call).Stamps(key)|
         == |w.store.Stamps(key)| + if Tickets(house, w, call, key) then 1 else 0
  {
    hide EvaluateOrder, ParseOrder, MintTicket;
  }

  /** A call puts a stamp in the history exactly when it puts a ticketed receipt on the chain or
      raises with a ticket issued, and never does both. */
  lemma TicketMeansStamp(house: House, w: World, call: Call, key: RateKey)
    ensures !(LeavesTicket(house, w, call, key) && RaisesFor(house, w, call, key))
    ensures |StoreAfter(house, w, call).Stamps(key)|
         == |w.store.Stamps(key)| + if LeavesTicket(house, w, call, key) || RaisesFor(house, w, call, key) then 1 else 0
  {
    hide ReceiptOf, Raises, OutcomeOf, OrderIn, StoreAfter;
    NoReceiptExactly(house, w, call);
    StampsAfter(house, w, call, key);
    if OrderIn(call).None? {
      MalformedRow(house, w, call);
    } else if !Raises(house, w, call) {
      RowTellsOutcome(house, w, call);
    }
  }

  /** For each principal and capability, the stamps recorded since the start are as many as the
      rows written since the start that carry a ticket id and that order metadata, and the calls
      that raised with such a ticket issued. User denials, user blocks and failed executions count
      once each; cashier refusals and malformed intakes never, whether or not they raise. */
  lemma {:induction false} Conservation(house: House, w: World, calls: seq<Call>, key: RateKey)
    ensures var w' := Run(house, w, calls);
      && w.rows <= w'.rows
      && |w'.store.Stamps(key)|
         == |w.store.Stamps(key)| + TicketRows(w'.rows[|w.rows|..], key) + RaisedFor(house, w, calls, key)
  {
    hide CountsFor, ReceiptOf, StoreAfter, ReceiptRow, ReceiptCountsFor, Raises;
    var w' := Run(house, w, calls);
    if calls == [] {
      assert w'.rows[|w.rows|..] == [];
    } else {
      var m, call := Run(house, w, calls[..|calls| - 1]), calls[|calls| - 1];
      Conservation(house, w, calls[..|calls| - 1], key);
      TicketMeansStamp(house, m, call, key);
      if ReceiptOf(house, m, call).Some? {
        var r := ReceiptOf(house, m, call).value;
        var row := ReceiptRow(house.c, m.rows, r);
        assert w'.rows == m.rows + [row];
        assert w'.rows[|w.rows|..] == m.rows[|w.rows|..] + [row];
        assert (m.rows[|w.rows|..] + [row])[..|m.rows| - |w.rows|] == m.rows[|w.rows|..];
        RowCountsFor(house.c, m.rows, r, key);
      }
    }
  }

  // ---- single-use nonces ----

  predicate Presents(call: Call, nonce: string) {
    OrderIn(call).Some? && OrderIn(call).value.nonce == nonce
  }

  predicate PresentedIn(calls: seq<Call>, nonce: string) {
    exists j :: 0 <= j < |calls| && Presents(calls[j], nonce)
  }

  lemma PresentedSplit(calls: seq<Call>, nonce: string)
    requires calls != []
    ensures PresentedIn(calls, nonce)
       <==> PresentedIn(calls[..|calls| - 1], nonce) || Presents(calls[|calls| - 1], nonce)
  {
    hide Presents;
    var init := calls[..|calls| - 1];
    assert forall j :: 0 <= j < |init| ==> init[j] == calls[j];
    if PresentedIn(calls, nonce) {
      var j :| 0 <= j < |calls| && Presents(calls[j], nonce);
      assert j < |init| ==> Presents(init[j], nonce);
    }
  }

  lemma {:induction false} SpentAre(house: House, w: World, calls: seq<Call>, nonce: string)
    ensures nonce in Run(house, w, calls).store.spent <==> nonce in w.store.spent || PresentedIn(calls, nonce)
  {
    hide Step, Presents;
    if calls != [] {
      var init := calls[..|calls| - 1];
      SpentAre(house, w, init, nonce);
      SpentStep(house, Run(house, w, init), calls[|calls| - 1], nonce);
      PresentedSplit(calls, nonce);
    }
  }

  lemma SpentStep(house: House, w: World, call: Call, nonce: string)
    ensures nonce in Step(house, w, call).store.spent <==> nonce in w.store.spent || Presents(call, nonce)
  {
    hide EvaluateOrder, ParseOrder;
  }

  /** From a fresh store, an order is refused as a replay if and only if an earlier call already
      presented its nonce, whatever became of that call. */
  lemma ReplayExactly(house: House, w: World, calls: seq<Call>, i: nat)
    requires w.store.spent == {} && i < |calls| && OrderIn(calls[i]).Some?
    ensures var outcome := OutcomeOf(house, Before(house, w, calls, i), calls[i]).value;
      (outcome.Refused? && outcome.reason == REPLAY)
      <==> exists j :: 0 <= j < i && Presents(calls[j], OrderIn(calls[i]).value.nonce)
  {
    hide OrderIn, EvaluateOrder, Presents;
    var nonce := OrderIn(calls[i]).value.nonce;
    ReplayIffSpent(house, Before(house, w, calls, i), calls[i]);
    SpentAre(house, w, calls[..i], nonce);
    assert forall j :: 0 <= j < i ==> calls[..i][j] == calls[j];
  }

  lemma ReplayIffSpent(house: House, w: World, call: Call)
    requires OrderIn(call).Some?
    ensures var outcome := OutcomeOf(house, w, call).value;
      (outcome.Refused? && outcome.reason == REPLAY) <==> OrderIn(call).value.nonce in w.store.spent
  {
    hide ParseOrder, InScope, Canonical;
  }

  /** Tickets minted in one run come from orders with pairwise distinct nonces. */
  lemma TicketsHaveDistinctNonces(house: House, w: World, calls: seq<Call>, i: nat, j: nat)
    requires w.store.spent == {} && i < j < |calls|
    requires OutcomeOf(house, Before(house, w, calls, i), calls[i]).Some?
    requires OutcomeOf(house, Before(house, w, calls, j), calls[j]).Some?
    requires OutcomeOf(house, Before(house, w, calls, i), calls[i]).value.Ticketed?
    requires OutcomeOf(house, Before(house, w, calls, j), calls[j]).value.Ticketed?
    ensures OrderIn(calls[i]).value.nonce != OrderIn(calls[j]).value.nonce
  {
    hide EvaluateOrder, ParseOrder;
    ReplayExactly(house, w, calls, j);
    assert Presents(calls[i], OrderIn(calls[i]).value.nonce);
  }

  // ---- the sliding-window rate bound ----

  /** Stamps in the half-open hour (t - 3600, t]. */
  function WindowCount(stamps: seq<real>, t: real): (n: nat)
    ensures n <= |stamps|
  {
    if stamps == [] then 0
    else
      WindowCount(stamps[..|stamps| - 1], t)
      + if t - 3600.0 < stamps[|stamps| - 1] <= t then 1 else 0
  }

  /** Everything in the window that ends at t was counted by a check made at any time `now <= t`. */
  lemma {:induction false} WindowCounted(stamps: seq<real>, now: real, t: real)
    requires now <= t
    ensures WindowCount(stamps, t) <= RateCount(stamps, now)
  {
    if stamps != [] {
      WindowCounted(stamps[..|stamps| - 1], now, t);
    }
  }

  /** The cashier's count at time `now` is the number of accepts in the hour that ends at `now`,
      together with those stamped later than `now`. */
  lemma {:induction false} RateCountExactly(stamps: seq<real>, now: real)
    ensures RateCount(stamps, now) == WindowCount(stamps, now) + LaterCount(stamps, now)
  {
    if stamps != [] {
      RateCountExactly(stamps[..|stamps| - 1], now);
    }
  }

  function LaterCount(stamps: seq<real>, now: real): nat {
    if stamps == [] then 0
    else LaterCount(stamps[..|stamps| - 1], now) + if stamps[|stamps| - 1] > now then 1 else 0
  }

  /** The limit an accepted call was checked against; 0 for a call that was not accepted for
      this key. */
  function LimitUsed(house: House, w: World, call: Call, key: RateKey): int {
    match OrderIn(call)
    case None => 0
    case Some(order) =>
      if house.Outcome(w.store, order, call.draw).Ticketed? && order.Key() == key
         && ForRole(house.policies, order.role).Some?
      then ForRole(house.policies, order.role).value.limit
      else 0
  }

  /** The largest limit among the roles whose orders were accepted for the key during the run. */
  function LargestLimit(house: House, w: World, calls: seq<Call>, key: RateKey): (limit: nat)
  {
    if calls == [] then 0
    else
      var init := calls[..|calls| - 1];
      var here := LimitUsed(house, Run(house, w, init), calls[|calls| - 1], key);
      var rest := LargestLimit(house, w, init, key);
      if here > rest then here else rest
  }

  /** The two clock readings of one call. */
  datatype Tick = Tick(check: real, accept: real)

  function Readings(calls: seq<Call>): (r: seq<Tick>)
    ensures |r| == |calls|
  {
    seq(|calls|, i requires 0 <= i < |calls| => Tick(calls[i].draw.checkTime, calls[i].draw.acceptTime))
  }

  /** By the check of call j the accept of call i has aged out, and yet the accept of call j is
      stamped within an hour of it. */
  predicate Strays(r: seq<Tick>, i: int, j: int) {
    && 0 <= i < j < |r|
    && r[j].check - r[i].accept >= 3600.0
    && -3600.0 < r[j].accept - r[i].accept < 3600.0
  }

  /** The clock may jump as it likes, as long as no pair of calls strays. */
  ghost predicate Steady(r: seq<Tick>) {
    forall i, j :: !Strays(r, i, j)
  }

  /** A clock that does not run backwards while one order is processed is steady. */
  predicate ClockForward(calls: seq<Call>) {
    forall i :: 0 <= i < |calls| ==> calls[i].draw.checkTime <= calls[i].draw.acceptTime
  }

  lemma ForwardIsSteady(calls: seq<Call>)
    requires ClockForward(calls)
    ensures Steady(Readings(calls))
  {
  }

  /** One call: either the key's stamps are untouched, or one stamp was added after a check that
      found fewer than the limit. */
  lemma StampStep(house: House, w: World, call: Call, key: RateKey)
    ensures var stamps, stamps' := w.store.Stamps(key), StoreAfter(house, w, call).Stamps(key);
      || stamps' == stamps
      || (&& stamps' == stamps + [call.draw.acceptTime]
          && RateCount(stamps, call.draw.checkTime) < LimitUsed(house, w, call, key))
  {
    hide InScope, Canonical, ParseOrder;
    match OrderIn(call)
    case None =>
    case Some(order) =>
      if house.Outcome(w.store, order, call.draw).Ticketed? && order.Key() == key {
        AllowMeans(order, house.menu, house.policies, w.store, call.draw.checkTime);
      }
  }

  predicate AcceptedAt(r: seq<Tick>, stamp: real, i: int) {
    0 <= i < |r| && r[i].accept == stamp
  }

  /** Every stamp is the accept reading of some call. */
  ghost predicate StampedBy(r: seq<Tick>, stamps: seq<real>) {
    forall k :: 0 <= k < |stamps| ==> AcceptedSome(r, stamps[k])
  }

  ghost predicate AcceptedSome(r: seq<Tick>, stamp: real) {
    exists i :: AcceptedAt(r, stamp, i)
  }

  lemma {:induction false} StampsAreReadings(house: House, w: World, calls: seq<Call>, key: RateKey)
    requires w.store.Stamps(key) == []
    ensures StampedBy(Readings(calls), Run(house, w, calls).store.Stamps(key))
  {
    hide LimitUsed, StoreAfter, ReceiptOf, RateCount;
    if calls != [] {
      var n := |calls| - 1;
      var init, r := calls[..n], Readings(calls);
      var m := Run(house, w, init);
      StampsAreReadings(house, w, init, key);
      StampStep(house, m, calls[n], key);
      var before, stamps := m.store.Stamps(key), Run(house, w, calls).store.Stamps(key);
      forall k | 0 <= k < |stamps| ensures AcceptedSome(r, stamps[k]) {
        if k < |before| {
          assert AcceptedSome(Readings(init), before[k]);
          var i :| AcceptedAt(Readings(init), before[k], i);
          assert AcceptedAt(r, stamps[k], i);
        } else {
          assert AcceptedAt(r, stamps[k], n);
        }
      }
    } else {
      assert StampedBy(Readings(calls), w.store.Stamps(key));
    }
  }

  /** Whatever part of the window a check has not yet seen age out, it counts. */
  lemma {:induction false} RecentCounted(stamps: seq<real>, now: real, t: real)
    requires forall k :: 0 <= k < |stamps| && t - RATE_WINDOW_SECONDS < stamps[k] <= t ==>
      now - stamps[k] < RATE_WINDOW_SECONDS
    ensures WindowCount(stamps, t) <= RateCount(stamps, now)
  {
    if stamps != [] {
      RecentCounted(stamps[..|stamps| - 1], now, t);
    }
  }

  lemma SteadyPrefix(calls: seq<Call>)
    requires calls != [] && Steady(Readings(calls))
    ensures Steady(Readings(calls[..|calls| - 1]))
  {
    var r, init := Readings(calls), Readings(calls[..|calls| - 1]);
    forall i, j ensures !Strays(init, i, j) {
      assert !Strays(r, i, j);
    }
  }

  lemma WindowCheck(house: House, w: World, calls: seq<Call>, key: RateKey, t: real)
    requires calls != [] && w.store.Stamps(key) == [] && Steady(Readings(calls))
    requires var last := Readings(calls)[|calls| - 1]; t - RATE_WINDOW_SECONDS < last.accept <= t
    ensures var stamps, last := Run(house, w, calls[..|calls| - 1]).store.Stamps(key), Readings(calls)[|calls| - 1];
      WindowCount(stamps, t) <= RateCount(stamps, last.check)
  {
    hide Run;
    var n := |calls| - 1;
    var init, r := calls[..n], Readings(calls);
    var stamps := Run(house, w, init).store.Stamps(key);
    StampsAreReadings(house, w, init, key);
    forall k | 0 <= k < |stamps| && t - RATE_WINDOW_SECONDS < stamps[k] <= t
      ensures r[n].check - stamps[k] < RATE_WINDOW_SECONDS
    {
      assert AcceptedSome(Readings(init), stamps[k]);
      var i :| AcceptedAt(Readings(init), stamps[k], i);
      assert !Strays(r, i, n);
    }
    RecentCounted(stamps, r[n].check, t);
  }

  /** In every state reachable from an empty history over steady clock readings, every hour-long
      window holds at most as many accepts for the key as the largest limit that was used. */
  lemma {:induction false} RateBound(house: House, w: World, calls: seq<Call>, key: RateKey, t: real)
    requires w.store.Stamps(key) == [] && Steady(Readings(calls))
    ensures WindowCount(Run(house, w, calls).store.Stamps(key), t) <= LargestLimit(house, w, calls, key)
  {
    hide LimitUsed, StoreAfter, ReceiptOf, RateCount, Steady;
    if calls != [] {
      var init, call := calls[..|calls| - 1], calls[|calls| - 1];
      var m := Run(house, w, init);
      SteadyPrefix(calls);
      RateBound(house, w, init, key, t);
      StampStep(house, m, call, key);
      var stamps := m.store.Stamps(key);
      var stamps' := StoreAfter(house, m, call).Stamps(key);
      if stamps' == stamps + [call.draw.acceptTime] {
        assert stamps'[..|stamps|] == stamps;
        if t - RATE_WINDOW_SECONDS < call.draw.acceptTime <= t {
          WindowCheck(house, w, calls, key, t);
        }
      }
    }
  }

  const CLERK_POLICIES := [Policy("clerk", ["notes"], 1, [])]

  function OneNoteAnHour(c: Crypto): House {
    House(c, map["notes" := Capability("notes", false, false, "file", None, map[])], CLERK_POLICIES)
  }

  function NoteOrder(nonce: string): Order {
    Order(nonce, "ann", "clerk", "notes", JObj(map["file" := JStr("ann/a")]), nonce, "")
  }

  function DrawnAt(checkTime: real, acceptTime: real): Draw {
    Draw(checkTime, acceptTime, "", "", "", KitchenRun(0, None, JNull, ""))
  }

  lemma NoteInScope()
    ensures InScope("ann", JStr("ann/a"))
  {
    SplitOfJoin("ann", "a");
    assert "ann" + "/" + "a" == "ann/a" && "ann/a"[3] == '/';
    assert !HasControl("ann/a") && !LocalUnsafe("a");
  }

  lemma NoteVerdict(c: Crypto, nonce: string, store: StoreState, now: real)
    requires nonce !in store.spent && RateCount(store.Stamps(NoteOrder(nonce).Key()), now) < 1
    ensures var house := OneNoteAnHour(c);
      && EvaluateOrder(NoteOrder(nonce), house.menu, house.policies, store, now).Allow?
      && ForRole(house.policies, "clerk") == Some(CLERK_POLICIES[0])
  {
    hide RateCount, InScope;
    NoteInScope();
  }

  /** Two note orders, at calls i and j, among malformed intakes, with the given clock readings. */
  function NoteCalls(r: seq<Tick>, i: int, j: int): (calls: seq<Call>)
    ensures |calls| == |r|
  {
    seq(|r|, k requires 0 <= k < |r| =>
      if k == i then Agent(NoteOrder("1"), DrawnAt(r[k].check, r[k].accept))
      else if k == j then Agent(NoteOrder("2"), DrawnAt(r[k].check, r[k].accept))
      else Intake(NotJson, DrawnAt(r[k].check, r[k].accept), ""))
  }

  lemma NoteReadings(r: seq<Tick>, i: int, j: int)
    ensures Readings(NoteCalls(r, i, j)) == r
  {
  }

  const NOTE_KEY := RateKey("ann", "notes")

  /** What the store holds after n of those calls. */
  function NoteStore(r: seq<Tick>, i: int, j: int, n: nat): StoreState
    requires 0 <= i < j < |r| && n <= |r|
  {
    if n <= i then EMPTY_STORE
    else if n <= j then StoreState({"1"}, map[NOTE_KEY := [r[i].accept]])
    else StoreState({"1", "2"}, map[NOTE_KEY := [r[i].accept, r[j].accept]])
  }

  lemma NoteStep(c: Crypto, w: World, r: seq<Tick>, i: int, j: int, n: nat)
    requires Strays(r, i, j) && n < |r| && w.store == NoteStore(r, i, j, n)
    ensures StoreAfter(OneNoteAnHour(c), w, NoteCalls(r, i, j)[n]) == NoteStore(r, i, j, n + 1)
    ensures LimitUsed(OneNoteAnHour(c), w, NoteCalls(r, i, j)[n], NOTE_KEY) == if n == i || n == j then 1 else 0
  {
    hide Canonical, InScope, EvaluateOrder, ForRole;
    var house, call := OneNoteAnHour(c), NoteCalls(r, i, j)[n];
    if n == i {
      NoteVerdict(c, "1", w.store, r[n].check);
      assert {} + {"1"} == {"1"} && EMPTY_STORE.Stamps(NOTE_KEY) + [r[i].accept] == [r[i].accept];
    } else if n == j {
      var one := [r[i].accept];
      assert one[..0] == [] && RateCount(one, r[n].check) == 0;
      assert "1"[0] != "2"[0];
      NoteVerdict(c, "2", w.store, r[n].check);
      assert {"1"} + {"2"} == {"1", "2"} && one + [r[j].accept] == [r[i].accept, r[j].accept];
    }
  }

  lemma {:induction false} NoteRun(c: Crypto, rows: Table, r: seq<Tick>, i: int, j: int, n: nat)
    requires Strays(r, i, j) && n <= |r|
    ensures var house, w, calls := OneNoteAnHour(c), World(EMPTY_STORE, rows, map[]), NoteCalls(r, i, j)[..n];
      && Run(house, w, calls).store == NoteStore(r, i, j, n)
      && LargestLimit(house, w, calls, NOTE_KEY) == if n <= i then 0 else 1
  {
    hide StoreAfter, ReceiptOf, LimitUsed, NoteStore, OneNoteAnHour, Strays, NoteCalls, AppendedIf, SettingsOf;
    var house, w, calls := OneNoteAnHour(c), World(EMPTY_STORE, rows, map[]), NoteCalls(r, i, j);
    StraysInside(r, i, j);
    if n == 0 {
      NoteStart(r, i, j);
    } else {
      NoteRun(c, rows, r, i, j, n - 1);
      assert calls[..n][..n - 1] == calls[..n - 1];
      NoteStep(c, Run(house, w, calls[..n - 1]), r, i, j, n - 1);
    }
  }

  lemma NoteStart(r: seq<Tick>, i: int, j: int)
    requires Strays(r, i, j)
    ensures i >= 0 && NoteStore(r, i, j, 0) == EMPTY_STORE
  {
  }

  /** Readings that stray break the bound: under a limit of 1, two orders read at the straying
      calls leave two accepts in one window, and everything else may be noise. */
  lemma StrayBreaksBound(c: Crypto, rows: Table, r: seq<Tick>, i: int, j: int)
    requires Strays(r, i, j)
    ensures var house, w, calls := OneNoteAnHour(c), World(EMPTY_STORE, rows, map[]), NoteCalls(r, i, j);
      var t := if r[i].accept > r[j].accept then r[i].accept else r[j].accept;
      && LargestLimit(house, w, calls, NOTE_KEY) == 1
      && WindowCount(Run(house, w, calls).store.Stamps(NOTE_KEY), t) == 2
  {
    hide OneNoteAnHour, Run, LargestLimit;
    var calls := NoteCalls(r, i, j);
    NoteRun(c, rows, r, i, j, |r|);
    assert calls[..|r|] == calls;
    var two := [r[i].accept, r[j].accept];
    var t := if r[i].accept > r[j].accept then r[i].accept else r[j].accept;
    assert two[..1] == [r[i].accept] && [r[i].accept][..0] == [];
    assert WindowCount([r[i].accept], t) == 1;
  }

  ghost predicate Bounded(r: seq<Tick>, house: House, w: World, calls: seq<Call>, key: RateKey, t: real) {
    Readings(calls) == r && w.store.Stamps(key) == []
    ==> WindowCount(Run(house, w, calls).store.Stamps(key), t) <= LargestLimit(house, w, calls, key)
  }

  /** Every run with these clock readings keeps the bound, for every key and every window. */
  ghost predicate AlwaysBounded(r: seq<Tick>) {
    forall house: House, w: World, calls: seq<Call>, key: RateKey, t: real :: Bounded(r, house, w, calls, key, t)
  }

  /** Clock readings guarantee the rate bound if and only if no pair of them strays. */
  lemma RateBoundExactly(c: Crypto, rows: Table, r: seq<Tick>)
    ensures AlwaysBounded(r) <==> Steady(r)
  {
    hide Run, LargestLimit, Strays, OneNoteAnHour;
    if Steady(r) {
      forall house: House, w: World, calls: seq<Call>, key: RateKey, t: real
        ensures Bounded(r, house, w, calls, key, t)
      {
        if Readings(calls) == r && w.store.Stamps(key) == [] {
          RateBound(house, w, calls, key, t);
        }
      }
    } else {
      var i, j :| Strays(r, i, j);
      StraysInside(r, i, j);
      StrayBreaksBound(c, rows, r, i, j);
      NoteReadings(r, i, j);
      var t := if r[i].accept > r[j].accept then r[i].accept else r[j].accept;
      assert !Bounded(r, OneNoteAnHour(c), World(EMPTY_STORE, rows, map[]), NoteCalls(r, i, j), NOTE_KEY, t);
    }
  }

  lemma StraysInside(r: seq<Tick>, i: int, j: int)
    requires Strays(r, i, j)
    ensures 0 <= i < j < |r|
  {
  }

  /** The smallest such run: checked an hour after the first order, stamped a second earlier. */
  lemma BackwardClockBreaksBound(c: Crypto, rows: Table)
    ensures var r := [Tick(0.0, 0.0), Tick(3600.0, 3599.0)];
      var house, w, calls := OneNoteAnHour(c), World(EMPTY_STORE, rows, map[]), NoteCalls(r, 0, 1);
      && LargestLimit(house, w, calls, NOTE_KEY) == 1
      && WindowCount(Run(house, w, calls).store.Stamps(NOTE_KEY), 3599.0) == 2
  {
    hide OneNoteAnHour, Run, LargestLimit, NoteCalls;
    var r := [Tick(0.0, 0.0), Tick(3600.0, 3599.0)];
    assert Strays(r, 0, 1);
    StrayBreaksBound(c, rows, r, 0, 1);
  }

  // ---- an accepted order without a receipt ----

  /** An accepted order whose id holds NUL: nonce spent, stamp recorded, no row; and the same order
      again is a replay, so the order is lost. */
  lemma NulLosesReceipt(c: Crypto, rows: Table, draw: Draw, again: Draw)
    ensures var house, w, key := OneNoteAnHour(c), World(EMPTY_STORE, rows, map[]), NOTE_KEY;
      var order := NoteOrder("1").(orderId := "a\0b");
      var w' := Step(house, w, Agent(order, draw));
      && Raises(house, w, Agent(order, draw))
      && w'.rows == w.rows && w'.store == StoreState({"1"}, map[key := [draw.acceptTime]])
      && house.Outcome(w'.store, order, again) == Refused(REPLAY, RejectionReceipt(order, REPLAY, again))
  {
    hide Canonical, InScope, ForRole;
    var house, w := OneNoteAnHour(c), World(EMPTY_STORE, rows, map[]);
    var order := NoteOrder("1").(orderId := "a\0b");
    assert "a\0b"[1] == '\0';
    NoteInScope();
    NoteVerdict(c, "1", EMPTY_STORE, draw.checkTime);
    assert {} + {"1"} == {"1"} && EMPTY_STORE.Stamps(NOTE_KEY) + [draw.acceptTime] == [draw.acceptTime];
  }

  /** The smallest table that cannot be appended to: one row, the empty object. An accepted order
      is stamped and loses its receipt, a refused one loses its receipt. */
  lemma EmptyRowLosesAll(c: Crypto, draw: Draw, again: Draw)
    ensures var rows := [Entry(1, Parsed(JObj(map[])))];
      var house, w := OneNoteAnHour(c), World(EMPTY_STORE, rows, map[]);
      var first, second := Agent(NoteOrder("1"), draw), Agent(NoteOrder("1"), again);
      var w' := Run(house, w, [first, second]);
      && OutcomeOf(house, w, first).value.Ticketed? && OutcomeOf(house, Run(house, w, [first]), second).value.Refused?
      && RaisedIn(house, w, [first, second]) == 2
      && w'.rows == rows && w'.store == StoreState({"1"}, map[NOTE_KEY := [draw.acceptTime]])
  {
    hide Canonical, InScope, ForRole, EvaluateOrder, ReceiptOf, Raises;
    var house, w := OneNoteAnHour(c), World(EMPTY_STORE, [Entry(1, Parsed(JObj(map[])))], map[]);
    var first, second := Agent(NoteOrder("1"), draw), Agent(NoteOrder("1"), again);
    UnreadableHeadLosesAll(house, w, [first, second]);
    assert [first, second][..1] == [first] && [first][..0] == [];
    NoteVerdict(c, "1", EMPTY_STORE, draw.checkTime);
    assert {} + {"1"} == {"1"} && EMPTY_STORE.Stamps(NOTE_KEY) + [draw.acceptTime] == [draw.acceptTime];
    assert Run(house, w, []) == w;
    var m := Run(house, w, [first]);
    assert m.store == StoreState({"1"}, map[NOTE_KEY := [draw.acceptTime]]);
    ReplayIffSpent(house, m, second);
    assert {"1"} + {"1"} == {"1"};
  }

  // ---- the personal gate ----

  /** The menu is keyed by capability id (menu/catalog.py line 44). */
  predicate MenuById(menu: Menu) {
    forall k :: k in menu ==> menu[k].id == k
  }

  predicate Prompted(house: House, w: World, call: Call) {
    call.Personal? && Prompts(house, w.store, w.settings, call.order, call.draw)
  }

  /** The chef ran for this personal call and its run is on record: only the runner records a
      containment class. */
  predicate ChefRan(house: House, w: World, call: Call) {
    call.Personal? && ReceiptOf(house, w, call).Some? && ReceiptOf(house, w, call).value.containment.Some?
  }

  /** Did the user answer the prompt with "allow always"? */
  predicate AllowedAlways(house: House, w: World, call: Call) {
    Prompted(house, w, call) && call.answer.Always()
  }

  function CapabilityOf(call: Call): string {
    if call.Personal? then call.order.capabilityId else ""
  }

  /** The runner is called for a personal order exactly when the cashier accepted the order and
      either the permission is ALLOW, or it is ASK and the user, asked, said yes and an "allow
      always" could be saved; and a run is on record exactly when the runner then did not raise and
      the table could be appended to. */
  lemma ChefRanExactly(house: House, w: World, call: Call)
    requires call.Personal?
    ensures Executed(house, w, call) <==>
      && OutcomeOf(house, w, call).value.Ticketed?
      && CapabilityOf(call) in house.menu
      && (StateFor(house, w.settings, call.order) == ALLOW
          || (Prompted(house, w, call) && call.answer.Yes() && (call.answer.remember ==> call.answer.saved)))
    ensures ChefRan(house, w, call)
       <==> HeadReadable(w.rows) && Executed(house, w, call) && !RunnerRaises(call.order.orderId, call.draw.kitchen)
  {
    hide EvaluateOrder, Canonical, HasNul;
    if house.Outcome(w.store, call.order, call.draw).Ticketed? {
      TicketedOnMenu(house, w.store, call.order, call.draw);
      TicketNamesOrder(house, w.store, call.order, call.draw);
    }
  }

  /** One call changes at most the setting it was prompted for, and only to ALLOW. */
  lemma SettingStep(house: House, w: World, call: Call, id: string)
    ensures var after := SettingsOf(house, w, call);
      if AllowedAlways(house, w, call) && CapabilityOf(call) == id
      then id in after && after[id] == ALLOW
      else (id in after <==> id in w.settings) && (id in w.settings ==> after[id] == w.settings[id])
  {
    hide EvaluateOrder, Canonical;
  }

  /** An "allow always" for the capability at some call of the run. */
  ghost predicate AllowedAlwaysIn(house: House, w: World, calls: seq<Call>, id: string) {
    exists i :: 0 <= i < |calls| && AllowedAlways(house, Before(house, w, calls, i), calls[i])
             && CapabilityOf(calls[i]) == id
  }

  lemma AllowedAlwaysSplit(house: House, w: World, calls: seq<Call>, id: string)
    requires calls != []
    ensures var n := |calls| - 1;
      AllowedAlwaysIn(house, w, calls, id) <==>
        || AllowedAlwaysIn(house, w, calls[..n], id)
        || (AllowedAlways(house, Run(house, w, calls[..n]), calls[n]) && CapabilityOf(calls[n]) == id)
  {
    hide AllowedAlways, Run;
    var n := |calls| - 1;
    var init := calls[..n];
    assert forall i :: 0 <= i < n ==> init[..i] == calls[..i] && init[i] == calls[i];
    if AllowedAlwaysIn(house, w, init, id) {
      var i :| 0 <= i < n && AllowedAlways(house, Before(house, w, init, i), init[i]) && CapabilityOf(init[i]) == id;
      assert AllowedAlways(house, Before(house, w, calls, i), calls[i]);
    }
    if AllowedAlwaysIn(house, w, calls, id) {
      var i :| 0 <= i < |calls| && AllowedAlways(house, Before(house, w, calls, i), calls[i])
            && CapabilityOf(calls[i]) == id;
      assert i < n ==> AllowedAlways(house, Before(house, w, init, i), init[i]);
    }
  }

  /** Over any run a setting is what it was at the start, or it is ALLOW because the user said
      "allow always" to a prompt for that capability. */
  lemma {:induction false} SettingsOverRun(house: House, w: World, calls: seq<Call>, id: string)
    ensures var after := Run(house, w, calls).settings;
      if AllowedAlwaysIn(house, w, calls, id)
      then id in after && after[id] == ALLOW
      else (id in after <==> id in w.settings) && (id in w.settings ==> after[id] == w.settings[id])
  {
    hide AllowedAlways, AllowedAlwaysIn, SettingsOf, StoreAfter, ReceiptOf;
    if calls == [] {
      NoneAllowedYet(house, w, id);
    } else {
      var init := calls[..|calls| - 1];
      SettingsOverRun(house, w, init, id);
      AllowedAlwaysSplit(house, w, calls, id);
      SettingStep(house, Run(house, w, init), calls[|calls| - 1], id);
    }
  }

  lemma NoneAllowedYet(house: House, w: World, id: string)
    ensures !AllowedAlwaysIn(house, w, [], id)
  {
  }

  /** After an "allow always", that capability never prompts again in the run. */
  lemma NeverAskedAgain(house: House, w: World, calls: seq<Call>, i: nat, j: nat)
    requires MenuById(house.menu) && i < j < |calls| && calls[j].Personal?
    requires AllowedAlways(house, Before(house, w, calls, i), calls[i])
    requires CapabilityOf(calls[j]) == CapabilityOf(calls[i])
    ensures !Prompted(house, Before(house, w, calls, j), calls[j])
  {
    hide AllowedAlways, Run, EvaluateOrder;
    var id := CapabilityOf(calls[i]);
    var first := calls[..j];
    assert first[..i] == calls[..i] && first[i] == calls[i];
    assert AllowedAlways(house, Before(house, w, first, i), first[i]);
    SettingsOverRun(house, w, first, id);
  }

  /** The permission the settings of the start give a capability: what is stored, or by default ASK
      exactly for capabilities that require confirmation. */
  predicate StartsAt(house: House, w: World, id: string, permission: Permission) {
    && id in house.menu
    && (id in w.settings ==> w.settings[id] == permission)
    && (id !in w.settings ==> permission == if house.menu[id].requiresUserConfirmation then ASK else ALLOW)
  }

  /** The user said yes, and a yes for always could be saved. */
  predicate Agreed(answer: Approval) {
    answer.Approval? && answer.allow && (answer.remember ==> answer.saved)
  }

  /** At any call of any run, whether an accepted personal order prompts and whether it is executed
      follows from the permission at the start alone, unless the user has meanwhile said "allow
      always": stored ALLOW, ASK and BLOCK decide, and where nothing is stored the user is asked
      exactly about capabilities that require confirmation. */
  lemma PermissionDecides(house: House, w: World, calls: seq<Call>, i: nat, permission: Permission)
    requires MenuById(house.menu) && i < |calls| && calls[i].Personal?
    requires OutcomeOf(house, Before(house, w, calls, i), calls[i]).value.Ticketed?
    requires StartsAt(house, w, calls[i].order.capabilityId, permission)
    ensures var b, call, id := Before(house, w, calls, i), calls[i], calls[i].order.capabilityId;
      var always := AllowedAlwaysIn(house, w, calls[..i], id);
      && (Prompted(house, b, call) <==> permission == ASK && !always)
      && (Executed(house, b, call) <==> always || permission == ALLOW || (permission == ASK && Agreed(call.answer)))
  {
    hide AllowedAlwaysIn, Run, EvaluateOrder;
    SettingsOverRun(house, w, calls[..i], calls[i].order.capabilityId);
  }

  /** An "allow always" is a yes to a prompt, to be remembered, whether or not it could be saved. */
  lemma AllowedAlwaysMeans(house: House, w: World, call: Call)
    ensures AllowedAlways(house, w, call)
       <==> Prompted(house, w, call) && call.answer.Approval? && call.answer.allow && call.answer.remember
  {
    hide EvaluateOrder;
  }

  /** A capability that starts at BLOCK neither prompts nor runs, however long the run. */
  lemma {:induction false} BlockedStaysBlocked(house: House, w: World, calls: seq<Call>, id: string, i: nat)
    requires MenuById(house.menu) && id in w.settings && w.settings[id] == BLOCK
    requires i < |calls| && calls[i].Personal? && CapabilityOf(calls[i]) == id
    ensures !Prompted(house, Before(house, w, calls, i), calls[i])
    ensures !Executed(house, Before(house, w, calls, i), calls[i])
    ensures !ChefRan(house, Before(house, w, calls, i), calls[i])
    decreases i
  {
    hide AllowedAlwaysIn, Run, EvaluateOrder, ReceiptOf, ChefRan, Executed;
    var b := Before(house, w, calls, i);
    BlockedSoFar(house, w, calls[..i], id);
    SettingsOverRun(house, w, calls[..i], id);
    ChefRanExactly(house, b, calls[i]);
  }

  lemma {:induction false} BlockedSoFar(house: House, w: World, calls: seq<Call>, id: string)
    requires MenuById(house.menu) && id in w.settings && w.settings[id] == BLOCK
    ensures !AllowedAlwaysIn(house, w, calls, id)
  {
    hide AllowedAlwaysIn, Run, EvaluateOrder;
    if calls == [] {
      NoneAllowedYet(house, w, id);
    } else {
      var n := |calls| - 1;
      BlockedSoFar(house, w, calls[..n], id);
      SettingsOverRun(house, w, calls[..n], id);
      AllowedAlwaysSplit(house, w, calls, id);
    }
  }
}
