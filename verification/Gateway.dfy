/** The counter: one order as JSON in, one governed outcome out. */
module Gateway {
  import opened Wrappers
  import opened Json
  import opened Chain
  import opened ReceiptLedger
  import opened Cashier
  import opened Kitchen
  import opened Loop

  const ORDER_KEYS: seq<string> := ["order_id", "principal", "role", "capability_id", "args", "nonce", "ts"]
  const STRING_KEYS: seq<string> := ["order_id", "principal", "role", "capability_id", "nonce", "ts"]
  const UNADMITTED_PRINCIPAL := "gateway:unadmitted"

  datatype Malformed =
    | UnparseableJson | NotAnObject | MissingKey(key: string) | UnknownKey(key: string)
    | NotAString(key: string) | ArgsNotAnObject

  /** What `json.loads` makes of an intake: no JSON, a value, or an exception that `parse_order`
      does not take for malformed JSON, as on an integer of more digits than Python converts or
      on nesting deeper than its stack. */
  datatype Reading = NotJson | Overwhelms | Reads(value: Json)

  datatype Parse = Admitted(order: Order) | Rejected(why: Malformed) | Escapes

  /** The first key of the list that the object lacks. */
  function FirstMissing(fields: Fields, keys: seq<string>): (k: Option<string>)
    ensures k.None? <==> forall i :: 0 <= i < |keys| ==> keys[i] in fields
  {
    if keys == [] then None
    else if keys[0] !in fields then Some(keys[0])
    else FirstMissing(fields, keys[1..])
  }

  function FirstNonString(fields: Fields, keys: seq<string>): (k: Option<string>)
    ensures k.None? <==> forall i :: 0 <= i < |keys| ==> Lookup(fields, keys[i]).JStr?
  {
    if keys == [] then None
    else if !Lookup(fields, keys[0]).JStr? then Some(keys[0])
    else FirstNonString(fields, keys[1..])
  }

  function TextAt(fields: Fields, key: string): string {
    if Lookup(fields, key).JStr? then Lookup(fields, key).s else ""
  }

  function OrderOf(fields: Fields): Order {
    Order(TextAt(fields, "order_id"), TextAt(fields, "principal"), TextAt(fields, "role"),
          TextAt(fields, "capability_id"), Lookup(fields, "args"), TextAt(fields, "nonce"), TextAt(fields, "ts"))
  }

  function KnownKeys(): set<string> {
    set i | 0 <= i < |ORDER_KEYS| :: ORDER_KEYS[i]
  }

  /** `parse_order`: strict, seven keys, no more. */
  function ParseOrder(intake: Reading): Parse {
    if intake.Overwhelms? then Escapes
    else if intake.NotJson? then Rejected(UnparseableJson)
    else if !intake.value.JObj? then Rejected(NotAnObject)
    else
      var fields := intake.value.fields;
      var missing := FirstMissing(fields, ORDER_KEYS);
      var unknown := fields.Keys - KnownKeys();
      var untyped := FirstNonString(fields, STRING_KEYS);
      if missing.Some? then Rejected(Malformed.MissingKey(missing.value))
      else if unknown != {} then Rejected(UnknownKey(LeastKey(unknown)))
      else if untyped.Some? then Rejected(NotAString(untyped.value))
      else if !Lookup(fields, "args").JObj? then Rejected(ArgsNotAnObject)
      else Admitted(OrderOf(fields))
  }

  /** The wire form of an order. */
  function OrderJson(o: Order): Json {
    JObj(map["order_id" := JStr(o.orderId), "principal" := JStr(o.principal), "role" := JStr(o.role),
             "capability_id" := JStr(o.capabilityId), "args" := o.args, "nonce" := JStr(o.nonce), "ts" := JStr(o.ts)])
  }

  lemma KeyIndexes()
    ensures ORDER_KEYS[0] == "order_id" && ORDER_KEYS[1] == "principal" && ORDER_KEYS[2] == "role"
    ensures ORDER_KEYS[3] == "capability_id" && ORDER_KEYS[4] == "args"
    ensures ORDER_KEYS[5] == "nonce" && ORDER_KEYS[6] == "ts"
    ensures STRING_KEYS[0] == "order_id" && STRING_KEYS[1] == "principal" && STRING_KEYS[2] == "role"
    ensures STRING_KEYS[3] == "capability_id" && STRING_KEYS[4] == "nonce" && STRING_KEYS[5] == "ts"
    ensures |ORDER_KEYS| == 7 && |STRING_KEYS| == 6
  {
  }

  /** The gateway admits an order if and only if the intake is that order's wire form, with
      an object for its args; every order survives the trip. */
  lemma ParseOrderExact(intake: Reading, o: Order)
    ensures ParseOrder(intake) == Admitted(o) <==> (intake == Reads(OrderJson(o)) && o.args.JObj?)
  {
    if ParseOrder(intake) == Admitted(o) {
      AdmittedIsWire(intake.value.fields, o);
    }
    if intake == Reads(OrderJson(o)) && o.args.JObj? {
      WireIsAdmitted(o);
    }
  }

  lemma AdmittedIsWire(fields: Fields, o: Order)
    requires ParseOrder(Reads(JObj(fields))) == Admitted(o)
    ensures JObj(fields) == OrderJson(o) && o.args.JObj?
  {
    KeyIndexes();
    assert FirstMissing(fields, ORDER_KEYS).None? && FirstNonString(fields, STRING_KEYS).None?;
    assert forall i :: 0 <= i < |STRING_KEYS| ==> Lookup(fields, STRING_KEYS[i]).JStr?;
    assert forall i :: 0 <= i < |ORDER_KEYS| ==> ORDER_KEYS[i] in fields;
    var wire := OrderJson(o).fields;
    var unknown := fields.Keys - KnownKeys();
    assert unknown == {};
    assert forall k :: k in fields.Keys ==> k !in unknown;
    forall k ensures k in fields <==> k in wire {
      if k in fields {
        assert k in KnownKeys();
      }
    }
  }

  lemma WireIsAdmitted(o: Order)
    requires o.args.JObj?
    ensures ParseOrder(Reads(OrderJson(o))) == Admitted(o)
  {
    KeyIndexes();
    var fields := OrderJson(o).fields;
    forall k | k in fields ensures k in KnownKeys() {
      assert exists i :: 0 <= i < |ORDER_KEYS| && ORDER_KEYS[i] == k;
    }
    assert fields.Keys - KnownKeys() == {};
    assert FirstMissing(fields, ORDER_KEYS).None?;
    assert FirstNonString(fields, STRING_KEYS).None?;
  }

  /** keys[i] is the first of the keys that the object lacks. */
  predicate FirstAbsent(fields: Fields, keys: seq<string>, i: int) {
    0 <= i < |keys| && keys[i] !in fields && forall j :: 0 <= j < i ==> keys[j] in fields
  }

  /** keys[i] is the first of the keys that holds no text. */
  predicate FirstUntyped(fields: Fields, keys: seq<string>, i: int) {
    && 0 <= i < |keys| && !Lookup(fields, keys[i]).JStr?
    && forall j :: 0 <= j < i ==> Lookup(fields, keys[j]).JStr?
  }

  lemma {:induction false} FirstMissingIs(fields: Fields, keys: seq<string>, key: string)
    ensures FirstMissing(fields, keys) == Some(key) <==> exists i :: FirstAbsent(fields, keys, i) && keys[i] == key
  {
    if keys != [] {
      var rest := keys[1..];
      FirstMissingIs(fields, rest, key);
      if i :| FirstAbsent(fields, rest, i) && rest[i] == key {
        assert keys[0] in fields ==> FirstAbsent(fields, keys, i + 1);
      }
      if i :| FirstAbsent(fields, keys, i) && keys[i] == key {
        if i > 0 {
          forall j | 0 <= j < i - 1 ensures rest[j] in fields {
            assert keys[j + 1] in fields;
          }
          assert FirstAbsent(fields, rest, i - 1);
        }
      }
      assert keys[0] !in fields ==> FirstAbsent(fields, keys, 0);
    }
  }

  lemma {:induction false} FirstNonStringIs(fields: Fields, keys: seq<string>, key: string)
    ensures FirstNonString(fields, keys) == Some(key) <==> exists i :: FirstUntyped(fields, keys, i) && keys[i] == key
  {
    hide Lookup;
    if keys != [] {
      var rest := keys[1..];
      FirstNonStringIs(fields, rest, key);
      if i :| FirstUntyped(fields, rest, i) && rest[i] == key {
        assert Lookup(fields, keys[0]).JStr? ==> FirstUntyped(fields, keys, i + 1);
      }
      if i :| FirstUntyped(fields, keys, i) && keys[i] == key {
        if i > 0 {
          forall j | 0 <= j < i - 1 ensures Lookup(fields, rest[j]).JStr? {
            assert Lookup(fields, keys[j + 1]).JStr?;
          }
          assert FirstUntyped(fields, rest, i - 1);
        }
      }
      assert !Lookup(fields, keys[0]).JStr? ==> FirstUntyped(fields, keys, 0);
    }
  }

  lemma LeastIs(keys: set<string>, key: string)
    requires keys != {}
    ensures LeastKey(keys) == key <==> key in keys && forall k :: k in keys ==> TextLeq(key, k)
  {
    hide LeastKey;
    if key in keys && forall k :: k in keys ==> TextLeq(key, k) {
      TextLeqTotal(key, LeastKey(keys));
    }
  }

  lemma KeyLists()
    ensures ORDER_KEYS == ["order_id", "principal", "role", "capability_id", "args", "nonce", "ts"]
    ensures STRING_KEYS == ["order_id", "principal", "role", "capability_id", "nonce", "ts"]
    ensures forall key :: key in KnownKeys() <==> key in ORDER_KEYS
  {
  }

  /** The object has all of the keys, no other key, and texts under these. */
  predicate Complete(fields: Fields, keys: seq<string>) {
    forall k :: k in keys ==> k in fields
  }

  predicate Known(fields: Fields, keys: seq<string>) {
    forall k :: k in fields ==> k in keys
  }

  predicate Typed(fields: Fields, texts: seq<string>) {
    forall k :: k in texts ==> Lookup(fields, k).JStr?
  }

  /** The three searches of the reader, by what they find nothing in. */
  lemma SearchesMean(fields: Fields)
    ensures FirstMissing(fields, ORDER_KEYS).None? <==> Complete(fields, ORDER_KEYS)
    ensures fields.Keys - KnownKeys() == {} <==> Known(fields, ORDER_KEYS)
    ensures FirstNonString(fields, STRING_KEYS).None? <==> Typed(fields, STRING_KEYS)
    ensures forall k :: k in fields.Keys - KnownKeys() <==> k in fields && k !in ORDER_KEYS
  {
    hide FirstMissing, FirstNonString, Lookup, ORDER_KEYS, STRING_KEYS, KnownKeys;
    KeyLists();
    var unknown := fields.Keys - KnownKeys();
    assert forall k :: k in unknown <==> k in fields && k !in ORDER_KEYS;
  }

  lemma ObjectRejected(fields: Fields, key: string)
    ensures var keys, texts, parse := ORDER_KEYS, STRING_KEYS, ParseOrder(Reads(JObj(fields)));
      var complete := Complete(fields, keys);
      var known := complete && Known(fields, keys);
      && (parse == Rejected(Malformed.MissingKey(key)) <==>
            exists i :: FirstAbsent(fields, keys, i) && keys[i] == key)
      && (parse == Rejected(UnknownKey(key)) <==>
            complete && key in fields && key !in keys
            && forall k :: k in fields && k !in keys ==> TextLeq(key, k))
      && (parse == Rejected(NotAString(key)) <==>
            known && exists i :: FirstUntyped(fields, texts, i) && texts[i] == key)
      && (parse == Rejected(ArgsNotAnObject) <==> known && Typed(fields, texts) && !Lookup(fields, "args").JObj?)
  {
    hide LeastKey, FirstMissing, FirstNonString, Lookup, ORDER_KEYS, STRING_KEYS, KnownKeys, FirstAbsent, FirstUntyped;
    hide Complete, Known, Typed, TextLeq;
    SearchesMean(fields);
    FirstMissingIs(fields, ORDER_KEYS, key);
    FirstNonStringIs(fields, STRING_KEYS, key);
    if fields.Keys - KnownKeys() != {} {
      LeastIs(fields.Keys - KnownKeys(), key);
    }
  }

  /** Why an intake is refused: no JSON, no object, the first of the seven keys that is missing, else
      the least key that is none of them, else the first of the six text keys that holds no text,
      else args that are no object. */
  lemma RejectsExactly(intake: Reading, key: string)
    ensures ParseOrder(intake) == Rejected(UnparseableJson) <==> intake.NotJson?
    ensures ParseOrder(intake) == Escapes <==> intake.Overwhelms?
    ensures ParseOrder(intake) == Rejected(NotAnObject) <==> intake.Reads? && !intake.value.JObj?
    ensures intake.Reads? && intake.value.JObj? ==>
      var keys := ["order_id", "principal", "role", "capability_id", "args", "nonce", "ts"];
      var texts := ["order_id", "principal", "role", "capability_id", "nonce", "ts"];
      var fields, parse := intake.value.fields, ParseOrder(intake);
      var complete := Complete(fields, keys);
      var known := complete && Known(fields, keys);
      && (parse == Rejected(Malformed.MissingKey(key)) <==>
            exists i :: FirstAbsent(fields, keys, i) && keys[i] == key)
      && (parse == Rejected(UnknownKey(key)) <==>
            complete && key in fields && key !in keys
            && forall k :: k in fields && k !in keys ==> TextLeq(key, k))
      && (parse == Rejected(NotAString(key)) <==>
            known && exists i :: FirstUntyped(fields, texts, i) && texts[i] == key)
      && (parse == Rejected(ArgsNotAnObject) <==> known && Typed(fields, texts) && !Lookup(fields, "args").JObj?)
  {
    hide LeastKey, FirstMissing, FirstNonString, Lookup, ORDER_KEYS, STRING_KEYS, KnownKeys, FirstAbsent, FirstUntyped;
    hide Complete, Known, Typed, TextLeq;
    KeyLists();
    if intake.Reads? && intake.value.JObj? {
      ObjectRejected(intake.value.fields, key);
    }
  }

  /** What an unadmittable intake leaves on the chain: that it came, and when; nothing of it. */
  function MalformedReceipt(gatewayOrderId: string, receiptId: string, ts: string): Receipt {
    Receipt(receiptId, "gw-unadmitted-" + gatewayOrderId, None, REJECTED, Some(MALFORMED_ORDER), None, None,
            OrderMeta(UNADMITTED_PRINCIPAL, "(none)", "(unparsed)", ts), None)
  }

  datatype Answer = MalformedAnswer(why: Malformed, receipt: Receipt) | OrderAnswer(outcome: Outcome, receipt: Receipt)

  /** `place_order_json`; `None` is the exception. */
  method PlaceOrderJson(loop: SentinelLoop, intake: Reading, draw: Draw, gatewayOrderId: string)
    returns (answer: Option<Answer>)
    requires loop.Ready()
    modifies loop, loop.store, loop.ledger`rows
    ensures match ParseOrder(intake)
      case Escapes =>
        answer.None? && loop.store.State() == old(loop.store.State()) && loop.ledger.rows == old(loop.ledger.rows)
      case Rejected(why) =>
        var receipt := MalformedReceipt(gatewayOrderId, draw.receiptId, draw.issuedTs);
        && answer == (if HeadReadable(old(loop.ledger.rows)) then Some(MalformedAnswer(why, receipt)) else None)
        && loop.store.State() == old(loop.store.State())
        && loop.ledger.rows == Appended(loop.house.c, old(loop.ledger.rows), receipt)
      case Admitted(order) =>
        var receipt := loop.house.PlaceReceipt(old(loop.store.State()), order, draw);
        && (answer.None? <==>
              !HeadReadable(old(loop.ledger.rows)) || loop.house.PlaceRaises(old(loop.store.State()), order, draw))
        && (answer.Some? ==>
              answer.value.OrderAnswer? && receipt == Some(answer.value.receipt)
              && answer.value.outcome == loop.house.Outcome(old(loop.store.State()), order, draw))
        && loop.store.State() == loop.house.Store(old(loop.store.State()), order, draw)
        && loop.ledger.rows == AppendedIf(loop.house.c, old(loop.ledger.rows), receipt)
  {
    hide ParseOrder, Appended, HeadReadable, ProcessOutcome, ProcessStore, HasNul;
    match ParseOrder(intake) {
      case Escapes =>
        return None;
      case Rejected(why) =>
        var receipt := MalformedReceipt(gatewayOrderId, draw.receiptId, draw.issuedTs);
        var appended := loop.ledger.Append(receipt);
        return if appended then Some(MalformedAnswer(why, receipt)) else None;
      case Admitted(order) =>
        ghost var store := loop.store.State();
        var outcome := loop.Place(order, draw);
        if outcome.None? {
          return None;
        }
        if outcome.value.Ticketed? {
          TicketNamesOrder(loop.house, store, order, draw);
        }
        var receipt := if outcome.value.Refused? then outcome.value.receipt else loop.lastChef.value.receipt;
        return Some(OrderAnswer(outcome.value, receipt));
    }
  }
}
