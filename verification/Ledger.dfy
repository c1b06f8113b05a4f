/** The append-only receipt table. */
module ReceiptLedger {
  import opened Wrappers
  import opened Json
  import opened Chain
  import opened Tamper

  datatype Status = FULFILLED | REJECTED
  {
    function Name(): string {
      match this
      case FULFILLED => "FULFILLED"
      case REJECTED => "REJECTED"
    }
  }

  /** The cashier's six refusals, the runner's one, the user's two and the gateway's one. */
  datatype Reason =
    | REPLAY | OFF_MENU | ROLE_NOT_PERMITTED | CAPABILITY_PAUSED | OUT_OF_SCOPE | RATE_LIMITED
    | EXECUTION_FAILED | USER_DENIED | USER_BLOCKED | MALFORMED_ORDER
  {
    function Name(): string {
      match this
      case REPLAY => "REPLAY"
      case OFF_MENU => "OFF_MENU"
      case ROLE_NOT_PERMITTED => "ROLE_NOT_PERMITTED"
      case CAPABILITY_PAUSED => "CAPABILITY_PAUSED"
      case OUT_OF_SCOPE => "OUT_OF_SCOPE"
      case RATE_LIMITED => "RATE_LIMITED"
      case EXECUTION_FAILED => "EXECUTION_FAILED"
      case USER_DENIED => "USER_DENIED"
      case USER_BLOCKED => "USER_BLOCKED"
      case MALFORMED_ORDER => "MALFORMED_ORDER"
    }
  }

  /** Who ordered what, and when. */
  datatype OrderMeta = OrderMeta(principal: string, role: string, capabilityId: string, ts: string)
  {
    function ToJson(): Json {
      JObj(map["principal" := JStr(principal), "role" := JStr(role),
               "capability_id" := JStr(capabilityId), "ts" := JStr(ts)])
    }
  }

  /** A receipt before it is chained. */
  datatype Receipt = Receipt(
    receiptId: string,
    orderId: string,
    ticketId: Option<string>,
    status: Status,
    reason: Option<Reason>,
    resultDigest: Option<string>,
    attestation: Option<Json>,
    orderMeta: OrderMeta,
    containment: Option<string>)
  {
    function Body(): Fields {
      map["receipt_id" := JStr(receiptId),
          "order_id" := JStr(orderId),
          "ticket_id" := TextOrNull(ticketId),
          "status" := JStr(status.Name()),
          "reason_code" := (match reason case None => JNull case Some(r) => JStr(r.Name())),
          "result_digest" := TextOrNull(resultDigest),
          "attestation" := (match attestation case None => JNull case Some(a) => a),
          "order_meta" := orderMeta.ToJson(),
          "containment" := TextOrNull(containment)]
    }
  }

  function TextOrNull(t: Option<string>): Json {
    match t
    case None => JNull
    case Some(s) => JStr(s)
  }

  /** The key sqlite gives the next row. */
  function NextSeq(rows: Table): int {
    if rows == [] then 1 else rows[|rows| - 1].seqNo + 1
  }

  /** The row of a receipt, linked to whatever the head of the table stores. */
  function ReceiptRow(c: Crypto, rows: Table, r: Receipt): Entry
    requires HeadReadable(rows)
  {
    Entry(NextSeq(rows), Parsed(JObj(Sealed(c, r.Body(), HeadLink(c, Domain.Receipts, rows)))))
  }

  /** The table after `append`, which raises on a table whose head cannot be read. */
  function Appended(c: Crypto, rows: Table, r: Receipt): Table {
    if HeadReadable(rows) then rows + [ReceiptRow(c, rows, r)] else rows
  }

  lemma BodyIsBody(r: Receipt)
    ensures IsBody(Domain.Receipts, r.Body())
  {
    var keys := Domain.Receipts.Required();
    forall k | k in keys && k != "prev_hash" ensures k in r.Body() {
      var i :| 0 <= i < |keys| && keys[i] == k;
      assert i != 7;
    }
  }

  /** One receipt more, and the verifier still accepts. */
  lemma AppendedAccepted(c: Crypto, rows: Table, r: Receipt)
    requires c.Lawful() && Accepted(c, Domain.Receipts, rows)
    ensures Accepted(c, Domain.Receipts, Appended(c, rows, r))
    ensures |Appended(c, rows, r)| == |rows| + 1
  {
    hide Accepted, Canonical;
    BodyIsBody(r);
    AcceptedHead(c, Domain.Receipts, rows);
    AppendAccepted(c, Domain.Receipts, rows, r.Body(), NextSeq(rows));
  }

  // ---- reading receipts back ----

  /** A receipt as `read_all` returns it. */
  datatype ReadReceipt = ReadReceipt(
    receiptId: Json, orderId: Json, ticketId: Json, status: Json, reasonCode: Json, resultDigest: Json,
    attestation: Json, prevHash: Json, thisHash: Json, sig: Option<string>, orderMeta: Json, containment: Json)

  /** The keys `read_all` indexes; a stored row without one of them makes it raise. */
  const READ_KEYS: seq<string> :=
    ["receipt_id", "order_id", "ticket_id", "status", "reason_code", "result_digest", "attestation", "prev_hash",
     "this_hash", "sig"]

  predicate ReadsAsReceipt(c: Crypto, rows: Table, k: int) {
    && IsRow(rows, k)
    && (forall i :: 0 <= i < |READ_KEYS| ==> READ_KEYS[i] in RowAt(rows, k))
    && Lookup(RowAt(rows, k), "sig").JStr?
    && c.decode(Lookup(RowAt(rows, k), "sig").s).Some?
  }

  /** Rows from before v0.2 and v0.12 lack the last two keys; they read as null. */
  function ReadRow(c: Crypto, row: Fields): ReadReceipt {
    ReadReceipt(Lookup(row, "receipt_id"), Lookup(row, "order_id"), Lookup(row, "ticket_id"), Lookup(row, "status"),
                Lookup(row, "reason_code"), Lookup(row, "result_digest"), Lookup(row, "attestation"),
                Lookup(row, "prev_hash"), Lookup(row, "this_hash"),
                if Lookup(row, "sig").JStr? then c.decode(Lookup(row, "sig").s) else None,
                Lookup(row, "order_meta"), Lookup(row, "containment"))
  }

  /** What was appended is what is read: every field under its own key, linked to the head it was
      appended to, and carrying a signature over its own hash. */
  lemma AppendedReadsBack(c: Crypto, rows: Table, r: Receipt)
    requires c.Lawful() && HeadReadable(rows)
    ensures var got := ReadRow(c, ReceiptRow(c, rows, r).text.value.fields);
      && got.receiptId == JStr(r.receiptId) && got.orderId == JStr(r.orderId)
      && got.ticketId == TextOrNull(r.ticketId)
      && got.status == JStr(if r.status == FULFILLED then "FULFILLED" else "REJECTED")
      && (r.reason.None? ==> got.reasonCode == JNull)
      && (r.reason.Some? ==> got.reasonCode == JStr(r.reason.value.Name()))
      && got.resultDigest == TextOrNull(r.resultDigest)
      && got.attestation == (match r.attestation case None => JNull case Some(a) => a)
      && got.orderMeta == JObj(map["principal" := JStr(r.orderMeta.principal), "role" := JStr(r.orderMeta.role),
                                   "capability_id" := JStr(r.orderMeta.capabilityId), "ts" := JStr(r.orderMeta.ts)])
      && got.containment == TextOrNull(r.containment)
      && got.prevHash == HeadLink(c, Domain.Receipts, rows)
      && got.thisHash.JStr? && got.sig == Some(c.sign(got.thisHash.s))
  {
    hide Canonical, HeadLink, Sealed;
    var body, prev := r.Body(), HeadLink(c, Domain.Receipts, rows);
    BodyFields(r);
    forall key | key in body ensures Lookup(Sealed(c, body, prev), key) == body[key] {
      SealedField(c, body, prev, key);
    }
    SealedEnds(c, body, prev);
  }

  /** The code an auditor reads off the row for each reason. */
  lemma ReasonsRead(c: Crypto, rows: Table, r: Receipt)
    requires c.Lawful() && HeadReadable(rows) && r.reason.Some?
    ensures var code := ReadRow(c, ReceiptRow(c, rows, r).text.value.fields).reasonCode;
      match r.reason.value
      case REPLAY => code == JStr("REPLAY")
      case OFF_MENU => code == JStr("OFF_MENU")
      case ROLE_NOT_PERMITTED => code == JStr("ROLE_NOT_PERMITTED")
      case CAPABILITY_PAUSED => code == JStr("CAPABILITY_PAUSED")
      case OUT_OF_SCOPE => code == JStr("OUT_OF_SCOPE")
      case RATE_LIMITED => code == JStr("RATE_LIMITED")
      case EXECUTION_FAILED => code == JStr("EXECUTION_FAILED")
      case USER_DENIED => code == JStr("USER_DENIED")
      case USER_BLOCKED => code == JStr("USER_BLOCKED")
      case MALFORMED_ORDER => code == JStr("MALFORMED_ORDER")
  {
    hide ReadRow, ReceiptRow;
    AppendedReadsBack(c, rows, r);
  }

  lemma BodyFields(r: Receipt)
    ensures var body := r.Body();
      && "receipt_id" in body && body["receipt_id"] == JStr(r.receiptId)
      && "order_id" in body && body["order_id"] == JStr(r.orderId)
      && "ticket_id" in body && body["ticket_id"] == TextOrNull(r.ticketId)
      && "status" in body && body["status"] == JStr(r.status.Name())
      && "reason_code" in body && (r.reason.None? ==> body["reason_code"] == JNull)
      && (r.reason.Some? ==> body["reason_code"] == JStr(r.reason.value.Name()))
      && "result_digest" in body && body["result_digest"] == TextOrNull(r.resultDigest)
      && "attestation" in body && body["attestation"] == (match r.attestation case None => JNull case Some(a) => a)
      && "order_meta" in body && body["order_meta"] == r.orderMeta.ToJson()
      && "containment" in body && body["containment"] == TextOrNull(r.containment)
      && "prev_hash" !in body && "this_hash" !in body && "sig" !in body
  {
  }

  lemma SealedField(c: Crypto, body: Fields, prev: Json, key: string)
    requires key in body && key !in {"prev_hash", "this_hash", "sig"}
    ensures Lookup(Sealed(c, body, prev), key) == body[key]
  {
    hide Canonical;
  }

  lemma SealedEnds(c: Crypto, body: Fields, prev: Json)
    requires c.Lawful()
    ensures var row := Sealed(c, body, prev);
      && Lookup(row, "prev_hash") == prev && Lookup(row, "this_hash").JStr? && Lookup(row, "sig").JStr?
      && c.decode(Lookup(row, "sig").s) == Some(c.sign(Lookup(row, "this_hash").s))
  {
    hide Canonical;
    var h := Sealed(c, body, prev)["this_hash"].s;
    assert c.decode(c.encode(c.sign(h))) == Some(c.sign(h));
  }

  lemma ReadsAsRow(c: Crypto, rows: Table, k: int)
    requires ReadsAsReceipt(c, rows, k)
    ensures IsRow(rows, k)
  {
  }

  /** Every table the verifier accepts can be read as receipts, old rows included. */
  lemma AcceptedReads(c: Crypto, rows: Table, k: nat)
    requires Accepted(c, Domain.Receipts, rows) && k < |rows|
    ensures ReadsAsReceipt(c, rows, k)
  {
    hide Canonical, Accepted;
    RowIsClean(c, Domain.Receipts, rows, k);
    CleanRow(c, Domain.Receipts, PrevAt(c, Domain.Receipts, rows, k), rows[k].text);
    CarriesAllMeans(Domain.Receipts, rows[k].text.value);
    assert READ_KEYS == Domain.Receipts.Required() + EXCLUDED;
    forall i | 0 <= i < |READ_KEYS| ensures READ_KEYS[i] in RowAt(rows, k) {
      assert Carries(rows[k].text.value, READ_KEYS[i]);
    }
  }

  /** `read_all` gets through a row exactly when it is an object with these ten keys and a signature
      that decodes. */
  lemma ReadsExactly(c: Crypto, rows: Table, k: int)
    requires IsRow(rows, k)
    ensures var row := RowAt(rows, k);
      ReadsAsReceipt(c, rows, k) <==>
        && {"receipt_id", "order_id", "ticket_id", "status", "reason_code", "result_digest", "attestation",
            "prev_hash", "this_hash", "sig"} <= row.Keys
        && row["sig"].JStr? && c.decode(row["sig"].s).Some?
  {
    var row := RowAt(rows, k);
    assert READ_KEYS[0] == "receipt_id" && READ_KEYS[1] == "order_id" && READ_KEYS[2] == "ticket_id";
    assert READ_KEYS[3] == "status" && READ_KEYS[4] == "reason_code" && READ_KEYS[5] == "result_digest";
    assert READ_KEYS[6] == "attestation" && READ_KEYS[7] == "prev_hash";
    assert READ_KEYS[8] == "this_hash" && READ_KEYS[9] == "sig" && |READ_KEYS| == 10;
  }

  /** The seqs of a table increase, as those of a primary key do. */
  predicate SeqsIncrease(rows: Table) {
    forall i, j :: 0 <= i < j < |rows| ==> rows[i].seqNo < rows[j].seqNo
  }

  /** A new row takes a seq above all others, the next number after the last one. */
  lemma AppendedSeqs(c: Crypto, rows: Table, r: Receipt)
    requires SeqsIncrease(rows)
    ensures var rows' := Appended(c, rows, r);
      && SeqsIncrease(rows')
      && (|rows'| > |rows| ==> rows'[|rows|].seqNo == if rows == [] then 1 else rows[|rows| - 1].seqNo + 1)
  {
    hide Sealed, HeadReadable;
  }

  /** Appending leaves a readable head readable, and an unreadable one as it is. */
  lemma AppendedHead(c: Crypto, rows: Table, r: Receipt)
    ensures HeadReadable(Appended(c, rows, r)) <==> HeadReadable(rows)
  {
    hide Canonical, HeadLink;
    if HeadReadable(rows) {
      assert "this_hash" in Sealed(c, r.Body(), HeadLink(c, Domain.Receipts, rows));
    }
  }

  class Ledger {
    const c: Crypto
    var rows: Table

    constructor (c: Crypto, rows: Table)
      ensures this.c == c && this.rows == rows
    {
      this.c := c;
      this.rows := rows;
    }

    /** What the next row links to; `None` is the exception on a last row that is no object or
        stores no hash. */
    method HeadHash() returns (h: Option<Json>)
      ensures h == if HeadReadable(rows) then Some(HeadLink(c, Domain.Receipts, rows)) else None
    {
      if rows == [] {
        return Some(JStr(Genesis(c, Domain.Receipts)));
      }
      var last := rows[|rows| - 1].text;
      if last.Unparseable? || !last.value.JObj? || "this_hash" !in last.value.fields {
        return None;
      }
      h := Some(last.value.fields["this_hash"]);
    }

    /** `read_all`; `None` is the exception on a row that is no receipt. */
    method ReadAll() returns (receipts: Option<seq<ReadReceipt>>)
      ensures receipts.Some? <==> forall k :: 0 <= k < |rows| ==> ReadsAsReceipt(c, rows, k)
      ensures receipts.Some? ==> |receipts.value| == |rows|
      ensures receipts.Some? ==>
        forall k :: 0 <= k < |rows| ==> IsRow(rows, k) && receipts.value[k] == ReadRow(c, RowAt(rows, k))
    {
      hide ReadRow, ReadsAsReceipt;
      var read: seq<ReadReceipt> := [];
      for i := 0 to |rows|
        invariant |read| == i
        invariant forall k :: 0 <= k < i ==>
          ReadsAsReceipt(c, rows, k) && IsRow(rows, k) && read[k] == ReadRow(c, RowAt(rows, k))
      {
        if !ReadsAsReceipt(c, rows, i) {
          return None;
        }
        ReadsAsRow(c, rows, i);
        read := read + [ReadRow(c, rows[i].text.value.fields)];
      }
      receipts := Some(read);
    }

    /** `append`: links, hashes and signs the receipt, and inserts it. False is the exception of a
        head that cannot be read, before anything is written. */
    method Append(r: Receipt) returns (appended: bool)
      modifies this`rows
      ensures appended == HeadReadable(old(rows))
      ensures rows == Appended(c, old(rows), r)
    {
      hide Canonical, HeadReadable, HeadLink;
      var prevHash := HeadHash();
      if prevHash.None? {
        return false;
      }
      var content := r.Body()["prev_hash" := prevHash.value];
      var thisHash := c.digest(Canonical(JObj(content)));
      var rawSig := c.sign(thisHash);
      var row := content["this_hash" := JStr(thisHash)]["sig" := JStr(c.encode(rawSig))];
      var seqNo := if rows == [] then 1 else rows[|rows| - 1].seqNo + 1;
      rows := rows + [Entry(seqNo, Parsed(JObj(row)))];
      appended := true;
    }
  }
}
