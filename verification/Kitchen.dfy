/** The runner: one chef execution, and one receipt for it unless an exception ends it first. */
module Kitchen {
  import opened Wrappers
  import opened Chain
  import opened ReceiptLedger
  import opened Cashier

  datatype ChefResult = ChefResult(
    returncode: int,
    draft: Option<string>,
    resultDigest: Option<string>,
    receipt: Receipt)

  /** No directory can be made for this order id. */
  predicate HasNul(orderId: string) {
    '\0' in orderId
  }

  /** The runner raises: its window cannot be opened, as for every order id that holds NUL, or
      what it calls raises. */
  predicate RunnerRaises(orderId: string, run: KitchenRun) {
    HasNul(orderId) || run.Raised?
  }

  /** Success takes both a zero exit and a readable output file. */
  predicate Succeeded(run: KitchenRun) {
    run.KitchenRun? && run.returncode == 0 && run.draft.Some?
  }

  function ChefReceipt(c: Crypto, ticket: Ticket, meta: OrderMeta, draw: Draw): Receipt
    requires !RunnerRaises(ticket.orderId, draw.kitchen)
  {
    var run := draw.kitchen;
    if Succeeded(run) then
      Receipt(draw.receiptId, ticket.orderId, Some(ticket.ticketId), FULFILLED, None,
              Some(c.digest(run.draft.value)), Some(run.quote), meta, Some(run.containment))
    else
      Receipt(draw.receiptId, ticket.orderId, Some(ticket.ticketId), REJECTED, Some(EXECUTION_FAILED),
              None, None, meta, Some(run.containment))
  }

  /** The receipt of an execution, or none when the runner raises. */
  function ExecutionReceipt(c: Crypto, ticket: Ticket, meta: OrderMeta, draw: Draw): Option<Receipt> {
    if RunnerRaises(ticket.orderId, draw.kitchen) then None else Some(ChefReceipt(c, ticket, meta, draw))
  }

  function ChefResultOf(c: Crypto, ticket: Ticket, meta: OrderMeta, draw: Draw): Option<ChefResult> {
    if RunnerRaises(ticket.orderId, draw.kitchen) then None
    else
      var receipt := ChefReceipt(c, ticket, meta, draw);
      if Succeeded(draw.kitchen)
      then Some(ChefResult(0, draw.kitchen.draft, receipt.resultDigest, receipt))
      else Some(ChefResult(draw.kitchen.returncode, None, None, receipt))
  }

  lemma NulMeans(orderId: string)
    ensures HasNul(orderId) <==> exists i :: 0 <= i < |orderId| && orderId[i] as int == 0
  {
    if HasNul(orderId) {
      var i :| 0 <= i < |orderId| && orderId[i] == '\0';
      assert orderId[i] as int == 0;
    }
    if i :| 0 <= i < |orderId| && orderId[i] as int == 0 {
      assert orderId[i] == '\0';
    }
  }

  /** What the caller gets: nothing if the id holds NUL or the run raises; else the run's own exit
      code and the receipt, and the draft and its digest exactly when the exit code is 0 and there
      is a draft. */
  lemma ChefResultMeans(c: Crypto, ticket: Ticket, meta: OrderMeta, draw: Draw)
    ensures var result, run := ChefResultOf(c, ticket, meta, draw), draw.kitchen;
      && (result.None? <==> HasNul(ticket.orderId) || run.Raised?)
      && (result.Some? ==>
            && result.value.returncode == run.returncode
            && Some(result.value.receipt) == ExecutionReceipt(c, ticket, meta, draw)
            && result.value.resultDigest == result.value.receipt.resultDigest
            && if run.returncode == 0 && run.draft.Some?
               then result.value.draft == run.draft && result.value.resultDigest == Some(c.digest(run.draft.value))
               else result.value.draft.None? && result.value.resultDigest.None?)
  {
    hide HasNul;
  }

  /** The table with the receipt, if there is one. */
  function AppendedIf(c: Crypto, rows: Table, r: Option<Receipt>): Table {
    match r
    case None => rows
    case Some(receipt) => Appended(c, rows, receipt)
  }

  /** The part of `serving.window_dir` that depends on the order id alone: a path with NUL in it
      is refused before the file system is asked. */
  method IsPathText(orderId: string) returns (ok: bool)
    ensures ok <==> !HasNul(orderId)
  {
    for i := 0 to |orderId|
      invariant forall k :: 0 <= k < i ==> orderId[k] != '\0'
    {
      if orderId[i] == '\0' {
        return false;
      }
    }
    ok := true;
  }

  /** `run_chef`, with the answers of the file system, the sandbox and the attestor drawn
      beforehand. `None` is the exception: everything that can raise comes before the insert. */
  method RunChef(c: Crypto, ticket: Ticket, ledger: Ledger, meta: OrderMeta, draw: Draw)
    returns (result: Option<ChefResult>)
    requires ledger.c == c
    modifies ledger`rows
    ensures result == if HeadReadable(old(ledger.rows)) then ChefResultOf(c, ticket, meta, draw) else None
    ensures ledger.rows == AppendedIf(c, old(ledger.rows), ExecutionReceipt(c, ticket, meta, draw))
  {
    hide Appended, HeadReadable, HasNul;
    var run := draw.kitchen;
    var isPath := IsPathText(ticket.orderId);
    if !isPath || run.Raised? {
      return None;
    }
    var draftBytes: Option<string> := None;
    if run.returncode == 0 {
      draftBytes := run.draft;
    }
    if run.returncode == 0 && draftBytes.Some? {
      var resultDigest := c.digest(draftBytes.value);
      var receipt := Receipt(draw.receiptId, ticket.orderId, Some(ticket.ticketId), FULFILLED, None,
                             Some(resultDigest), Some(run.quote), meta, Some(run.containment));
      var appended := ledger.Append(receipt);
      return if appended then Some(ChefResult(0, draftBytes, Some(resultDigest), receipt)) else None;
    }
    var receipt := Receipt(draw.receiptId, ticket.orderId, Some(ticket.ticketId), REJECTED, Some(EXECUTION_FAILED),
                           None, None, meta, Some(run.containment));
    var appended := ledger.Append(receipt);
    return if appended then Some(ChefResult(run.returncode, None, None, receipt)) else None;
  }
}
