/** The inspector's own walk over the chain, and how far it agrees with the standalone verifier. */
module InspectorChain {
  import opened Wrappers
  import opened Json
  import opened Chain
  import opened Tamper
  import ReceiptLedger

  /** `(True, None, None)`, `(False, seq, reason)`, or an exception: a row that is no object has
      no `.items()`. */
  datatype Inspection = Valid | BrokenAt(seqNo: int, reason: Fault) | Raised

  /** The inspector is handed rows that `json.loads` could read, whatever they hold. */
  predicate AllParsed(rows: Table) {
    forall k :: 0 <= k < |rows| ==> rows[k].text.Parsed?
  }

  /** Without a public key the signature is not looked at. */
  function InspectRow(c: Crypto, withKey: bool, prev: string, row: Fields): Fault {
    var fault := FaultOfRow(c, prev, row);
    if !withKey && fault == BadSignature then Clean else fault
  }

  function InspectValue(c: Crypto, withKey: bool, prev: string, v: Json): Fault {
    if v.JObj? then InspectRow(c, withKey, prev, v.fields) else Uncaught
  }

  function InspectAt(c: Crypto, withKey: bool, rows: Table, k: nat): Fault
    requires AllParsed(rows) && k < |rows|
  {
    InspectValue(c, withKey, PrevAt(c, Receipts, rows, k), rows[k].text.value)
  }

  function Inspections(c: Crypto, withKey: bool, rows: Table): (fs: seq<Fault>)
    requires AllParsed(rows)
    ensures |fs| == |rows|
    ensures forall k :: 0 <= k < |rows| ==> fs[k] == InspectAt(c, withKey, rows, k)
  {
    seq(|rows|, k requires 0 <= k < |rows| => InspectAt(c, withKey, rows, k))
  }

  function Stopped(entry: Entry, fault: Fault): Inspection {
    if fault == Uncaught then Raised else BrokenAt(entry.seqNo, fault)
  }

  function InspectionOf(c: Crypto, withKey: bool, rows: Table): Inspection
    requires AllParsed(rows)
  {
    var faults := Inspections(c, withKey, rows);
    var f := FirstFault(faults);
    if f == |rows| then Valid else Stopped(rows[f], faults[f])
  }

  ghost predicate CleanSoFar(c: Crypto, withKey: bool, rows: Table, n: nat)
    requires AllParsed(rows)
  {
    n <= |rows| && forall k :: 0 <= k < n ==> InspectAt(c, withKey, rows, k) == Clean
  }

  lemma InspectionByFirstFault(c: Crypto, withKey: bool, rows: Table, f: nat)
    requires AllParsed(rows) && CleanSoFar(c, withKey, rows, f)
    requires f < |rows| ==> InspectAt(c, withKey, rows, f) != Clean
    ensures FirstFault(Inspections(c, withKey, rows)) == f
    ensures InspectionOf(c, withKey, rows)
         == if f == |rows| then Valid else Stopped(rows[f], InspectAt(c, withKey, rows, f))
  {
    hide InspectAt;
    var faults := Inspections(c, withKey, rows);
    var g := FirstFault(faults);
    assert f < |rows| ==> faults[f] != Clean;
    assert g < |rows| ==> faults[g] != Clean;
    assert !(f < g) && !(g < f);
  }

  lemma NextClean(c: Crypto, withKey: bool, rows: Table, k: nat)
    requires AllParsed(rows) && k < |rows| && CleanSoFar(c, withKey, rows, k) && InspectAt(c, withKey, rows, k) == Clean
    ensures CleanSoFar(c, withKey, rows, k + 1)
    ensures IsRow(rows, k)
    ensures "this_hash" in RowAt(rows, k) && RowAt(rows, k)["this_hash"] == JStr(Recomputed(c, RowAt(rows, k)))
    ensures PrevAt(c, Receipts, rows, k + 1) == RowAt(rows, k)["this_hash"].s
  {
    hide Canonical;
  }

  /** `check_chain`. */
  method CheckChain(c: Crypto, withKey: bool, rows: Table) returns (result: Inspection)
    requires AllParsed(rows)
    ensures result == InspectionOf(c, withKey, rows)
  {
    hide Canonical, InspectAt, PrevAt;
    var expectedPrev := Genesis(c, Receipts);
    FirstLink(c, rows);
    for k := 0 to |rows|
      invariant expectedPrev == PrevAt(c, Receipts, rows, k)
      invariant CleanSoFar(c, withKey, rows, k)
    {
      var fault := InspectOne(c, withKey, expectedPrev, rows[k].text.value);
      AtIs(c, withKey, rows, k);
      if fault != Clean {
        InspectionByFirstFault(c, withKey, rows, k);
        return Stopped(rows[k], fault);
      }
      NextClean(c, withKey, rows, k);
      expectedPrev := rows[k].text.value.fields["this_hash"].s;
    }
    InspectionByFirstFault(c, withKey, rows, |rows|);
    result := Valid;
  }

  lemma FirstLink(c: Crypto, rows: Table)
    ensures PrevAt(c, Receipts, rows, 0) == Genesis(c, Receipts)
  {
  }

  lemma AtIs(c: Crypto, withKey: bool, rows: Table, k: nat)
    requires AllParsed(rows) && k < |rows|
    ensures InspectAt(c, withKey, rows, k) == InspectValue(c, withKey, PrevAt(c, Receipts, rows, k), rows[k].text.value)
  {
  }

  /** One pass of the inspector's loop body; `Uncaught` is the exception it lets out. */
  method InspectOne(c: Crypto, withKey: bool, expectedPrev: string, v: Json) returns (fault: Fault)
    ensures fault == InspectValue(c, withKey, expectedPrev, v)
  {
    hide Canonical;
    if !v.JObj? {
      return Uncaught;
    }
    var row := v.fields;
    var recomputed := c.digest(Canonical(Hashed(row)));
    if JStr(recomputed) != Lookup(row, "this_hash") {
      return HashMismatch;
    }
    if Lookup(row, "prev_hash") != JStr(expectedPrev) {
      return PrevHashMismatch;
    }
    if withKey {
      var sig := Lookup(row, "sig");
      if !sig.JStr? || c.decode(sig.s).None? || !c.checks(c.decode(sig.s).value, recomputed) {
        return BadSignature;
      }
    }
    return Clean;
  }

  /** The row passes the verifier's key check. */
  predicate HasAllKeys(rows: Table, k: int) {
    0 <= k < |rows| && rows[k].text.Parsed? && CarriesAll(Receipts, rows[k].text.value)
  }

  /** Same verdict, same seq, same reason, or an exception in both. */
  predicate Agree(i: Inspection, v: Verdict) {
    match i
    case Valid => v.Verified?
    case BrokenAt(s, r) => v == Broken(s, r)
    case Raised => v.Crashed?
  }

  /** With a public key, the inspector and the verifier agree on a table of parsed rows, objects
      or not, if and only if every row up to the inspector's first fault passes the verifier's key
      check; a row that does not is `json_parse` to the verifier and never to the inspector. */
  lemma InspectorAgreesExactly(c: Crypto, rows: Table)
    requires AllParsed(rows)
    ensures Agree(InspectionOf(c, true, rows), VerdictOf(c, Domain.Receipts, rows))
       <==> var f := FirstFault(Inspections(c, true, rows));
            forall k :: 0 <= k < |rows| && k <= f ==> HasAllKeys(rows, k)
  {
    hide InspectAt, HasAllKeys, VerdictOf, InspectionOf, FaultAt;
    var faults := Inspections(c, true, rows);
    var f := FirstFault(faults);
    InspectionByFirstFault(c, true, rows, f);
    if exists k :: 0 <= k < |rows| && k <= f && !HasAllKeys(rows, k) {
      var k := FirstLacking(rows, 0);
      forall i | 0 <= i < k ensures FaultAt(c, Domain.Receipts, rows, i) == Clean {
        RowFaults(c, rows, i);
        assert faults[i] == Clean;
      }
      RowFaults(c, rows, k);
      VerdictByFirstFault(c, Domain.Receipts, rows, k);
      NeverJsonParse(c, rows, f);
    } else {
      forall i | 0 <= i < f ensures FaultAt(c, Domain.Receipts, rows, i) == Clean {
        RowFaults(c, rows, i);
        assert faults[i] == Clean;
      }
      if f < |rows| {
        RowFaults(c, rows, f);
        NeverJsonParse(c, rows, f);
      }
      VerdictByFirstFault(c, Domain.Receipts, rows, f);
    }
  }

  function FirstLacking(rows: Table, k: nat): (l: nat)
    requires k <= |rows|
    ensures k <= l <= |rows|
    ensures forall i :: k <= i < l ==> HasAllKeys(rows, i)
    ensures l < |rows| ==> !HasAllKeys(rows, l)
    decreases |rows| - k
  {
    if k == |rows| || !HasAllKeys(rows, k) then k else FirstLacking(rows, k + 1)
  }

  lemma RowFaults(c: Crypto, rows: Table, k: nat)
    requires AllParsed(rows) && k < |rows|
    ensures FaultAt(c, Domain.Receipts, rows, k)
         == if HasAllKeys(rows, k) then InspectAt(c, true, rows, k) else JsonParse
  {
    hide CarriesAll, FaultOfRow;
  }

  lemma NeverJsonParse(c: Crypto, rows: Table, k: nat)
    requires AllParsed(rows) && k <= |rows|
    ensures k < |rows| ==> InspectAt(c, true, rows, k) != JsonParse
  {
  }

  /** The inspector dies on an exception exactly when the first row that is not clean is no
      object. */
  lemma RaisesExactly(c: Crypto, withKey: bool, rows: Table)
    requires AllParsed(rows)
    ensures InspectionOf(c, withKey, rows).Raised?
       <==> exists k: nat :: k < |rows| && CleanSoFar(c, withKey, rows, k) && !rows[k].text.value.JObj?
  {
    var faults := Inspections(c, withKey, rows);
    var f := FirstFault(faults);
    assert CleanSoFar(c, withKey, rows, f);
    forall k: nat | k < |rows| ensures InspectAt(c, withKey, rows, k) == Uncaught <==> !rows[k].text.value.JObj? {
      ObjectsAreCaught(c, withKey, rows, k);
    }
    if k: nat :| k < |rows| && CleanSoFar(c, withKey, rows, k) && !rows[k].text.value.JObj? {
      InspectionByFirstFault(c, withKey, rows, k);
    }
  }

  lemma ObjectsAreCaught(c: Crypto, withKey: bool, rows: Table, k: nat)
    requires AllParsed(rows) && k < |rows|
    ensures InspectAt(c, withKey, rows, k) == Uncaught <==> !rows[k].text.value.JObj?
  {
    hide Canonical;
  }

  /** A table the verifier accepts is valid to the inspector, with or without a key. */
  lemma AcceptedIsValid(c: Crypto, withKey: bool, rows: Table)
    requires Accepted(c, Domain.Receipts, rows)
    ensures AllParsed(rows) && InspectionOf(c, withKey, rows) == Valid
  {
    hide InspectAt, FaultAt, InspectionOf, CarriesAll;
    forall k | 0 <= k < |rows| ensures rows[k].text.Parsed? {
      AcceptedIsRow(c, rows, k);
    }
    forall k | 0 <= k < |rows| ensures InspectAt(c, withKey, rows, k) == Clean {
      assert FaultAt(c, Domain.Receipts, rows, k) == Clean;
      RowFaults(c, rows, k);
      AtIs(c, true, rows, k);
      AtIs(c, withKey, rows, k);
    }
    InspectionByFirstFault(c, withKey, rows, |rows|);
  }

  lemma AcceptedIsRow(c: Crypto, rows: Table, k: nat)
    requires k < |rows| && Accepted(c, Domain.Receipts, rows)
    ensures IsRow(rows, k)
  {
    assert FaultAt(c, Domain.Receipts, rows, k) == Clean;
    CleanRow(c, Domain.Receipts, PrevAt(c, Domain.Receipts, rows, k), rows[k].text);
  }

  /** What the inspector finds wrong with a row, said of the row: the same three checks in the same
      order as the verifier's, the last one only with a key, and no key of its own required. */
  lemma InspectFaultExactly(c: Crypto, withKey: bool, prev: string, row: Fields)
    ensures var fault, hash := InspectValue(c, withKey, prev, JObj(row)),
                               c.digest(Canonical(JObj(row - {"this_hash", "sig"})));
      var hashed := "this_hash" in row && row["this_hash"] == JStr(hash);
      var linked := "prev_hash" in row && row["prev_hash"] == JStr(prev);
      var signed := "sig" in row && row["sig"].JStr?
                    && c.decode(row["sig"].s).Some? && c.checks(c.decode(row["sig"].s).value, hash);
      && (fault == HashMismatch <==> !hashed)
      && (fault == PrevHashMismatch <==> hashed && !linked)
      && (fault == BadSignature <==> hashed && linked && withKey && !signed)
      && (fault == Clean <==> hashed && linked && (withKey ==> signed))
  {
    hide Canonical;
  }

  // ---- appending ----

  /** A sealed row hashes and links as the inspector expects. */
  lemma SealedInspects(c: Crypto, body: Fields, prev: string)
    requires "this_hash" !in body && "sig" !in body
    ensures InspectRow(c, false, prev, Sealed(c, body, JStr(prev))) == Clean
  {
    hide Canonical;
    SealedHash(c, body, JStr(prev));
  }

  lemma InspectByPrefix(c: Crypto, withKey: bool, rows: Table, entry: Entry, k: nat)
    requires AllParsed(rows) && AllParsed(rows + [entry]) && k < |rows|
    ensures InspectAt(c, withKey, rows + [entry], k) == InspectAt(c, withKey, rows, k)
  {
    hide InspectRow;
    assert PrevAt(c, Receipts, rows + [entry], k) == PrevAt(c, Receipts, rows, k);
  }

  /** Appending a receipt changes nothing in the eyes of an inspector without a key: neither
      breaks a valid chain, nor mends a broken one, nor the exception. */
  lemma AppendInspects(c: Crypto, rows: Table, r: ReceiptLedger.Receipt)
    requires AllParsed(rows)
    ensures AllParsed(ReceiptLedger.Appended(c, rows, r))
    ensures InspectionOf(c, false, ReceiptLedger.Appended(c, rows, r)) == InspectionOf(c, false, rows)
  {
    hide InspectValue, InspectAt, InspectionOf, PrevAt, Sealed, HeadReadable, HeadLink;
    if HeadReadable(rows) {
      var entry := ReceiptLedger.ReceiptRow(c, rows, r);
      var rows', n := rows + [entry], |rows|;
      forall k: nat | k < n ensures InspectAt(c, false, rows', k) == InspectAt(c, false, rows, k) {
        InspectByPrefix(c, false, rows, entry, k);
      }
      var faults := Inspections(c, false, rows);
      var f := FirstFault(faults);
      assert f < n ==> InspectAt(c, false, rows, f) != Clean;
      InspectionByFirstFault(c, false, rows, f);
      if f == n {
        WholeChainLinks(c, rows);
        LastInspects(c, rows, r);
      }
      InspectionByFirstFault(c, false, rows', if f < n then f else n + 1);
    }
  }

  /** A chain that is whole to the inspector ends in a textual hash. */
  lemma WholeChainLinks(c: Crypto, rows: Table)
    requires AllParsed(rows) && CleanSoFar(c, false, rows, |rows|)
    ensures HeadReadable(rows) && HeadLink(c, Receipts, rows).JStr?
  {
    hide Canonical;
    if rows != [] {
      assert InspectAt(c, false, rows, |rows| - 1) == Clean;
    }
  }

  lemma LastInspects(c: Crypto, rows: Table, r: ReceiptLedger.Receipt)
    requires HeadReadable(rows) && HeadLink(c, Receipts, rows).JStr?
    requires AllParsed(rows) && AllParsed(ReceiptLedger.Appended(c, rows, r))
    ensures InspectAt(c, false, ReceiptLedger.Appended(c, rows, r), |rows|) == Clean
  {
    hide InspectRow, Sealed;
    var rows', prev := ReceiptLedger.Appended(c, rows, r), PrevAt(c, Receipts, rows, |rows|);
    LinkIsPrev(c, Receipts, rows);
    assert rows'[|rows|] == ReceiptLedger.ReceiptRow(c, rows, r);
    assert |rows| > 0 ==> rows'[|rows| - 1] == rows[|rows| - 1];
    assert PrevAt(c, Receipts, rows', |rows|) == prev;
    NoSealInBody(r);
    SealedInspects(c, r.Body(), prev);
  }

  /** A valid chain can be appended to. */
  lemma ValidIsReadable(c: Crypto, rows: Table)
    requires AllParsed(rows) && InspectionOf(c, false, rows).Valid?
    ensures HeadReadable(rows)
  {
    hide InspectAt;
    var f := FirstFault(Inspections(c, false, rows));
    assert CleanSoFar(c, false, rows, |rows|);
    WholeChainLinks(c, rows);
  }

  lemma NoSealInBody(r: ReceiptLedger.Receipt)
    ensures "this_hash" !in r.Body() && "sig" !in r.Body()
  {
  }

  // ---- where the two walks part ----

  /** A row that hashes, links and signs right, and carries nothing but that. */
  function BareRow(c: Crypto): Table {
    [Entry(1, Parsed(JObj(Sealed(c, map[], JStr(Genesis(c, Receipts))))))]
  }

  /** The smallest table on which inspector and verifier differ. */
  lemma BareRowDivides(c: Crypto)
    requires c.Lawful()
    ensures InspectionOf(c, true, BareRow(c)) == Valid
    ensures VerdictOf(c, Domain.Receipts, BareRow(c)) == Broken(1, JsonParse)
  {
    hide Canonical;
    var rows, prev := BareRow(c), Genesis(c, Receipts);
    var row := Sealed(c, map[], JStr(prev));
    SealedHash(c, map[], JStr(prev));
    var h := Recomputed(c, row);
    assert c.decode(c.encode(c.sign(h))) == Some(c.sign(h)) && c.checks(c.sign(h), h);
    assert InspectAt(c, true, rows, 0) == Clean;
    InspectionByFirstFault(c, true, rows, 1);
    assert row.Keys == {"prev_hash", "this_hash", "sig"};
    assert Receipts.Required()[0] == "receipt_id";
    CarriesAllMeans(Receipts, JObj(row));
    assert "receipt_id" in Receipts.Required() && !Carries(JObj(row), "receipt_id");
    assert FaultAt(c, Receipts, rows, 0) == JsonParse;
    VerdictByFirstFault(c, Receipts, rows, 0);
  }
}
