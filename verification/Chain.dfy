/** The hash chain shared by the receipt ledger and the policy history, and the standalone
    verifiers that walk it. The two verifiers are one algorithm over two domains that differ
    in their genesis seed and in the keys every row must carry. */
module Chain {
  import opened Wrappers
  import opened Json

  /** The primitives the source takes from its libraries. `digest` is the hex SHA-256 of a
      text, `sign` and `checks` are one Ed25519 key pair, `encode`, `decode` and `decodeStrict`
      are base64 with and without discarding foreign characters. */
  datatype Crypto = Crypto(
    digest: string -> string,
    sign: string -> string,
    checks: (string, string) -> bool,
    encode: string -> string,
    decode: string -> Option<string>,
    decodeStrict: string -> Option<string>)
  {
    /** What signing promises to verifying, and encoding to decoding (RFC 8032, sections 5.1.6
        and 5.1.7). Nothing is assumed about `digest`. */
    ghost predicate Lawful() {
      && (forall m: string :: checks(sign(m), m))
      && (forall m: string :: decode(encode(m)) == Some(m))
      && (forall m: string :: decodeStrict(encode(m)) == Some(m))
    }
  }

  const EXCLUDED: seq<string> := ["this_hash", "sig"]

  datatype Domain = Receipts | Policies
  {
    function Seed(): string {
      match this
      case Receipts => "GENESIS"
      case Policies => "POLICY-GENESIS"
    }

    function Required(): seq<string> {
      match this
      case Receipts =>
        ["receipt_id", "order_id", "ticket_id", "status", "reason_code", "result_digest", "attestation", "prev_hash"]
      case Policies =>
        ["version_id", "policies", "author", "reason", "status", "approved_by", "prev_hash"]
    }

    function AllKeys(): seq<string> {
      Required() + EXCLUDED
    }
  }

  /** What `json.loads` makes of a stored row. */
  datatype Stored = Unparseable | Parsed(value: Json)
  datatype Entry = Entry(seqNo: int, text: Stored)
  type Table = seq<Entry>

  datatype Fault = Clean | JsonParse | HashMismatch | PrevHashMismatch | BadSignature | Uncaught

  /** `OK verified=n`, `FAIL seq=s reason=r`, or an exception the verifier does not catch. */
  datatype Verdict = Verified(count: nat) | Broken(seqNo: int, reason: Fault) | Crashed(seqNo: int)

  // ---- one row ----

  /** Python's `part in whole` on strings. */
  predicate IsSubstring(part: string, whole: string) {
    part <= whole || (whole != "" && IsSubstring(part, whole[1..]))
  }

  /** Python's `key in parsed`, where that is defined. */
  predicate Carries(v: Json, key: string) {
    match v
    case JObj(fields) => key in fields
    case JList(items) => JStr(key) in items
    case JStr(s) => IsSubstring(key, s)
    case _ => false
  }

  predicate CarriesEach(v: Json, keys: seq<string>) {
    keys == [] || (Carries(v, keys[0]) && CarriesEach(v, keys[1..]))
  }

  predicate CarriesAll(dom: Domain, v: Json) {
    CarriesEach(v, dom.AllKeys())
  }

  lemma {:induction false} CarriesEachMeans(v: Json, keys: seq<string>)
    ensures CarriesEach(v, keys) <==> forall k :: k in keys ==> Carries(v, k)
  {
    if keys != [] {
      CarriesEachMeans(v, keys[1..]);
      assert forall k :: k in keys <==> k == keys[0] || k in keys[1..];
    }
  }

  lemma CarriesAllMeans(dom: Domain, v: Json)
    ensures CarriesAll(dom, v) <==> forall k :: k in dom.Required() || k in EXCLUDED ==> Carries(v, k)
  {
    CarriesEachMeans(v, dom.AllKeys());
    assert forall k :: k in dom.AllKeys() <==> k in dom.Required() || k in EXCLUDED;
  }

  function Hashed(row: Fields): Json {
    JObj(row - {"this_hash", "sig"})
  }

  datatype Readout = Content(content: Json) | MissingKey | NoItems

  /** A row that carries every key but is not an object has no `.items()`. */
  function ContentDictFromRow(dom: Domain, v: Json): Readout {
    if !CarriesAll(dom, v) then MissingKey
    else if v.JObj? then Content(Hashed(v.fields))
    else NoItems
  }

  predicate SignatureHolds(c: Crypto, sig: Json, message: string) {
    sig.JStr? && c.decode(sig.s).Some? && c.checks(c.decode(sig.s).value, message)
  }

  function Recomputed(c: Crypto, row: Fields): string {
    c.digest(Canonical(Hashed(row)))
  }

  // ---- where a table first goes wrong ----

  function Genesis(c: Crypto, dom: Domain): string {
    c.digest(dom.Seed())
  }

  predicate IsRow(rows: Table, k: int) {
    0 <= k < |rows| && rows[k].text.Parsed? && rows[k].text.value.JObj?
  }

  function RowAt(rows: Table, k: int): Fields
    requires IsRow(rows, k)
  {
    rows[k].text.value.fields
  }

  /** The link row k has to carry: the hash stored in the row before it. */
  function PrevAt(c: Crypto, dom: Domain, rows: Table, k: nat): string
    requires k <= |rows|
  {
    if k == 0 then Genesis(c, dom)
    else if IsRow(rows, k - 1) && "this_hash" in RowAt(rows, k - 1) && RowAt(rows, k - 1)["this_hash"].JStr?
    then RowAt(rows, k - 1)["this_hash"].s
    else ""
  }

  /** The head of the table can be linked to: it is the genesis, or a row that stores a hash. */
  predicate HeadReadable(rows: Table) {
    rows == [] || (IsRow(rows, |rows| - 1) && "this_hash" in RowAt(rows, |rows| - 1))
  }

  /** What `_head_hash` gives the next row to link to: whatever is stored there. */
  function HeadLink(c: Crypto, dom: Domain, rows: Table): Json
    requires HeadReadable(rows)
  {
    if rows == [] then JStr(Genesis(c, dom)) else RowAt(rows, |rows| - 1)["this_hash"]
  }

  /** A textual link is the one the verifier expects of the next row. */
  lemma LinkIsPrev(c: Crypto, dom: Domain, rows: Table)
    requires HeadReadable(rows) && HeadLink(c, dom, rows).JStr?
    ensures HeadLink(c, dom, rows) == JStr(PrevAt(c, dom, rows, |rows|))
  {
  }

  /** The first thing wrong with a stored row that has to link to `prev`, in the order the
      verifier looks. */
  function FaultOf(c: Crypto, dom: Domain, prev: string, text: Stored): Fault {
    if text.Unparseable? || !CarriesAll(dom, text.value) then JsonParse
    else if !text.value.JObj? then Uncaught
    else FaultOfRow(c, prev, text.value.fields)
  }

  function FaultOfRow(c: Crypto, prev: string, row: Fields): Fault {
    if Lookup(row, "this_hash") != JStr(Recomputed(c, row)) then HashMismatch
    else if Lookup(row, "prev_hash") != JStr(prev) then PrevHashMismatch
    else if !SignatureHolds(c, Lookup(row, "sig"), Recomputed(c, row)) then BadSignature
    else Clean
  }

  /** `row.get(key)`. */
  function Lookup(row: Fields, key: string): Json {
    if key in row then row[key] else JNull
  }

  function FaultAt(c: Crypto, dom: Domain, rows: Table, k: nat): Fault
    requires k < |rows|
  {
    FaultOf(c, dom, PrevAt(c, dom, rows, k), rows[k].text)
  }

  function Faults(c: Crypto, dom: Domain, rows: Table): (fs: seq<Fault>)
    ensures |fs| == |rows|
    ensures forall k :: 0 <= k < |rows| ==> fs[k] == FaultAt(c, dom, rows, k)
  {
    seq(|rows|, k requires 0 <= k < |rows| => FaultAt(c, dom, rows, k))
  }

  /** The index of the first entry that is not clean, or the length. */
  function FirstFault(faults: seq<Fault>): (f: nat)
    ensures f <= |faults|
    ensures forall i :: 0 <= i < f ==> faults[i] == Clean
    ensures f < |faults| ==> faults[f] != Clean
  {
    if faults == [] || faults[0] != Clean then 0 else 1 + FirstFault(faults[1..])
  }

  function VerdictOf(c: Crypto, dom: Domain, rows: Table): Verdict {
    var faults := Faults(c, dom, rows);
    var f := FirstFault(faults);
    if f == |rows| then Verified(|rows|)
    else if faults[f] == Uncaught then Crashed(rows[f].seqNo)
    else Broken(rows[f].seqNo, faults[f])
  }

  ghost predicate Accepted(c: Crypto, dom: Domain, rows: Table) {
    forall k :: 0 <= k < |rows| ==> FaultAt(c, dom, rows, k) == Clean
  }

  ghost predicate CleanBelow(c: Crypto, dom: Domain, rows: Table, n: nat) {
    n <= |rows| && forall i :: 0 <= i < n ==> FaultAt(c, dom, rows, i) == Clean
  }

  /** A table whose first fault is at f, or that has none. */
  ghost predicate FaultsFirstAt(c: Crypto, dom: Domain, rows: Table, f: nat) {
    && CleanBelow(c, dom, rows, f)
    && (f < |rows| ==> FaultAt(c, dom, rows, f) != Clean)
  }

  lemma VerdictByFirstFault(c: Crypto, dom: Domain, rows: Table, f: nat)
    requires FaultsFirstAt(c, dom, rows, f)
    ensures FirstFault(Faults(c, dom, rows)) == f
    ensures VerdictOf(c, dom, rows)
         == if f == |rows| then Verified(|rows|)
            else if FaultAt(c, dom, rows, f) == Uncaught then Crashed(rows[f].seqNo)
            else Broken(rows[f].seqNo, FaultAt(c, dom, rows, f))
  {
    var faults := Faults(c, dom, rows);
    var g := FirstFault(faults);
    assert f < |rows| ==> faults[f] != Clean;
    assert g < |rows| ==> faults[g] != Clean;
    assert !(f < g) && !(g < f);
  }

  /** The walk in both `main` functions. */
  method VerifyTable(c: Crypto, dom: Domain, rows: Table) returns (v: Verdict)
    ensures v == VerdictOf(c, dom, rows)
  {
    var expectedPrev := Genesis(c, dom);
    var count := 0;
    for i := 0 to |rows|
      invariant count == i
      invariant expectedPrev == PrevAt(c, dom, rows, i)
      invariant CleanBelow(c, dom, rows, i)
    {
      var fault := CheckRow(c, dom, expectedPrev, rows[i].text);
      if fault != Clean {
        VerdictByFirstFault(c, dom, rows, i);
        return if fault == Uncaught then Crashed(rows[i].seqNo) else Broken(rows[i].seqNo, fault);
      }
      NextLink(c, dom, rows, i);
      expectedPrev := rows[i].text.value.fields["this_hash"].s;
      count := count + 1;
    }
    VerdictByFirstFault(c, dom, rows, |rows|);
    v := Verified(count);
  }

  /** A fault depends on nothing after its row. */
  lemma FaultByPrefix(c: Crypto, dom: Domain, a: Table, b: Table, k: nat)
    requires k < |a| && k < |b| && a[k] == b[k] && (k > 0 ==> a[k - 1] == b[k - 1])
    ensures FaultAt(c, dom, a, k) == FaultAt(c, dom, b, k)
  {
    assert PrevAt(c, dom, a, k) == PrevAt(c, dom, b, k);
  }

  lemma NextLink(c: Crypto, dom: Domain, rows: Table, k: nat)
    requires k < |rows| && CleanBelow(c, dom, rows, k) && FaultAt(c, dom, rows, k) == Clean
    ensures CleanBelow(c, dom, rows, k + 1)
    ensures IsRow(rows, k) && "this_hash" in RowAt(rows, k) && RowAt(rows, k)["this_hash"].JStr?
    ensures PrevAt(c, dom, rows, k + 1) == RowAt(rows, k)["this_hash"].s == Recomputed(c, RowAt(rows, k))
  {
    CleanRow(c, dom, PrevAt(c, dom, rows, k), rows[k].text);
  }

  /** One pass of the loop body: the checks on a single row. */
  method CheckRow(c: Crypto, dom: Domain, expectedPrev: string, text: Stored) returns (fault: Fault)
    ensures fault == FaultOf(c, dom, expectedPrev, text)
  {
    if text.Unparseable? {
      return JsonParse;
    }
    match ContentDictFromRow(dom, text.value) {
      case MissingKey =>
        return JsonParse;
      case NoItems =>
        return Uncaught;
      case Content(content) =>
        var parsed := text.value.fields;
        var recomputed := c.digest(Canonical(content));
        if Lookup(parsed, "this_hash") != JStr(recomputed) {
          return HashMismatch;
        }
        if Lookup(parsed, "prev_hash") != JStr(expectedPrev) {
          return PrevHashMismatch;
        }
        var sig := Lookup(parsed, "sig");
        if !sig.JStr? || c.decode(sig.s).None? {
          return BadSignature;
        }
        if !c.checks(c.decode(sig.s).value, recomputed) {
          return BadSignature;
        }
        return Clean;
    }
  }

  /** What a clean row carries. */
  lemma CleanRow(c: Crypto, dom: Domain, prev: string, text: Stored)
    requires FaultOf(c, dom, prev, text) == Clean
    ensures text.Parsed? && text.value.JObj?
    ensures var row := text.value.fields;
      && CarriesAll(dom, text.value)
      && "this_hash" in row && row["this_hash"] == JStr(Recomputed(c, row))
      && "prev_hash" in row && row["prev_hash"] == JStr(prev)
      && "sig" in row && SignatureHolds(c, row["sig"], Recomputed(c, row))
  {
    CarriesAllMeans(dom, text.value);
    LinkRequired(dom);
    assert EXCLUDED[0] == "this_hash" && EXCLUDED[1] == "sig";
    assert Carries(text.value, "this_hash") && Carries(text.value, "prev_hash") && Carries(text.value, "sig");
  }

  lemma LinkRequired(dom: Domain)
    ensures "prev_hash" in dom.Required()
  {
    assert dom.Required()[|dom.Required()| - 1] == "prev_hash";
  }

  /** `OK verified=n` means: every row is readable, self-hashed, linked to its
      predecessor and signed, and n is the number of rows. */
  lemma VerifiedMeansAccepted(c: Crypto, dom: Domain, rows: Table)
    ensures VerdictOf(c, dom, rows).Verified? <==> Accepted(c, dom, rows)
    ensures VerdictOf(c, dom, rows).Verified? ==> VerdictOf(c, dom, rows).count == |rows|
  {
  }

  // ---- each fault, said of the stored row ----

  /** The two seeds and the keys each kind of row must carry. */
  lemma StoredForm(c: Crypto)
    ensures Genesis(c, Receipts) == c.digest("GENESIS") && Genesis(c, Policies) == c.digest("POLICY-GENESIS")
    ensures forall k :: k in Receipts.AllKeys() <==>
      k in {"receipt_id", "order_id", "ticket_id", "status", "reason_code", "result_digest", "attestation",
            "prev_hash", "this_hash", "sig"}
    ensures forall k :: k in Policies.AllKeys() <==>
      k in {"version_id", "policies", "author", "reason", "status", "approved_by", "prev_hash", "this_hash", "sig"}
  {
    ReceiptKeys();
    PolicyKeys();
  }

  lemma ReceiptKeys()
    ensures Receipts.AllKeys() ==
      ["receipt_id", "order_id", "ticket_id", "status", "reason_code", "result_digest", "attestation", "prev_hash",
       "this_hash", "sig"]
  {
  }

  lemma PolicyKeys()
    ensures Policies.AllKeys() ==
      ["version_id", "policies", "author", "reason", "status", "approved_by", "prev_hash", "this_hash", "sig"]
  {
  }

  /** One text stands somewhere in another. */
  lemma {:induction false} SubstringMeans(part: string, whole: string)
    ensures IsSubstring(part, whole) <==> exists i :: StandsAt(part, whole, i)
  {
    if part <= whole {
      assert StandsAt(part, whole, 0);
    } else if whole != "" {
      SubstringMeans(part, whole[1..]);
      if i :| StandsAt(part, whole[1..], i) {
        assert whole[i + 1..][..|part|] == whole[1..][i..][..|part|];
        assert StandsAt(part, whole, i + 1);
      }
      if i :| StandsAt(part, whole, i) {
        assert i > 0;
        assert whole[1..][i - 1..][..|part|] == whole[i..][..|part|];
        assert StandsAt(part, whole[1..], i - 1);
      }
    }
  }

  predicate StandsAt(part: string, whole: string, i: int) {
    0 <= i && i + |part| <= |whole| && whole[i..][..|part|] == part
  }

  /** A row that is no JSON, or lacks a key, is `json_parse`, and no other is. */
  lemma JsonParseExactly(c: Crypto, dom: Domain, prev: string, text: Stored)
    ensures FaultOf(c, dom, prev, text) == JsonParse
       <==> text.Unparseable? || exists key :: key in dom.AllKeys() && !Carries(text.value, key)
  {
    hide Canonical, Carries;
    if text.Parsed? {
      CarriesEachMeans(text.value, dom.AllKeys());
    }
  }

  /** For an object with all the keys, in the order of the checks: a stored hash other than that of
      the content it stands beside is `hash_mismatch` whatever else is wrong; with the right hash, a
      link other than the expected one is `prev_hash_mismatch`; with both right, anything in `sig`
      but the encoding of a signature over that hash is `bad_signature`; else the row is clean. */
  lemma RowFaultExactly(c: Crypto, dom: Domain, prev: string, row: Fields)
    requires forall key :: key in dom.AllKeys() ==> key in row
    ensures var fault, hash := FaultOf(c, dom, prev, Parsed(JObj(row))),
                               c.digest(Canonical(JObj(row - {"this_hash", "sig"})));
      var hashed := "this_hash" in row && row["this_hash"] == JStr(hash);
      var linked := "prev_hash" in row && row["prev_hash"] == JStr(prev);
      var signed := "sig" in row && row["sig"].JStr?
                    && c.decode(row["sig"].s).Some? && c.checks(c.decode(row["sig"].s).value, hash);
      && (fault == HashMismatch <==> !hashed)
      && (fault == PrevHashMismatch <==> hashed && !linked)
      && (fault == BadSignature <==> hashed && linked && !signed)
      && (fault == Clean <==> hashed && linked && signed)
  {
    hide Canonical;
    CarriesEachMeans(JObj(row), dom.AllKeys());
    LinkRequired(dom);
    assert dom.AllKeys()[|dom.AllKeys()| - 1] == "sig" && dom.AllKeys()[|dom.AllKeys()| - 2] == "this_hash";
    assert "prev_hash" in dom.AllKeys();
  }

  // ---- the rows that get past the key check and are no objects ----

  /** A row that every key check passes and that has no items: a list or a text holding all the
      key names. */
  ghost predicate KeysWithoutItems(dom: Domain, text: Stored) {
    && text.Parsed? && !text.value.JObj?
    && forall key :: key in dom.Required() || key in EXCLUDED ==> Carries(text.value, key)
  }

  lemma UncaughtExactly(c: Crypto, dom: Domain, prev: string, text: Stored)
    ensures FaultOf(c, dom, prev, text) == Uncaught <==> KeysWithoutItems(dom, text)
  {
    hide Canonical, Carries;
    if text.Parsed? {
      CarriesAllMeans(dom, text.value);
    }
  }

  /** Not every unreadable row is reported: the verifier dies on an exception exactly when the
      first row that is not clean carries every key name and is no object. */
  lemma CrashesExactly(c: Crypto, dom: Domain, rows: Table)
    ensures VerdictOf(c, dom, rows).Crashed?
       <==> exists k: nat :: k < |rows| && CleanBelow(c, dom, rows, k) && KeysWithoutItems(dom, rows[k].text)
  {
    hide FaultOf, KeysWithoutItems;
    var f := FirstFault(Faults(c, dom, rows));
    assert CleanBelow(c, dom, rows, f);
    forall k: nat | k < |rows|
      ensures FaultAt(c, dom, rows, k) == Uncaught <==> KeysWithoutItems(dom, rows[k].text)
    {
      UncaughtExactly(c, dom, PrevAt(c, dom, rows, k), rows[k].text);
    }
    if k: nat :| k < |rows| && CleanBelow(c, dom, rows, k) && KeysWithoutItems(dom, rows[k].text) {
      assert FaultAt(c, dom, rows, k) == Uncaught;
      VerdictByFirstFault(c, dom, rows, k);
    }
  }

  /** The names of the keys, as a list. */
  function KeyNames(dom: Domain): Json {
    JList(seq(|dom.AllKeys()|, i requires 0 <= i < |dom.AllKeys()| => JStr(dom.AllKeys()[i])))
  }

  /** Such a table: one row, the list of the key names. */
  lemma ListOfKeysCrashes(c: Crypto, dom: Domain, seqNo: int)
    ensures VerdictOf(c, dom, [Entry(seqNo, Parsed(KeyNames(dom)))]) == Crashed(seqNo)
  {
    var rows := [Entry(seqNo, Parsed(KeyNames(dom)))];
    var keys, names := dom.AllKeys(), KeyNames(dom);
    forall key | key in dom.Required() || key in EXCLUDED ensures Carries(names, key) {
      assert key in keys;
      var i :| 0 <= i < |keys| && keys[i] == key;
      assert names.items[i] == JStr(key);
    }
    assert KeysWithoutItems(dom, rows[0].text) && CleanBelow(c, dom, rows, 0);
    UncaughtExactly(c, dom, PrevAt(c, dom, rows, 0), rows[0].text);
    VerdictByFirstFault(c, dom, rows, 0);
  }
}
