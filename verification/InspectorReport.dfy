/** The inspector's report: the tally of a table and the findings drawn from it. */
module InspectorReport {
  import opened Wrappers
  import opened Json
  import opened Chain
  import opened InspectorChain

  // ---- what the report reads from a row ----

  const UNSPECIFIED := Text("UNSPECIFIED")

  predicate IsFulfilled(row: Fields) {
    Lookup(row, "status") == JStr("FULFILLED")
  }

  /** What Python takes for false. */
  predicate Falsy(j: Json) {
    match j
    case JNull => true
    case JBool(b) => !b
    case JInt(n) => n == 0
    case JStr(s) => s == ""
    case JList(items) => items == []
    case JObj(fields) => fields == map[]
  }

  /** A dictionary key. To Python a truth value is a number here. */
  datatype Key = Nothing | Number(n: int) | Text(s: string)

  /** Lists and objects cannot be keys. */
  function KeyOf(j: Json): Option<Key> {
    match j
    case JNull => Some(Nothing)
    case JBool(b) => Some(Number(if b then 1 else 0))
    case JInt(n) => Some(Number(n))
    case JStr(s) => Some(Text(s))
    case _ => None
  }

  /** The value with its truth values read as numbers: two values are equal to Python exactly when
      these are. */
  function Plain(j: Json): Json {
    match j
    case JBool(b) => JInt(if b then 1 else 0)
    case JList(items) => JList(seq(|items|, i requires 0 <= i < |items| => Plain(items[i])))
    case JObj(fields) => JObj(map k | k in fields :: Plain(fields[k]))
    case _ => j
  }

  /** `a == b` in Python, where true is 1 and false is 0, inside lists and objects too. */
  ghost predicate Same(a: Json, b: Json) {
    match (a, b)
    case (JNull, JNull) => true
    case (JBool(p), JBool(q)) => p == q
    case (JBool(p), JInt(n)) => n == if p then 1 else 0
    case (JInt(n), JBool(q)) => n == if q then 1 else 0
    case (JInt(m), JInt(n)) => m == n
    case (JStr(s), JStr(t)) => s == t
    case (JList(xs), JList(ys)) => |xs| == |ys| && forall i :: 0 <= i < |xs| ==> Same(xs[i], ys[i])
    case (JObj(f), JObj(g)) => f.Keys == g.Keys && forall k :: k in f.Keys && k in g.Keys ==> Same(f[k], g[k])
    case _ => false
  }

  /** Reading truth values as numbers identifies exactly what Python does. */
  lemma {:induction false} PlainMeans(a: Json, b: Json)
    ensures Plain(a) == Plain(b) <==> Same(a, b)
  {
    match (a, b)
    case (JList(xs), JList(ys)) =>
      if |xs| == |ys| {
        forall i | 0 <= i < |xs| ensures Plain(xs[i]) == Plain(ys[i]) <==> Same(xs[i], ys[i]) {
          PlainMeans(xs[i], ys[i]);
        }
        PlainLists(xs, ys);
      } else {
        assert |Plain(a).items| == |xs| && |Plain(b).items| == |ys|;
      }
    case (JObj(f), JObj(g)) =>
      forall k | k in f.Keys && k in g.Keys ensures Plain(f[k]) == Plain(g[k]) <==> Same(f[k], g[k]) {
        PlainMeans(f[k], g[k]);
      }
      PlainObjects(f, g);
    case _ =>
  }

  lemma PlainLists(xs: seq<Json>, ys: seq<Json>)
    requires |xs| == |ys|
    ensures Plain(JList(xs)) == Plain(JList(ys)) <==> forall i :: 0 <= i < |xs| ==> Plain(xs[i]) == Plain(ys[i])
  {
    var p, q := Plain(JList(xs)).items, Plain(JList(ys)).items;
    assert forall i :: 0 <= i < |xs| ==> p[i] == Plain(xs[i]) && q[i] == Plain(ys[i]);
  }

  lemma PlainObjects(f: Fields, g: Fields)
    ensures Plain(JObj(f)) == Plain(JObj(g))
       <==> f.Keys == g.Keys && forall k :: k in f.Keys && k in g.Keys ==> Plain(f[k]) == Plain(g[k])
  {
    var p, q := Plain(JObj(f)).fields, Plain(JObj(g)).fields;
    assert p.Keys == f.Keys && q.Keys == g.Keys;
    assert forall k :: k in f.Keys ==> p[k] == Plain(f[k]);
    assert forall k :: k in g.Keys ==> q[k] == Plain(g[k]);
  }

  /** Two values that can be keys are one key exactly when Python has them equal. */
  lemma KeysMean(a: Json, b: Json)
    ensures KeyOf(a).None? <==> a.JList? || a.JObj?
    ensures KeyOf(a).Some? && KeyOf(b).Some? ==> (KeyOf(a) == KeyOf(b) <==> Same(a, b))
  {
  }

  predicate IsLegacy(row: Fields) {
    !Lookup(row, "order_meta").JObj?
  }

  /** `row.get("reason_code") or "UNSPECIFIED"`. */
  function RawReason(row: Fields): Json {
    if Falsy(Lookup(row, "reason_code")) then JStr(UNSPECIFIED.s) else Lookup(row, "reason_code")
  }

  /** `meta.get("principal", "(unknown)")`. */
  function RawPrincipal(row: Fields): Json
    requires !IsLegacy(row)
  {
    var meta := Lookup(row, "order_meta").fields;
    if "principal" in meta then meta["principal"] else JStr("(unknown)")
  }

  /** A row the counting loop gets through: an object, whose reason, if it was rejected, and whose
      principal, if it names one, can be dictionary keys. */
  predicate Countable(v: Json) {
    && v.JObj?
    && (IsFulfilled(v.fields) || KeyOf(RawReason(v.fields)).Some?)
    && (IsLegacy(v.fields) || KeyOf(RawPrincipal(v.fields)).Some?)
  }

  function ReasonOf(row: Fields): Key {
    match KeyOf(RawReason(row)) case Some(key) => key case None => UNSPECIFIED
  }

  function PrincipalOf(row: Fields): Key
    requires !IsLegacy(row)
  {
    match KeyOf(RawPrincipal(row)) case Some(key) => key case None => Nothing
  }

  /** `meta.get("capability_id")`, of any kind; what is false to Python is not listed. */
  function CapabilityOf(row: Fields): Json
    requires !IsLegacy(row)
  {
    Plain(Lookup(Lookup(row, "order_meta").fields, "capability_id"))
  }

  predicate IsMock(row: Fields) {
    var a := Lookup(row, "attestation");
    a.JObj? && Lookup(a.fields, "mock") == JBool(true)
  }

  /** How a row is read, said of its stored keys. */
  lemma RowReads(row: Fields)
    ensures IsFulfilled(row) <==> "status" in row && row["status"] == JStr("FULFILLED")
    ensures IsLegacy(row) <==> !("order_meta" in row && row["order_meta"].JObj?)
    ensures IsMock(row) <==>
      "attestation" in row && row["attestation"].JObj? && "mock" in row["attestation"].fields
      && row["attestation"].fields["mock"] == JBool(true)
    ensures "reason_code" in row && row["reason_code"].JStr? && row["reason_code"].s != "" ==>
      ReasonOf(row) == Text(row["reason_code"].s)
    ensures "reason_code" !in row || row["reason_code"] in {JNull, JStr(""), JInt(0), JBool(false)} ==>
      ReasonOf(row) == Text("UNSPECIFIED")
    ensures "reason_code" in row && row["reason_code"] in {JList([]), JObj(map[])} ==>
      ReasonOf(row) == Text("UNSPECIFIED")
    ensures "reason_code" in row && row["reason_code"].JInt? && row["reason_code"].n != 0 ==>
      ReasonOf(row) == Number(row["reason_code"].n)
    ensures "reason_code" in row && row["reason_code"] == JBool(true) ==> ReasonOf(row) == Number(1)
    ensures !IsLegacy(row) ==>
      var meta := row["order_meta"].fields;
      && ("principal" !in meta ==> PrincipalOf(row) == Text("(unknown)"))
      && ("principal" in meta && meta["principal"].JStr? ==> PrincipalOf(row) == Text(meta["principal"].s))
      && ("principal" in meta && meta["principal"].JInt? ==> PrincipalOf(row) == Number(meta["principal"].n))
      && ("principal" in meta && meta["principal"].JNull? ==> PrincipalOf(row) == Nothing)
      && ("capability_id" in meta && meta["capability_id"].JStr? ==> CapabilityOf(row) == meta["capability_id"])
      && ("capability_id" !in meta ==> CapabilityOf(row) == JNull)
  {
  }

  /** The counting loop takes an object, unless it was not fulfilled for a reason that is a list or
      an object with something in it, or names a principal that is a list or an object. */
  lemma CountableMeans(v: Json)
    ensures Countable(v) <==>
      && v.JObj?
      && var row := v.fields;
      && (("status" in row && row["status"] == JStr("FULFILLED"))
          || !("reason_code" in row && ((row["reason_code"].JList? && row["reason_code"].items != [])
                                        || (row["reason_code"].JObj? && row["reason_code"].fields != map[]))))
      && ("order_meta" in row && row["order_meta"].JObj? && "principal" in row["order_meta"].fields ==>
            var name := row["order_meta"].fields["principal"]; !name.JList? && !name.JObj?)
  {
  }

  // ---- the tally ----

  datatype Principal = Principal(orders: nat, fulfilled: nat, rejected: nat, capabilities: seq<Json>)

  datatype Tally = Tally(
    fulfilled: nat,
    rejected: nat,
    byReason: map<Key, seq<int>>,
    byPrincipal: map<Key, Principal>,
    mock: nat,
    legacy: nat)

  datatype Row = Row(seqNo: int, fields: Fields)

  function PrincipalAfter(p: Principal, row: Fields): Principal
    requires !IsLegacy(row)
  {
    Principal(p.orders + 1,
              if IsFulfilled(row) then p.fulfilled + 1 else p.fulfilled,
              if IsFulfilled(row) then p.rejected else p.rejected + 1,
              if !Falsy(CapabilityOf(row)) && CapabilityOf(row) !in p.capabilities
              then p.capabilities + [CapabilityOf(row)] else p.capabilities)
  }

  function Reasons(m: map<Key, seq<int>>, reason: Key): seq<int> {
    if reason in m then m[reason] else []
  }

  function PrincipalIn(m: map<Key, Principal>, name: Key): Principal {
    if name in m then m[name] else Principal(0, 0, 0, [])
  }

  function TallyOf(rows: seq<Row>): Tally {
    if rows == [] then Tally(0, 0, map[], map[], 0, 0)
    else
      var t, row := TallyOf(rows[..|rows| - 1]), rows[|rows| - 1].fields;
      Tally(if IsFulfilled(row) then t.fulfilled + 1 else t.fulfilled,
            if IsFulfilled(row) then t.rejected else t.rejected + 1,
            if IsFulfilled(row) then t.byReason
            else t.byReason[ReasonOf(row) := Reasons(t.byReason, ReasonOf(row)) + [rows[|rows| - 1].seqNo]],
            if IsLegacy(row) then t.byPrincipal
            else t.byPrincipal[PrincipalOf(row) := PrincipalAfter(PrincipalIn(t.byPrincipal, PrincipalOf(row)), row)],
            if IsMock(row) then t.mock + 1 else t.mock,
            if IsLegacy(row) then t.legacy + 1 else t.legacy)
  }

  /** The counting loop of `build_report`. */
  method Count(rows: seq<Row>) returns (t: Tally)
    ensures t == TallyOf(rows)
  {
    hide IsFulfilled, ReasonOf, IsLegacy, IsMock;
    var fulfilled, rejected: nat := 0, 0;
    var byReason: map<Key, seq<int>> := map[];
    var byPrincipal: map<Key, Principal> := map[];
    var mockAttestations, legacyRows: nat := 0, 0;
    for i := 0 to |rows|
      invariant Tally(fulfilled, rejected, byReason, byPrincipal, mockAttestations, legacyRows) == TallyOf(rows[..i])
    {
      assert rows[..i + 1][..i] == rows[..i];
      var row := rows[i].fields;
      if IsFulfilled(row) {
        fulfilled := fulfilled + 1;
      } else {
        rejected := rejected + 1;
        byReason := byReason[ReasonOf(row) := Reasons(byReason, ReasonOf(row)) + [rows[i].seqNo]];
      }
      if IsMock(row) {
        mockAttestations := mockAttestations + 1;
      }
      if IsLegacy(row) {
        legacyRows := legacyRows + 1;
        continue;
      }
      var entry := PrincipalIn(byPrincipal, PrincipalOf(row));
      byPrincipal := byPrincipal[PrincipalOf(row) := PrincipalAfter(entry, row)];
    }
    assert rows[..|rows|] == rows;
    t := Tally(fulfilled, rejected, byReason, byPrincipal, mockAttestations, legacyRows);
  }

  // ---- sums over a report's dictionaries ----

  ghost function Total(m: map<Key, nat>): nat {
    if m == map[] then 0
    else
      var k :| k in m;
      m[k] + Total(m - {k})
  }

  lemma {:induction false} TotalSplits(m: map<Key, nat>, k: Key)
    requires k in m
    ensures Total(m) == m[k] + Total(m - {k})
    decreases |m|
  {
    var p :| p in m && Total(m) == m[p] + Total(m - {p});
    if p != k {
      var a, b := m - {p}, m - {k};
      TotalSplits(a, k);
      TotalSplits(b, p);
      assert a - {k} == b - {p};
    }
  }

  lemma TotalUpdate(m: map<Key, nat>, k: Key, n: nat)
    ensures Total(m[k := n]) == Total(m) - (if k in m then m[k] else 0) + n
  {
    TotalSplits(m[k := n], k);
    assert m[k := n] - {k} == m - {k};
    if k in m {
      TotalSplits(m, k);
    } else {
      assert m - {k} == m;
    }
  }

  /** `by_reason` as the report prints it. */
  function ReasonCounts(m: map<Key, seq<int>>): map<Key, nat> {
    map k | k in m :: |m[k]|
  }

  function OrderCounts(m: map<Key, Principal>): map<Key, nat> {
    map k | k in m :: m[k].orders
  }

  lemma CountsUpdate(m: map<Key, seq<int>>, k: Key, s: seq<int>)
    ensures ReasonCounts(m[k := s]) == ReasonCounts(m)[k := |s|]
  {
  }

  lemma OrdersUpdate(m: map<Key, Principal>, k: Key, p: Principal)
    ensures OrderCounts(m[k := p]) == OrderCounts(m)[k := p.orders]
  {
  }

  /** The report partitions the rows three ways: by verdict, by reason among the rejected, and by
      principal with the rows that carry no metadata set aside. */
  lemma {:induction false} TallyPartitions(rows: seq<Row>)
    ensures var t := TallyOf(rows);
      && t.fulfilled + t.rejected == |rows|
      && Total(ReasonCounts(t.byReason)) == t.rejected
      && Total(OrderCounts(t.byPrincipal)) + t.legacy == |rows|
  {
    hide IsFulfilled, ReasonOf, IsLegacy, IsMock, PrincipalOf, CapabilityOf, Total;
    if rows == [] {
      EmptyTotals();
    } else {
      var init, row := rows[..|rows| - 1], rows[|rows| - 1].fields;
      var t := TallyOf(init);
      TallyPartitions(init);
      if !IsFulfilled(row) {
        var seqs := Reasons(t.byReason, ReasonOf(row)) + [rows[|rows| - 1].seqNo];
        CountsUpdate(t.byReason, ReasonOf(row), seqs);
        TotalUpdate(ReasonCounts(t.byReason), ReasonOf(row), |seqs|);
      }
      if !IsLegacy(row) {
        var p := PrincipalAfter(PrincipalIn(t.byPrincipal, PrincipalOf(row)), row);
        OrdersUpdate(t.byPrincipal, PrincipalOf(row), p);
        TotalUpdate(OrderCounts(t.byPrincipal), PrincipalOf(row), p.orders);
      }
    }
  }

  /** FULFILLED rows. */
  function FulfilledRows(rows: seq<Row>): nat {
    if rows == [] then 0 else FulfilledRows(rows[..|rows| - 1]) + if IsFulfilled(rows[|rows| - 1].fields) then 1 else 0
  }

  /** The rows that name the principal, in order. */
  function Named(rows: seq<Row>, name: Key): seq<Row> {
    if rows == [] then []
    else
      var row := rows[|rows| - 1];
      Named(rows[..|rows| - 1], name) + if !IsLegacy(row.fields) && PrincipalOf(row.fields) == name then [row] else []
  }

  /** Row i names a principal and this capability. */
  predicate Names(rows: seq<Row>, i: int, cap: Json) {
    0 <= i < |rows| && !IsLegacy(rows[i].fields) && CapabilityOf(rows[i].fields) == cap
  }

  /** Some row names a principal and this capability. */
  ghost predicate NamedIn(rows: seq<Row>, cap: Json) {
    exists i :: Names(rows, i, cap)
  }

  predicate Listed(p: Principal, cap: Json) {
    cap in p.capabilities
  }

  /** One more row changes only the line of the principal it names. */
  lemma PrincipalStep(rows: seq<Row>, name: Key)
    requires rows != []
    ensures var before, row := PrincipalIn(TallyOf(rows[..|rows| - 1]).byPrincipal, name), rows[|rows| - 1].fields;
      PrincipalIn(TallyOf(rows).byPrincipal, name)
      == if !IsLegacy(row) && PrincipalOf(row) == name then PrincipalAfter(before, row) else before
  {
    hide IsFulfilled, ReasonOf, IsLegacy, IsMock, PrincipalOf, CapabilityOf;
  }

  lemma FulfilledAppend(rows: seq<Row>, row: Row)
    ensures FulfilledRows(rows + [row]) == FulfilledRows(rows) + if IsFulfilled(row.fields) then 1 else 0
  {
    hide IsFulfilled;
    assert (rows + [row])[..|rows|] == rows;
  }

  lemma NamedStep(rows: seq<Row>, name: Key)
    requires rows != []
    ensures var before, row := Named(rows[..|rows| - 1], name), rows[|rows| - 1];
      Named(rows, name)
      == if !IsLegacy(row.fields) && PrincipalOf(row.fields) == name then before + [row] else before
  {
    hide IsLegacy, PrincipalOf;
  }

  /** The counts of a principal's line match the rows it stands for. */
  predicate Counts(p: Principal, mine: seq<Row>) {
    p.orders == |mine| && p.fulfilled == FulfilledRows(mine) && p.rejected == |mine| - FulfilledRows(mine)
  }

  lemma CountsStep(p: Principal, mine: seq<Row>, row: Row)
    requires !IsLegacy(row.fields) && Counts(p, mine)
    ensures Counts(PrincipalAfter(p, row.fields), mine + [row])
  {
    hide IsFulfilled, IsLegacy, CapabilityOf, Falsy, FulfilledRows;
    FulfilledAppend(mine, row);
  }

  lemma {:induction false} PrincipalCounts(rows: seq<Row>, name: Key)
    ensures Counts(PrincipalIn(TallyOf(rows).byPrincipal, name), Named(rows, name))
  {
    hide IsLegacy, PrincipalOf, PrincipalAfter, TallyOf, Named, Counts;
    if rows == [] {
      EmptyTally();
      NothingNamed(name);
    } else {
      var init, row := rows[..|rows| - 1], rows[|rows| - 1];
      PrincipalCounts(init, name);
      PrincipalStep(rows, name);
      NamedStep(rows, name);
      if !IsLegacy(row.fields) && PrincipalOf(row.fields) == name {
        CountsStep(PrincipalIn(TallyOf(init).byPrincipal, name), Named(init, name), row);
      }
    }
  }

  lemma NothingNamed(name: Key)
    ensures Named([], name) == [] && Counts(Principal(0, 0, 0, []), [])
    ensures forall cap :: !NamedIn([], cap)
  {
  }

  lemma EmptyTally()
    ensures TallyOf([]) == Tally(0, 0, map[], map[], 0, 0)
  {
  }

  lemma {:induction false} PrincipalCapabilities(rows: seq<Row>, name: Key)
    ensures var p, mine := PrincipalIn(TallyOf(rows).byPrincipal, name), Named(rows, name);
      && (forall cap :: Listed(p, cap) <==> !Falsy(cap) && NamedIn(mine, cap))
      && forall i, j :: 0 <= i < j < |p.capabilities| ==> p.capabilities[i] != p.capabilities[j]
  {
    hide IsFulfilled, IsLegacy, PrincipalOf, CapabilityOf, TallyOf, Falsy, NamedIn, Named, Counts;
    if rows == [] {
      EmptyTally();
      NothingNamed(name);
    } else {
      var init, row := rows[..|rows| - 1], rows[|rows| - 1];
      PrincipalCapabilities(init, name);
      PrincipalStep(rows, name);
      NamedStep(rows, name);
      if !IsLegacy(row.fields) && PrincipalOf(row.fields) == name {
        var p, before := PrincipalIn(TallyOf(init).byPrincipal, name), Named(init, name);
        forall cap
          ensures Listed(PrincipalAfter(p, row.fields), cap) <==> !Falsy(cap) && NamedIn(before + [row], cap)
        {
          NamesStep(before, row, cap);
          assert Listed(p, cap) <==> !Falsy(cap) && NamedIn(before, cap);
        }
      }
    }
  }

  lemma NamesStep(rows: seq<Row>, row: Row, cap: Json)
    requires !IsLegacy(row.fields)
    ensures NamedIn(rows + [row], cap) <==> CapabilityOf(row.fields) == cap || NamedIn(rows, cap)
  {
    hide IsLegacy, CapabilityOf;
    var mine := rows + [row];
    if exists i :: Names(mine, i, cap) {
      var i :| Names(mine, i, cap);
      assert i < |rows| ==> Names(rows, i, cap);
    }
    if exists i :: Names(rows, i, cap) {
      var i :| Names(rows, i, cap);
      assert Names(mine, i, cap);
    }
    if CapabilityOf(row.fields) == cap {
      assert Names(mine, |rows|, cap);
    }
  }

  /** A principal's line counts that principal's rows, split by their verdict, and lists exactly
      the capabilities those rows name, each once. */
  lemma PrincipalMeans(rows: seq<Row>, name: Key)
    ensures var p, mine := PrincipalIn(TallyOf(rows).byPrincipal, name), Named(rows, name);
      && Counts(p, mine)
      && (forall cap :: Listed(p, cap) <==> !Falsy(cap) && NamedIn(mine, cap))
      && forall i, j :: 0 <= i < j < |p.capabilities| ==> p.capabilities[i] != p.capabilities[j]
  {
    hide TallyOf, Named, FulfilledRows, Names, Listed;
    PrincipalCounts(rows, name);
    PrincipalCapabilities(rows, name);
  }

  /** The fulfilled count is the number of FULFILLED rows. */
  lemma {:induction false} FulfilledMeans(rows: seq<Row>)
    ensures TallyOf(rows).fulfilled == FulfilledRows(rows)
  {
    hide IsFulfilled, ReasonOf, IsLegacy, IsMock, PrincipalOf, CapabilityOf;
    if rows != [] {
      FulfilledMeans(rows[..|rows| - 1]);
    }
  }

  lemma EmptyTotals()
    ensures Total(ReasonCounts(map[])) == 0 && Total(OrderCounts(map[])) == 0
  {
    assert ReasonCounts(map[]) == map[] && OrderCounts(map[]) == map[];
  }

  /** Row i was rejected for this reason. */
  predicate RejectedFor(rows: seq<Row>, i: int, reason: Key) {
    0 <= i < |rows| && !IsFulfilled(rows[i].fields) && ReasonOf(rows[i].fields) == reason
  }

  /** The seqs of the rows rejected for a reason, in the order of the rows. */
  function RejectedSeqs(rows: seq<Row>, reason: Key): seq<int> {
    if rows == [] then []
    else
      var row := rows[|rows| - 1];
      RejectedSeqs(rows[..|rows| - 1], reason)
      + if !IsFulfilled(row.fields) && ReasonOf(row.fields) == reason then [row.seqNo] else []
  }

  lemma {:induction false} ReasonsAre(rows: seq<Row>, reason: Key)
    ensures Reasons(TallyOf(rows).byReason, reason) == RejectedSeqs(rows, reason)
    ensures reason in TallyOf(rows).byReason <==> RejectedSeqs(rows, reason) != []
  {
    hide IsFulfilled, ReasonOf, IsLegacy, IsMock, PrincipalOf, CapabilityOf;
    if rows != [] {
      ReasonsAre(rows[..|rows| - 1], reason);
    }
  }

  lemma {:induction false} RejectedMean(rows: seq<Row>, reason: Key, seqNo: int)
    ensures seqNo in RejectedSeqs(rows, reason)
       <==> exists i :: RejectedFor(rows, i, reason) && rows[i].seqNo == seqNo
  {
    hide IsFulfilled, ReasonOf;
    if rows != [] {
      var n := |rows| - 1;
      var init := rows[..n];
      RejectedMean(init, reason, seqNo);
      if i :| RejectedFor(rows, i, reason) && rows[i].seqNo == seqNo {
        assert i < n ==> RejectedFor(init, i, reason) && init[i].seqNo == seqNo;
      }
      if i :| RejectedFor(init, i, reason) && init[i].seqNo == seqNo {
        assert RejectedFor(rows, i, reason) && rows[i].seqNo == seqNo;
      }
      if RejectedFor(rows, n, reason) && rows[n].seqNo == seqNo {
        assert RejectedSeqs(rows, reason) == RejectedSeqs(init, reason) + [seqNo];
      }
    }
  }

  /** The seqs filed under a reason are exactly those of the rows rejected for it. */
  lemma ReasonsMean(rows: seq<Row>, reason: Key, seqNo: int)
    ensures seqNo in Reasons(TallyOf(rows).byReason, reason)
       <==> exists i :: RejectedFor(rows, i, reason) && rows[i].seqNo == seqNo
  {
    hide Reasons, TallyOf, RejectedSeqs, RejectedFor;
    ReasonsAre(rows, reason);
    RejectedMean(rows, reason, seqNo);
  }

  // ---- findings ----

  datatype Severity = CRITICAL | HIGH | MEDIUM | LOW | INFO
  {
    function Rank(): nat {
      match this
      case CRITICAL => 0
      case HIGH => 1
      case MEDIUM => 2
      case LOW => 3
      case INFO => 4
    }
  }

  /** `about` is the reason the message is written for, if it is written for one. */
  datatype Finding = Finding(severity: Severity, code: string, about: Option<Key>, receipts: seq<int>)

  datatype Rule = Rule(reason: Key, severity: Severity, code: string)

  /** `REASON_RULES`, in the order of the table. */
  const RULES: seq<Rule> :=
    [Rule(Text("OFF_MENU"), HIGH, "OFF_MENU_ATTEMPTS"),
     Rule(Text("REPLAY"), HIGH, "REPLAY_ATTEMPTS"),
     Rule(Text("OUT_OF_SCOPE"), MEDIUM, "SCOPE_VIOLATIONS"),
     Rule(Text("ROLE_NOT_PERMITTED"), MEDIUM, "ROLE_VIOLATIONS"),
     Rule(Text("RATE_LIMITED"), LOW, "RATE_PRESSURE"),
     Rule(Text("EXECUTION_FAILED"), MEDIUM, "EXECUTION_FAILURES"),
     Rule(Text("CAPABILITY_PAUSED"), LOW, "PAUSED_CAPABILITY_HITS"),
     Rule(Text("USER_DENIED"), MEDIUM, "USER_DENIALS"),
     Rule(Text("USER_BLOCKED"), MEDIUM, "BLOCKED_CAPABILITY_HITS"),
     Rule(Text("MALFORMED_ORDER"), MEDIUM, "MALFORMED_INTAKE")]

  predicate HasRule(rules: seq<Rule>, reason: Key) {
    exists i :: 0 <= i < |rules| && rules[i].reason == reason
  }

  /** What one rule contributes. */
  function RuleFinding(r: Rule, byReason: map<Key, seq<int>>): seq<Finding> {
    if Reasons(byReason, r.reason) != []
    then [Finding(r.severity, r.code, Some(r.reason), Reasons(byReason, r.reason))] else []
  }

  function RuleFindings(rules: seq<Rule>, byReason: map<Key, seq<int>>): seq<Finding> {
    if rules == [] then []
    else
      RuleFinding(rules[0], byReason) + RuleFindings(rules[1..], byReason)
  }

  function UnknownFindings(reasons: seq<Key>, byReason: map<Key, seq<int>>): seq<Finding> {
    if reasons == [] then []
    else [Finding(MEDIUM, "UNRECOGNIZED_REASON", Some(reasons[0]), Reasons(byReason, reasons[0]))]
         + UnknownFindings(reasons[1..], byReason)
  }

  function UnknownReasons(byReason: map<Key, seq<int>>): set<Key> {
    set k | k in byReason && !HasRule(RULES, k) && k != UNSPECIFIED
  }

  /** The findings in the order they are collected. */
  function Collected(chain: Inspection, t: Tally): seq<Finding> {
    (if chain.BrokenAt? then [Finding(CRITICAL, "CHAIN_BROKEN", None, [chain.seqNo])] else [])
    + RuleFindings(RULES, t.byReason)
    + UnknownFindings(SortedOf(UnknownReasons(t.byReason)), t.byReason)
    + (if t.mock > 0 then [Finding(INFO, "ATTESTATION_IS_MOCK", None, [])] else [])
  }

  // ---- the order of keys ----

  /** Python's order within one kind of key; across kinds it has none, and any will do. */
  predicate Below(a: Key, b: Key) {
    match (a, b)
    case (Nothing, _) => true
    case (_, Nothing) => false
    case (Number(m), Number(n)) => m <= n
    case (Number(_), Text(_)) => true
    case (Text(_), Number(_)) => false
    case (Text(s), Text(t)) => TextLeq(s, t)
  }

  /** Two kinds of key that Python cannot compare: sorting them raises. */
  predicate Mixed(keys: set<Key>) {
    exists a, b :: a in keys && b in keys && Kind(a) != Kind(b)
  }

  function Kind(k: Key): nat {
    match k
    case Nothing => 0
    case Number(_) => 1
    case Text(_) => 2
  }

  lemma BelowTotal(a: Key, b: Key)
    ensures Below(a, b) || Below(b, a)
    ensures Below(a, b) && Below(b, a) ==> a == b
  {
    if a.Text? && b.Text? {
      TextLeqTotal(a.s, b.s);
    }
  }

  lemma BelowTransitive(a: Key, b: Key, c: Key)
    requires Below(a, b) && Below(b, c)
    ensures Below(a, c)
  {
    if a.Text? && b.Text? && c.Text? {
      TextLeqTransitive(a.s, b.s, c.s);
    }
  }

  predicate IsLeast(k: Key, keys: set<Key>) {
    k in keys && forall o :: o in keys ==> Below(k, o)
  }

  lemma {:induction false} LeastExists(keys: set<Key>)
    requires keys != {}
    ensures exists k :: IsLeast(k, keys)
    decreases keys
  {
    var p :| p in keys;
    BelowTotal(p, p);
    if keys == {p} {
      assert IsLeast(p, keys);
    } else {
      LeastExists(keys - {p});
      var q :| IsLeast(q, keys - {p});
      BelowTotal(p, q);
      var k := if Below(p, q) then p else q;
      forall o | o in keys ensures Below(k, o) {
        if o != p && k == p {
          BelowTransitive(p, q, o);
        }
      }
      assert IsLeast(k, keys);
    }
  }

  lemma LeastUnique(keys: set<Key>, a: Key, b: Key)
    requires IsLeast(a, keys) && IsLeast(b, keys)
    ensures a == b
  {
    BelowTotal(a, b);
  }

  function Least(keys: set<Key>): (k: Key)
    requires keys != {}
    ensures IsLeast(k, keys)
  {
    LeastExists(keys);
    assert exists k :: k in keys && IsLeast(k, keys) by {
      var k :| IsLeast(k, keys);
      assert k in keys;
    }
    assert forall a, b :: IsLeast(a, keys) && IsLeast(b, keys) ==> a == b by {
      forall a, b | IsLeast(a, keys) && IsLeast(b, keys) ensures a == b {
        LeastUnique(keys, a, b);
      }
    }
    var k :| k in keys && IsLeast(k, keys);
    k
  }

  /** `sorted(keys)`, for keys of one kind. */
  function SortedOf(keys: set<Key>): (ks: seq<Key>)
    decreases keys
  {
    if keys == {} then []
    else
      var k := Least(keys);
      [k] + SortedOf(keys - {k})
  }

  lemma {:induction false} SortedOfMeans(keys: set<Key>)
    ensures var ks := SortedOf(keys);
      && |ks| == |keys|
      && (forall k :: k in ks <==> k in keys)
      && (forall i, j :: 0 <= i < j < |ks| ==> Below(ks[i], ks[j]) && ks[i] != ks[j])
    decreases keys
  {
    hide Below;
    if keys != {} {
      var k := Least(keys);
      var rest := SortedOf(keys - {k});
      SortedOfMeans(keys - {k});
      forall j | 0 <= j < |rest| ensures Below(k, rest[j]) && k != rest[j] {
        assert rest[j] in keys - {k};
      }
    }
  }

  /** Numbers come out from the least to the greatest, texts in the order of their code points. */
  lemma SortedReads(keys: set<Key>, i: nat, j: nat)
    requires i < j < |SortedOf(keys)|
    ensures var a, b := SortedOf(keys)[i], SortedOf(keys)[j];
      (a.Number? && b.Number? ==> a.n < b.n) && (a.Text? && b.Text? ==> TextLeq(a.s, b.s) && a.s != b.s)
  {
    hide SortedOf;
    SortedOfMeans(keys);
    assert Below(SortedOf(keys)[i], SortedOf(keys)[j]);
  }

  /** Sorting the reasons or the principals raises exactly when they are not all numbers or all
      texts, and not all null. */
  lemma SortRaisesMeans(t: Tally)
    ensures SortRaises(t) <==> !OneKind(t.byReason.Keys) || !OneKind(t.byPrincipal.Keys)
  {
    MixedMeans(t.byReason.Keys);
    MixedMeans(t.byPrincipal.Keys);
  }

  predicate OneKind(keys: set<Key>) {
    || (forall k :: k in keys ==> k.Nothing?)
    || (forall k :: k in keys ==> k.Number?)
    || (forall k :: k in keys ==> k.Text?)
  }

  lemma MixedMeans(keys: set<Key>)
    ensures Mixed(keys) <==> !OneKind(keys)
  {
    if keys != {} && !Mixed(keys) {
      var k :| k in keys;
      forall o | o in keys ensures Kind(o) == Kind(k) {
      }
    }
  }

  // ---- the final sort ----

  /** `key=(severity_rank, code)`. */
  predicate KeyLeq(a: Finding, b: Finding) {
    a.severity.Rank() < b.severity.Rank() || (a.severity == b.severity && TextLeq(a.code, b.code))
  }

  /** Stable insertion. */
  function Insert(f: Finding, fs: seq<Finding>): seq<Finding> {
    if fs == [] || KeyLeq(f, fs[0]) then [f] + fs else [fs[0]] + Insert(f, fs[1..])
  }

  function Sorted(fs: seq<Finding>): seq<Finding> {
    if fs == [] then [] else Insert(fs[0], Sorted(fs[1..]))
  }

  predicate InOrder(fs: seq<Finding>) {
    forall i, j :: 0 <= i < j < |fs| ==> KeyLeq(fs[i], fs[j])
  }

  lemma KeyLeqOrder(a: Finding, b: Finding, c: Finding)
    ensures KeyLeq(a, b) || KeyLeq(b, a)
    ensures KeyLeq(a, b) && KeyLeq(b, c) ==> KeyLeq(a, c)
  {
    TextLeqTotal(a.code, b.code);
    if KeyLeq(a, b) && KeyLeq(b, c) && a.severity == b.severity == c.severity {
      TextLeqTransitive(a.code, b.code, c.code);
    }
  }

  lemma {:induction false} InsertInOrder(f: Finding, fs: seq<Finding>)
    requires InOrder(fs)
    ensures InOrder(Insert(f, fs))
    ensures multiset(Insert(f, fs)) == multiset([f] + fs)
  {
    hide KeyLeq;
    if fs == [] {
    } else if KeyLeq(f, fs[0]) {
      forall j | 0 <= j < |fs| ensures KeyLeq(f, fs[j]) {
        KeyLeqOrder(f, fs[0], fs[j]);
      }
    } else {
      var rest := fs[1..];
      InsertInOrder(f, rest);
      var out := Insert(f, rest);
      assert fs == [fs[0]] + rest;
      KeyLeqOrder(f, fs[0], f);
      forall j | 0 <= j < |out| ensures KeyLeq(fs[0], out[j]) {
        assert out[j] in multiset(out);
        if out[j] != f {
          assert out[j] in rest;
          var k :| 0 <= k < |rest| && rest[k] == out[j];
          assert fs[k + 1] == out[j];
        }
      }
    }
  }

  lemma {:induction false} SortedInOrder(fs: seq<Finding>)
    ensures InOrder(Sorted(fs))
    ensures multiset(Sorted(fs)) == multiset(fs)
  {
    hide KeyLeq;
    if fs != [] {
      SortedInOrder(fs[1..]);
      InsertInOrder(fs[0], Sorted(fs[1..]));
      assert fs == [fs[0]] + fs[1..];
    }
  }

  // ---- each rejected row is in one reason finding ----

  /** How many reason findings name this receipt. */
  function Mentions(fs: seq<Finding>, seqNo: int): nat {
    if fs == [] then 0
    else (if fs[0].about.Some? && seqNo in fs[0].receipts then 1 else 0) + Mentions(fs[1..], seqNo)
  }

  lemma {:induction false} MentionsAppend(a: seq<Finding>, b: seq<Finding>, seqNo: int)
    ensures Mentions(a + b, seqNo) == Mentions(a, seqNo) + Mentions(b, seqNo)
  {
    if a == [] {
      assert a + b == b;
    } else {
      assert (a + b)[1..] == a[1..] + b;
      MentionsAppend(a[1..], b, seqNo);
    }
  }

  lemma {:induction false} InsertMentions(f: Finding, fs: seq<Finding>, seqNo: int)
    ensures Mentions(Insert(f, fs), seqNo) == Mentions([f] + fs, seqNo)
  {
    hide KeyLeq;
    assert ([f] + fs)[1..] == fs;
    if fs != [] && !KeyLeq(f, fs[0]) {
      InsertMentions(f, fs[1..], seqNo);
      assert ([f] + fs[1..])[1..] == fs[1..];
      assert ([fs[0]] + Insert(f, fs[1..]))[1..] == Insert(f, fs[1..]);
    }
  }

  lemma {:induction false} SortedMentions(fs: seq<Finding>, seqNo: int)
    ensures Mentions(Sorted(fs), seqNo) == Mentions(fs, seqNo)
  {
    hide KeyLeq;
    if fs != [] {
      SortedMentions(fs[1..], seqNo);
      InsertMentions(fs[0], Sorted(fs[1..]), seqNo);
      assert ([fs[0]] + Sorted(fs[1..]))[1..] == Sorted(fs[1..]);
    }
  }

  /** A receipt filed under one reason only. */
  ghost predicate FiledUnder(byReason: map<Key, seq<int>>, seqNo: int, reason: Key) {
    forall r :: seqNo in Reasons(byReason, r) <==> r == reason
  }

  predicate DistinctReasons(rules: seq<Rule>) {
    forall i, j :: 0 <= i < j < |rules| ==> rules[i].reason != rules[j].reason
  }

  lemma {:induction false} RuleMentions(rules: seq<Rule>, byReason: map<Key, seq<int>>, seqNo: int, reason: Key)
    requires FiledUnder(byReason, seqNo, reason) && DistinctReasons(rules)
    ensures Mentions(RuleFindings(rules, byReason), seqNo) == if HasRule(rules, reason) then 1 else 0
  {
    if rules != [] {
      var rest := rules[1..];
      RuleMentions(rest, byReason, seqNo, reason);
      var r := rules[0];
      assert HasRule(rules, reason) <==> r.reason == reason || HasRule(rest, reason) by {
        if HasRule(rest, reason) {
          var i :| 0 <= i < |rest| && rest[i].reason == reason;
          assert rules[i + 1].reason == reason;
        }
      }
      assert r.reason == reason ==> !HasRule(rest, reason);
      assert seqNo in Reasons(byReason, r.reason) <==> r.reason == reason;
      var head := RuleFinding(r, byReason);
      MentionsAppend(head, RuleFindings(rest, byReason), seqNo);
      OneMention(head, seqNo);
    }
  }

  lemma OneMention(fs: seq<Finding>, seqNo: int)
    requires |fs| <= 1
    ensures Mentions(fs, seqNo) == if fs != [] && fs[0].about.Some? && seqNo in fs[0].receipts then 1 else 0
  {
    if fs != [] {
      assert fs[1..] == [];
    }
  }

  lemma {:induction false} UnknownMentions(reasons: seq<Key>, byReason: map<Key, seq<int>>, seqNo: int, reason: Key)
    requires FiledUnder(byReason, seqNo, reason)
    requires forall i, j :: 0 <= i < j < |reasons| ==> reasons[i] != reasons[j]
    ensures Mentions(UnknownFindings(reasons, byReason), seqNo) == if reason in reasons then 1 else 0
  {
    if reasons != [] {
      var rest := reasons[1..];
      UnknownMentions(rest, byReason, seqNo, reason);
      assert reasons == [reasons[0]] + rest;
      var head := [Finding(MEDIUM, "UNRECOGNIZED_REASON", Some(reasons[0]), Reasons(byReason, reasons[0]))];
      MentionsAppend(head, UnknownFindings(rest, byReason), seqNo);
      OneMention(head, seqNo);
    }
  }

  lemma RuleLengths()
    ensures |RULES| == 10 && forall i :: 0 <= i < 10 ==>
      RULES[i].reason.Text? && |RULES[i].reason.s| == [8, 6, 12, 18, 12, 16, 17, 11, 12, 15][i]
    ensures RULES[2].reason.s[1] == 'U' && RULES[4].reason.s[1] == 'A' && RULES[8].reason.s[1] == 'S'
    ensures RULES[7].reason.s[1] == 'S' && |UNSPECIFIED.s| == 11 && UNSPECIFIED.s[1] == 'N'
  {
  }

  lemma RulesDistinct()
    ensures DistinctReasons(RULES) && !HasRule(RULES, UNSPECIFIED)
  {
    hide RULES, UNSPECIFIED;
    RuleLengths();
  }

  lemma CollectedMentions(chain: Inspection, t: Tally, seqNo: int, reason: Key)
    requires FiledUnder(t.byReason, seqNo, reason)
    ensures Mentions(Collected(chain, t), seqNo) == if reason == UNSPECIFIED then 0 else 1
  {
    hide Mentions, RuleFindings, UnknownFindings, SortedOf, HasRule, DistinctReasons;
    var broken := if chain.BrokenAt? then [Finding(CRITICAL, "CHAIN_BROKEN", None, [chain.seqNo])] else [];
    var rules := RuleFindings(RULES, t.byReason);
    var unknown := SortedOf(UnknownReasons(t.byReason));
    var others := UnknownFindings(unknown, t.byReason);
    var mock := if t.mock > 0 then [Finding(INFO, "ATTESTATION_IS_MOCK", None, [])] else [];
    MentionsAppend(broken + rules + others, mock, seqNo);
    MentionsAppend(broken + rules, others, seqNo);
    MentionsAppend(broken, rules, seqNo);
    OneMention(broken, seqNo);
    OneMention(mock, seqNo);
    RulesDistinct();
    RuleMentions(RULES, t.byReason, seqNo, reason);
    SortedOfMeans(UnknownReasons(t.byReason));
    UnknownMentions(unknown, t.byReason, seqNo, reason);
    assert seqNo in Reasons(t.byReason, reason);
  }

  datatype Report = Report(
    total: nat, chain: Inspection, signaturesChecked: bool, tally: Tally, findings: seq<Finding>)

  predicate AllRows(rows: Table) {
    forall k :: 0 <= k < |rows| ==> IsRow(rows, k)
  }

  function RowsOf(rows: Table): seq<Row>
    requires AllRows(rows)
  {
    seq(|rows|, k requires 0 <= k < |rows| => assert IsRow(rows, k); Row(rows[k].seqNo, RowAt(rows, k)))
  }

  predicate DistinctSeqs(rows: Table) {
    forall i, j :: 0 <= i < j < |rows| ==> rows[i].seqNo != rows[j].seqNo
  }

  lemma RulesFrom(rules: seq<Rule>, byReason: map<Key, seq<int>>, i: nat)
    requires i < |rules|
    ensures RuleFindings(rules[i..], byReason)
         == RuleFinding(rules[i], byReason) + RuleFindings(rules[i + 1..], byReason)
  {
    hide Reasons;
    assert rules[i..][0] == rules[i] && rules[i..][1..] == rules[i + 1..];
  }

  lemma UnknownFrom(reasons: seq<Key>, byReason: map<Key, seq<int>>, i: nat)
    requires i < |reasons|
    ensures UnknownFindings(reasons[i..], byReason)
         == [Finding(MEDIUM, "UNRECOGNIZED_REASON", Some(reasons[i]), Reasons(byReason, reasons[i]))]
            + UnknownFindings(reasons[i + 1..], byReason)
  {
    hide Reasons;
    assert reasons[i..][0] == reasons[i] && reasons[i..][1..] == reasons[i + 1..];
  }

  lemma Regrouped(a: seq<Finding>, b: seq<Finding>, c: seq<Finding>)
    ensures a + (b + c) == (a + b) + c
  {
  }

  /** The loop over `REASON_RULES`. */
  method CollectKnown(rules: seq<Rule>, byReason: map<Key, seq<int>>) returns (findings: seq<Finding>)
    ensures findings == RuleFindings(rules, byReason)
  {
    hide RuleFindings, Reasons;
    findings := [];
    assert rules[0..] == rules;
    for i := 0 to |rules|
      invariant findings + RuleFindings(rules[i..], byReason) == RuleFindings(rules, byReason)
    {
      var r := rules[i];
      RulesFrom(rules, byReason, i);
      Regrouped(findings, RuleFinding(r, byReason), RuleFindings(rules[i + 1..], byReason));
      var seqs := Reasons(byReason, r.reason);
      if seqs != [] {
        findings := findings + [Finding(r.severity, r.code, Some(r.reason), seqs)];
      }
    }
    assert rules[|rules|..] == [];
    NothingLeft(byReason);
  }

  lemma NothingLeft(byReason: map<Key, seq<int>>)
    ensures RuleFindings([], byReason) == [] && UnknownFindings([], byReason) == []
  {
  }

  /** The loop over the reasons no rule knows. */
  method CollectUnknown(reasons: seq<Key>, byReason: map<Key, seq<int>>) returns (findings: seq<Finding>)
    ensures findings == UnknownFindings(reasons, byReason)
  {
    hide UnknownFindings, Reasons;
    findings := [];
    assert reasons[0..] == reasons;
    for i := 0 to |reasons|
      invariant findings + UnknownFindings(reasons[i..], byReason) == UnknownFindings(reasons, byReason)
    {
      var finding := Finding(MEDIUM, "UNRECOGNIZED_REASON", Some(reasons[i]), Reasons(byReason, reasons[i]));
      UnknownFrom(reasons, byReason, i);
      Regrouped(findings, [finding], UnknownFindings(reasons[i + 1..], byReason));
      findings := findings + [finding];
    }
    assert reasons[|reasons|..] == [];
    NothingLeft(byReason);
  }

  /** Every row gets through the counting loop. */
  predicate AllCountable(rows: Table)
    requires AllParsed(rows)
  {
    forall k :: 0 <= k < |rows| ==> Countable(rows[k].text.value)
  }

  lemma CountableIsRow(rows: Table, k: nat)
    requires k < |rows| && rows[k].text.Parsed? && Countable(rows[k].text.value)
    ensures IsRow(rows, k)
  {
  }

  lemma CountableAreRows(rows: Table)
    requires AllParsed(rows) && AllCountable(rows)
    ensures AllRows(rows)
  {
    hide Countable;
    forall k | 0 <= k < |rows| ensures IsRow(rows, k) {
      CountableIsRow(rows, k);
    }
  }

  /** The reasons or the principals of the tally cannot be sorted. */
  predicate SortRaises(t: Tally) {
    Mixed(t.byReason.Keys) || Mixed(t.byPrincipal.Keys)
  }

  /** `build_report`; `None` is the exception: from the chain check, from the counting loop, or from
      sorting keys of different kinds. */
  method BuildReport(c: Crypto, withKey: bool, rows: Table) returns (report: Option<Report>)
    requires AllParsed(rows)
    ensures report.Some? <==>
      && !InspectionOf(c, withKey, rows).Raised?
      && AllCountable(rows) && AllRows(rows) && !SortRaises(TallyOf(RowsOf(rows)))
    ensures report.Some? ==>
      report.value == Report.Report(|rows|, InspectionOf(c, withKey, rows), withKey, TallyOf(RowsOf(rows)),
                                    Sorted(Collected(InspectionOf(c, withKey, rows), TallyOf(RowsOf(rows)))))
  {
    hide InspectionOf, TallyOf, Sorted, SortedOf, RuleFindings, UnknownFindings, Countable, SortRaises;
    var chain := CheckChain(c, withKey, rows);
    if chain.Raised? {
      return None;
    }
    for i := 0 to |rows|
      invariant forall k :: 0 <= k < i ==> Countable(rows[k].text.value)
    {
      if !Countable(rows[i].text.value) {
        return None;
      }
    }
    CountableAreRows(rows);
    var tally := Count(RowsOf(rows));
    if SortRaises(tally) {
      return None;
    }
    var findings: seq<Finding> := [];
    if chain.BrokenAt? {
      findings := findings + [Finding(CRITICAL, "CHAIN_BROKEN", None, [chain.seqNo])];
    }
    assert findings == if chain.BrokenAt? then [Finding(CRITICAL, "CHAIN_BROKEN", None, [chain.seqNo])] else [];
    var known := CollectKnown(RULES, tally.byReason);
    var unknown := CollectUnknown(SortedOf(UnknownReasons(tally.byReason)), tally.byReason);
    findings := findings + known + unknown;
    if tally.mock > 0 {
      findings := findings + [Finding(INFO, "ATTESTATION_IS_MOCK", None, [])];
    }
    assert findings == Collected(chain, tally);
    report := Some(Report.Report(|rows|, chain, withKey, tally, Sorted(findings)));
  }

  /** Findings come out ordered by severity and code, and a rejected row with a reason is named
      by exactly one reason finding; without a reason, by none. */
  lemma FindingsPartition(rows: Table, chain: Inspection, k: nat)
    requires AllRows(rows) && DistinctSeqs(rows) && k < |rows| && !IsFulfilled(RowAt(rows, k))
    ensures var fs := Sorted(Collected(chain, TallyOf(RowsOf(rows))));
      && InOrder(fs)
      && Mentions(fs, rows[k].seqNo) == if ReasonOf(RowAt(rows, k)) == UNSPECIFIED then 0 else 1
  {
    hide TallyOf, Collected, Sorted, Mentions, InOrder, IsFulfilled, ReasonOf;
    var t, rs := TallyOf(RowsOf(rows)), RowsOf(rows);
    var seqNo, reason := rows[k].seqNo, ReasonOf(RowAt(rows, k));
    forall r ensures seqNo in Reasons(t.byReason, r) <==> r == reason {
      ReasonsMean(rs, r, seqNo);
      if r == reason {
        assert RejectedFor(rs, k, r) && rs[k].seqNo == seqNo;
      }
      if exists i :: RejectedFor(rs, i, r) && rs[i].seqNo == seqNo {
        var i :| RejectedFor(rs, i, r) && rs[i].seqNo == seqNo;
        assert i == k;
      }
    }
    CollectedMentions(chain, t, seqNo, reason);
    SortedMentions(Collected(chain, t), seqNo);
    SortedInOrder(Collected(chain, t));
  }

  // ---- what the findings say ----

  predicate MockAt(rows: seq<Row>, i: int) {
    0 <= i < |rows| && IsMock(rows[i].fields)
  }

  ghost predicate SomeMock(rows: seq<Row>) {
    exists i :: MockAt(rows, i)
  }

  lemma {:induction false} MockCount(rows: seq<Row>)
    ensures TallyOf(rows).mock > 0 <==> SomeMock(rows)
  {
    hide IsFulfilled, ReasonOf, IsLegacy, IsMock, PrincipalOf, CapabilityOf;
    if rows != [] {
      var n := |rows| - 1;
      var init := rows[..n];
      MockCount(init);
      if SomeMock(rows) {
        var i :| MockAt(rows, i);
        assert i < n ==> MockAt(init, i);
      }
      if SomeMock(init) {
        var i :| MockAt(init, i);
        assert MockAt(rows, i);
      }
      assert IsMock(rows[n].fields) ==> MockAt(rows, n);
    }
  }

  /** The severity and the code that go with a reason. */
  predicate RuledAs(reason: Key, severity: Severity, code: string) {
    if reason == Text("OFF_MENU") then severity == HIGH && code == "OFF_MENU_ATTEMPTS"
    else if reason == Text("REPLAY") then severity == HIGH && code == "REPLAY_ATTEMPTS"
    else if reason == Text("OUT_OF_SCOPE") then severity == MEDIUM && code == "SCOPE_VIOLATIONS"
    else if reason == Text("ROLE_NOT_PERMITTED") then severity == MEDIUM && code == "ROLE_VIOLATIONS"
    else if reason == Text("RATE_LIMITED") then severity == LOW && code == "RATE_PRESSURE"
    else if reason == Text("EXECUTION_FAILED") then severity == MEDIUM && code == "EXECUTION_FAILURES"
    else if reason == Text("CAPABILITY_PAUSED") then severity == LOW && code == "PAUSED_CAPABILITY_HITS"
    else if reason == Text("USER_DENIED") then severity == MEDIUM && code == "USER_DENIALS"
    else if reason == Text("USER_BLOCKED") then severity == MEDIUM && code == "BLOCKED_CAPABILITY_HITS"
    else if reason == Text("MALFORMED_ORDER") then severity == MEDIUM && code == "MALFORMED_INTAKE"
    else severity == MEDIUM && code == "UNRECOGNIZED_REASON"
  }

  lemma RulesRule(i: nat)
    requires i < |RULES|
    ensures RuledAs(RULES[i].reason, RULES[i].severity, RULES[i].code)
    ensures RULES[i].severity in {HIGH, MEDIUM, LOW}
    ensures RULES[i].code !in {"CHAIN_BROKEN", "ATTESTATION_IS_MOCK"}
  {
  }

  lemma UnruledIsUnrecognized(reason: Key)
    requires !HasRule(RULES, reason)
    ensures RuledAs(reason, MEDIUM, "UNRECOGNIZED_REASON")
  {
    assert RULES[0].reason == Text("OFF_MENU") && RULES[1].reason == Text("REPLAY");
    assert RULES[2].reason == Text("OUT_OF_SCOPE") && RULES[3].reason == Text("ROLE_NOT_PERMITTED");
    assert RULES[4].reason == Text("RATE_LIMITED") && RULES[5].reason == Text("EXECUTION_FAILED");
    assert RULES[6].reason == Text("CAPABILITY_PAUSED") && RULES[7].reason == Text("USER_DENIED");
    assert RULES[8].reason == Text("USER_BLOCKED") && RULES[9].reason == Text("MALFORMED_ORDER");
  }

  /** A reason finding as it should be, for this filing of the rejected rows. */
  predicate Files(f: Finding, byReason: map<Key, seq<int>>) {
    && f.about.Some? && f.about.value != UNSPECIFIED
    && RuledAs(f.about.value, f.severity, f.code)
    && f.receipts == Reasons(byReason, f.about.value) != []
    && f.severity in {HIGH, MEDIUM, LOW} && f.code !in {"CHAIN_BROKEN", "ATTESTATION_IS_MOCK"}
  }

  lemma {:induction false} RuleFindingsAre(n: nat, byReason: map<Key, seq<int>>, f: Finding)
    requires n <= |RULES| && f in RuleFindings(RULES[n..], byReason)
    ensures Files(f, byReason)
    decreases |RULES| - n
  {
    hide Reasons, RuledAs;
    if n < |RULES| {
      RulesFrom(RULES, byReason, n);
      RulesRule(n);
      RulesDistinct();
      assert RULES[n].reason != UNSPECIFIED;
      if f !in RuleFinding(RULES[n], byReason) {
        RuleFindingsAre(n + 1, byReason, f);
      }
    }
  }

  lemma {:induction false} UnknownFindingsAre(reasons: seq<Key>, byReason: map<Key, seq<int>>, f: Finding)
    requires f in UnknownFindings(reasons, byReason)
    requires forall k :: k in reasons ==> Reasons(byReason, k) != [] && !HasRule(RULES, k) && k != UNSPECIFIED
    ensures Files(f, byReason)
  {
    hide Reasons, RuledAs, HasRule;
    if reasons != [] {
      UnruledIsUnrecognized(reasons[0]);
      if f.about != Some(reasons[0]) {
        UnknownFindingsAre(reasons[1..], byReason, f);
      } else if f in UnknownFindings(reasons[1..], byReason) {
        UnknownFindingsAre(reasons[1..], byReason, f);
      }
    }
  }

  function ChainFinding(seqNo: int): Finding {
    Finding(CRITICAL, "CHAIN_BROKEN", None, [seqNo])
  }

  const MOCK_FINDING := Finding(INFO, "ATTESTATION_IS_MOCK", None, [])

  /** The findings about reasons, in the order they are collected. */
  function ReasonFindings(t: Tally): seq<Finding> {
    RuleFindings(RULES, t.byReason) + UnknownFindings(SortedOf(UnknownReasons(t.byReason)), t.byReason)
  }

  lemma ReasonFindingsFile(rows: seq<Row>, f: Finding)
    requires f in ReasonFindings(TallyOf(rows))
    ensures Files(f, TallyOf(rows).byReason)
  {
    hide Reasons, RuledAs, RuleFindings, UnknownFindings, SortedOf, TallyOf, HasRule, Files;
    var t := TallyOf(rows);
    var keys := SortedOf(UnknownReasons(t.byReason));
    SortedOfMeans(UnknownReasons(t.byReason));
    forall k | k in keys ensures Reasons(t.byReason, k) != [] && !HasRule(RULES, k) && k != UNSPECIFIED {
      assert k in UnknownReasons(t.byReason);
      ReasonsAre(rows, k);
    }
    if f in RuleFindings(RULES, t.byReason) {
      assert RULES[0..] == RULES;
      RuleFindingsAre(0, t.byReason, f);
    } else {
      UnknownFindingsAre(keys, t.byReason, f);
    }
  }

  /** Everything collected: the chain's finding, those about reasons, the mock's. */
  lemma CollectedIs(chain: Inspection, t: Tally)
    ensures Collected(chain, t) ==
      (if chain.BrokenAt? then [ChainFinding(chain.seqNo)] else [])
      + ReasonFindings(t)
      + (if t.mock > 0 then [MOCK_FINDING] else [])
  {
    hide RuleFindings, UnknownFindings, SortedOf, UnknownReasons;
  }

  lemma SortedHas(fs: seq<Finding>, f: Finding)
    ensures f in Sorted(fs) <==> f in fs
  {
    hide Sorted;
    SortedInOrder(fs);
    assert f in multiset(Sorted(fs)) <==> f in multiset(fs);
  }

  /** How often a finding stands in a list of findings about reasons: the two others never. */
  lemma {:induction false} NoneAmongFiled(fs: seq<Finding>, byReason: map<Key, seq<int>>, f: Finding)
    requires forall g :: g in fs ==> Files(g, byReason)
    requires f.about.None?
    ensures multiset(fs)[f] == 0
  {
    hide Files;
    if f in fs {
      FiledIsAbout(f, byReason);
    }
  }

  lemma FiledIsAbout(f: Finding, byReason: map<Key, seq<int>>)
    requires Files(f, byReason)
    ensures f.about.Some? && f.severity in {HIGH, MEDIUM, LOW} && f.code !in {"CHAIN_BROKEN", "ATTESTATION_IS_MOCK"}
  {
  }

  /** Each of the two findings about no reason is collected once, if at all. */
  lemma CollectedOnce(rows: seq<Row>, chain: Inspection)
    ensures var t := TallyOf(rows);
      && multiset(Collected(chain, t))[MOCK_FINDING] == (if t.mock > 0 then 1 else 0)
      && (chain.BrokenAt? ==> multiset(Collected(chain, t))[ChainFinding(chain.seqNo)] == 1)
  {
    hide ReasonFindings, TallyOf, Files, Collected;
    var t := TallyOf(rows);
    var middle := ReasonFindings(t);
    forall f | f in middle ensures Files(f, t.byReason) {
      ReasonFindingsFile(rows, f);
    }
    NoneAmongFiled(middle, t.byReason, MOCK_FINDING);
    var first := if chain.BrokenAt? then [ChainFinding(chain.seqNo)] else [];
    var last := if t.mock > 0 then [MOCK_FINDING] else [];
    CollectedIs(chain, t);
    assert multiset(first + middle + last) == multiset(first) + multiset(middle) + multiset(last);
    if chain.BrokenAt? {
      NoneAmongFiled(middle, t.byReason, ChainFinding(chain.seqNo));
    }
  }

  /** What any finding of a report is. */
  lemma FindingIs(rows: seq<Row>, chain: Inspection, f: Finding)
    requires f in Sorted(Collected(chain, TallyOf(rows)))
    ensures var t := TallyOf(rows);
      || (chain.BrokenAt? && f == ChainFinding(chain.seqNo))
      || Files(f, t.byReason)
      || (t.mock > 0 && f == MOCK_FINDING)
  {
    hide Sorted, Collected, TallyOf, ReasonFindings, Files;
    var t := TallyOf(rows);
    SortedHas(Collected(chain, t), f);
    CollectedIs(chain, t);
    if f in ReasonFindings(t) {
      ReasonFindingsFile(rows, f);
    }
  }

  lemma {:induction false} AtMostOnce(fs: seq<Finding>, i: nat, j: nat)
    requires i < j < |fs| && fs[i] == fs[j]
    ensures multiset(fs)[fs[i]] >= 2
  {
    var a, b := fs[..j], fs[j..];
    assert fs == a + b && a[i] == fs[i] && b[0] == fs[i];
    assert fs[i] in multiset(a) && fs[i] in multiset(b);
    assert multiset(fs) == multiset(a) + multiset(b);
  }

  /** A broken chain is reported, and only a broken one: one finding with that code, the first of
      all, critical, and naming the seq at which the chain breaks. */
  lemma BrokenChainComesFirst(rows: seq<Row>, chain: Inspection)
    ensures var fs := Sorted(Collected(chain, TallyOf(rows)));
      && (chain.BrokenAt? <==> exists i :: 0 <= i < |fs| && fs[i].code == "CHAIN_BROKEN")
      && (chain.BrokenAt? ==>
            |fs| > 0 && fs[0] == Finding(CRITICAL, "CHAIN_BROKEN", None, [chain.seqNo])
            && forall i :: 0 < i < |fs| ==> fs[i].code != "CHAIN_BROKEN")
  {
    hide Sorted, Collected, TallyOf, Files, ReasonFindings;
    var all := Collected(chain, TallyOf(rows));
    var fs := Sorted(all);
    SortedInOrder(all);
    forall i | 0 <= i < |fs|
      ensures fs[i].code == "CHAIN_BROKEN" || fs[i].severity == CRITICAL
              ==> chain.BrokenAt? && fs[i] == ChainFinding(chain.seqNo)
    {
      FindingIs(rows, chain, fs[i]);
      if Files(fs[i], TallyOf(rows).byReason) {
        FiledIsAbout(fs[i], TallyOf(rows).byReason);
      }
    }
    if chain.BrokenAt? {
      var f := ChainFinding(chain.seqNo);
      CollectedOnce(rows, chain);
      CollectedIs(chain, TallyOf(rows));
      SortedHas(all, f);
      var i :| 0 <= i < |fs| && fs[i] == f;
      assert i > 0 ==> KeyLeq(fs[0], fs[i]);
      assert fs[0].severity == CRITICAL;
      forall k | 0 < k < |fs| ensures fs[k].code != "CHAIN_BROKEN" {
        if fs[k].code == "CHAIN_BROKEN" {
          AtMostOnce(fs, 0, k);
        }
      }
    }
  }

  lemma MockCodeMeans(rows: seq<Row>, chain: Inspection, f: Finding)
    requires f in Sorted(Collected(chain, TallyOf(rows)))
    ensures f.code == "ATTESTATION_IS_MOCK" ==> TallyOf(rows).mock > 0 && f == MOCK_FINDING
  {
    hide Sorted, Collected, TallyOf, Files;
    FindingIs(rows, chain, f);
    if Files(f, TallyOf(rows).byReason) {
      FiledIsAbout(f, TallyOf(rows).byReason);
    }
  }

  lemma MockIsSorted(rows: seq<Row>, chain: Inspection)
    requires TallyOf(rows).mock > 0
    ensures MOCK_FINDING in Sorted(Collected(chain, TallyOf(rows)))
  {
    hide Sorted, Collected, TallyOf, ReasonFindings;
    CollectedIs(chain, TallyOf(rows));
    SortedHas(Collected(chain, TallyOf(rows)), MOCK_FINDING);
  }

  /** Mock attestations are reported exactly if some row carries one, and nothing but information
      comes after that. */
  lemma MockComesLast(rows: seq<Row>, chain: Inspection)
    ensures var fs := Sorted(Collected(chain, TallyOf(rows)));
      && (SomeMock(rows) <==> exists i :: 0 <= i < |fs| && fs[i].code == "ATTESTATION_IS_MOCK")
      && forall i, j :: 0 <= i <= j < |fs| && fs[i].code == "ATTESTATION_IS_MOCK" ==> fs[j].severity == INFO
  {
    hide Sorted, Collected, TallyOf, SomeMock, KeyLeq;
    var fs := Sorted(Collected(chain, TallyOf(rows)));
    MockCount(rows);
    if TallyOf(rows).mock > 0 {
      MockIsSorted(rows, chain);
      var i :| 0 <= i < |fs| && fs[i] == MOCK_FINDING;
    }
    forall i, j | 0 <= i <= j < |fs| && fs[i].code == "ATTESTATION_IS_MOCK" ensures fs[j].severity == INFO {
      MockCodeMeans(rows, chain, fs[i]);
      if i < j {
        HeaviestFirst(Collected(chain, TallyOf(rows)), i, j);
      }
    }
    if i :| 0 <= i < |fs| && fs[i].code == "ATTESTATION_IS_MOCK" {
      MockCodeMeans(rows, chain, fs[i]);
    }
  }

  /** A finding about a reason names exactly the rows rejected for it, in their order, and has that
      reason's severity and code; there is none about rows rejected without a reason. */
  lemma ReasonFindingExactly(rows: seq<Row>, chain: Inspection, i: nat)
    requires var fs := Sorted(Collected(chain, TallyOf(rows))); i < |fs| && fs[i].about.Some?
    ensures var f := Sorted(Collected(chain, TallyOf(rows)))[i];
      && RuledAs(f.about.value, f.severity, f.code)
      && f.receipts == RejectedSeqs(rows, f.about.value) != [] && f.about.value != Text("UNSPECIFIED")
  {
    hide Sorted, Collected, TallyOf, ReasonFindings, RuledAs;
    var f := Sorted(Collected(chain, TallyOf(rows)))[i];
    FindingIs(rows, chain, f);
    ReasonsAre(rows, f.about.value);
  }

  /** From heavier to lighter. */
  predicate NotLighter(a: Severity, b: Severity) {
    a == b || a == CRITICAL || b == INFO || (a == HIGH && b in {MEDIUM, LOW}) || (a == MEDIUM && b == LOW)
  }

  /** The findings stand from critical to information, and by code among equals. */
  lemma HeaviestFirst(fs: seq<Finding>, i: nat, j: nat)
    requires i < j < |Sorted(fs)|
    ensures NotLighter(Sorted(fs)[i].severity, Sorted(fs)[j].severity)
    ensures Sorted(fs)[i].severity == Sorted(fs)[j].severity ==> TextLeq(Sorted(fs)[i].code, Sorted(fs)[j].code)
  {
    hide Sorted;
    SortedInOrder(fs);
    assert KeyLeq(Sorted(fs)[i], Sorted(fs)[j]);
  }
}
