/** The adversarial drill: a fixed probe suite fired through the real pipeline, whose verdict is
    an exact function of the deployed rate limit. */
module Drill {
  import opened Wrappers
  import opened Json
  import opened Chain
  import opened ReceiptLedger
  import opened Cashier
  import opened Kitchen
  import opened Loop
  import opened Pipeline
  import InspectorChain

  const FLOOD_CAP: int := 10

  const DRILL_CAPABILITY := "cap.email.draft_reply.v1"
  const INJECTED_CAPABILITY := "forward_inbox"
  const MANAGER := "account_manager"
  const INTERN := "intern"
  const KENJI := "user.kenji"
  const IMANI := "user.imani"
  const OWN_THREAD := KENJI + "/" + "t-001"
  const FOREIGN_THREAD := "user.victim" + "/" + "t-009"
  const ESCAPING_THREAD := KENJI + "/" + "../user.victim/secret"

  function ThreadArgs(thread: string): Json {
    JObj(map["thread_id" := JStr(thread)])
  }

  /** Probe order i: the control, the five single attacks, then the flood. `ids` are the fresh
      identifiers; the replay reuses the control's nonce. */
  function DrillOrder(ids: seq<string>, i: nat): Order
    requires i < |ids|
  {
    var ts := "2026-06-10T10:00:00+00:00";
    if i == 1 then
      Order(ids[1], KENJI, MANAGER, INJECTED_CAPABILITY, JObj(map["target" := JStr("attacker@evil.test")]), ids[1], ts)
    else if i == 2 then Order(ids[2], IMANI, INTERN, DRILL_CAPABILITY, ThreadArgs(OWN_THREAD), ids[2], ts)
    else if i == 3 then Order(ids[3], KENJI, MANAGER, DRILL_CAPABILITY, ThreadArgs(FOREIGN_THREAD), ids[3], ts)
    else if i == 4 then Order(ids[4], KENJI, MANAGER, DRILL_CAPABILITY, ThreadArgs(ESCAPING_THREAD), ids[4], ts)
    else Order(ids[i], KENJI, MANAGER, DRILL_CAPABILITY, ThreadArgs(OWN_THREAD), if i == 5 then ids[0] else ids[i], ts)
  }

  function DrillCalls(ids: seq<string>, draws: seq<Draw>, n: nat): (calls: seq<Call>)
    requires n <= |ids| && n <= |draws|
    ensures |calls| == n
    ensures forall i :: 0 <= i < n ==> calls[i] == Agent(DrillOrder(ids, i), draws[i])
  {
    seq(n, i requires 0 <= i < n => Agent(DrillOrder(ids, i), draws[i]))
  }

  /** The status or the reason of the receipt: `None` is FULFILLED. */
  function Observed(r: Receipt): Option<Reason> {
    if r.status == REJECTED then r.reason else None
  }

  /** What probe order i has to show; the flood is judged by its last order. */
  function Expected(i: nat): Option<Reason> {
    if i == 0 then None
    else if i == 1 then Some(OFF_MENU)
    else if i == 2 then Some(ROLE_NOT_PERMITTED)
    else if i == 3 || i == 4 then Some(OUT_OF_SCOPE)
    else if i == 5 then Some(REPLAY)
    else Some(RATE_LIMITED)
  }

  /** The probes, said outright: an ordinary order, an injected capability, an intern asking for a
      manager's, somebody else's thread, a thread that climbs out of the owner's directory, the first
      order's nonce again, and then the first order over and over with fresh nonces. */
  lemma ProbesAre(ids: seq<string>, i: nat)
    requires i < |ids|
    ensures var o := DrillOrder(ids, i);
      && o.orderId == ids[i] && o.nonce == (if i == 5 then ids[0] else ids[i])
      && o.principal == (if i == 2 then "user.imani" else "user.kenji")
      && o.role == (if i == 2 then "intern" else "account_manager")
      && o.capabilityId == (if i == 1 then "forward_inbox" else "cap.email.draft_reply.v1")
      && (i != 1 ==> o.args == JObj(map["thread_id" := JStr(
            if i == 3 then "user.victim/t-009"
            else if i == 4 then "user.kenji/../user.victim/secret" else "user.kenji/t-001")]))
  {
    hide OWN_THREAD, FOREIGN_THREAD, ESCAPING_THREAD;
    ThreadTexts();
  }

  lemma ThreadTexts()
    ensures OWN_THREAD == "user.kenji/t-001" && FOREIGN_THREAD == "user.victim/t-009"
    ensures ESCAPING_THREAD == "user.kenji/../user.victim/secret"
  {
  }

  function Min(a: int, b: int): int {
    if a < b then a else b
  }

  /** The report: one probe each for orders 0 to 5, one for the last flood order. */
  datatype Report = Report(observed: seq<Option<Reason>>, chainValid: bool)
  {
    predicate ControlFulfilled() {
      |observed| == 7 && observed[0] == Expected(0)
    }

    predicate AllResisted() {
      |observed| == 7 && forall i :: 1 <= i < 7 ==> observed[i] == Expected(i)
    }

    predicate Passed() {
      ControlFulfilled() && AllResisted() && chainValid
    }
  }

  /** A drill is passed when its seven probes show just this, and the chain is valid. */
  lemma PassedMeans(r: Report)
    ensures r.Passed() <==>
      r == Report([None, Some(OFF_MENU), Some(ROLE_NOT_PERMITTED), Some(OUT_OF_SCOPE), Some(OUT_OF_SCOPE),
                   Some(REPLAY), Some(RATE_LIMITED)], true)
  {
    if r.Passed() {
      forall i | 0 <= i < 7 ensures r.observed[i] == Expected(i) {
      }
    }
  }

  /** The receipt of probe order i in the run, if it leaves one. */
  function ReceiptAt(house: House, w: World, ids: seq<string>, draws: seq<Draw>, i: nat): Option<Receipt>
    requires i < |ids| && i < |draws|
  {
    ReceiptOf(house, Run(house, w, DrillCalls(ids, draws, i)), Agent(DrillOrder(ids, i), draws[i]))
  }

  /** Placing probe order i ends in an exception. */
  predicate RaisesAt(house: House, w: World, ids: seq<string>, draws: seq<Draw>, i: nat)
    requires i < |ids| && i < |draws|
  {
    ReceiptAt(house, w, ids, draws, i).None?
  }

  /** The first of n probe orders, from order i on, whose placing raises; n if none does. */
  function FirstRaise(house: House, w: World, ids: seq<string>, draws: seq<Draw>, i: nat, n: nat): (f: nat)
    requires i <= n <= |ids| && n <= |draws|
    ensures i <= f <= n
    ensures forall k: nat :: i <= k < f ==> !RaisesAt(house, w, ids, draws, k)
    ensures f < n ==> RaisesAt(house, w, ids, draws, f)
    decreases n - i
  {
    if i == n || RaisesAt(house, w, ids, draws, i) then i else FirstRaise(house, w, ids, draws, i + 1, n)
  }

  lemma NextCall(house: House, w: World, ids: seq<string>, draws: seq<Draw>, i: nat)
    requires i < |ids| && i < |draws|
    ensures Run(house, w, DrillCalls(ids, draws, i + 1))
         == Step(house, Run(house, w, DrillCalls(ids, draws, i)), Agent(DrillOrder(ids, i), draws[i]))
  {
    hide DrillOrder, Step;
    assert DrillCalls(ids, draws, i + 1)[..i] == DrillCalls(ids, draws, i);
  }

  /** What is noted for an order; only read for orders that left a receipt. */
  function Noted(r: Option<Receipt>): Option<Reason> {
    match r
    case Some(receipt) => Observed(receipt)
    case None => None
  }

  /** The report of a run of n probe orders, none of which raised. */
  function ReportOf(house: House, w: World, ids: seq<string>, draws: seq<Draw>, n: nat): Report
    requires 7 <= n <= |ids| && n <= |draws|
  {
    var rows := Run(house, w, DrillCalls(ids, draws, n)).rows;
    Report(seq(6, i requires 0 <= i < 6 => Noted(ReceiptAt(house, w, ids, draws, i)))
           + [Noted(ReceiptAt(house, w, ids, draws, n - 1))],
           InspectorChain.AllParsed(rows) && InspectorChain.InspectionOf(house.c, false, rows).Valid?)
  }

  /** The limit the drill reads from the deployed policy. */
  function DeployedLimit(house: House): Option<int> {
    match ForRole(house.policies, MANAGER)
    case None => None
    case Some(p) => Some(p.limit)
  }

  /** How many orders the drill places: none of the flood when it cannot start. */
  function DrillLength(limit: Option<int>): (n: nat)
    ensures 6 <= n <= 7 + FLOOD_CAP
    ensures n == 6 <==> limit.None? || limit.value < 0
  {
    if limit.Some? && limit.value >= 0 then 7 + Min(limit.value, FLOOD_CAP) else 6
  }

  /** The inspector's look at the table ends in an exception: on a row that is no JSON, or is no
      object where the chain is still whole. */
  predicate LookRaises(c: Crypto, rows: Table) {
    !InspectorChain.AllParsed(rows) || InspectorChain.InspectionOf(c, false, rows).Raised?
  }

  /** How many probe orders are placed: the one that raises is the last. */
  function DrillPlaced(house: House, w: World, ids: seq<string>, draws: seq<Draw>): (n: nat)
    requires |ids| == |draws| == 7 + FLOOD_CAP
    ensures n <= 7 + FLOOD_CAP
  {
    var n := DrillLength(DeployedLimit(house));
    var f := FirstRaise(house, w, ids, draws, 0, n);
    if f < n then f + 1 else n
  }

  /** The report, or `None` for a drill that dies. */
  function DrillResult(house: House, w: World, ids: seq<string>, draws: seq<Draw>): Option<Report>
    requires |ids| == |draws| == 7 + FLOOD_CAP
  {
    var n := DrillLength(DeployedLimit(house));
    if FirstRaise(house, w, ids, draws, 0, n) < n || n == 6 then None
    else if LookRaises(house.c, Run(house, w, DrillCalls(ids, draws, n)).rows) then None
    else Some(ReportOf(house, w, ids, draws, n))
  }

  /** When the drill dies: one of its orders ends in an exception, or no policy names the role, or
      the limit is negative and the flood empty, or the inspector cannot look at the table. The first
      of these covers the table whose head cannot be read (`DeadOnArrival`). */
  lemma DrillDiesExactly(house: House, w: World, ids: seq<string>, draws: seq<Draw>)
    requires |ids| == |draws| == 7 + FLOOD_CAP
    ensures var limit := DeployedLimit(house);
      DrillResult(house, w, ids, draws).None? <==>
        || limit.None? || limit.value < 0
        || (exists i: nat :: i < DrillLength(limit) && RaisesAt(house, w, ids, draws, i))
        || LookRaises(house.c, w.rows)
  {
    hide RaisesAt, Run, LookRaises;
    var n := DrillLength(DeployedLimit(house));
    LookUnchanged(house, w, DrillCalls(ids, draws, n));
    var f := FirstRaise(house, w, ids, draws, 0, n);
    assert f < n ==> RaisesAt(house, w, ids, draws, f);
  }

  /** The loop has come n probe orders far in a drill that started from w. */
  ghost predicate Reached(loop: SentinelLoop, w: World, ids: seq<string>, draws: seq<Draw>, n: nat)
    requires n <= |ids| && n <= |draws|
    reads loop, loop.store, loop.ledger
  {
    && loop.Ready()
    && World(loop.store.State(), loop.ledger.rows, map[]) == Run(loop.house, w, DrillCalls(ids, draws, n))
  }

  /** `run_drill` on a loop; `None` when it dies. */
  method RunDrill(loop: SentinelLoop, ids: seq<string>, draws: seq<Draw>) returns (report: Option<Report>)
    requires loop.Ready() && |ids| == |draws| == 7 + FLOOD_CAP
    modifies loop, loop.store, loop.ledger`rows
    ensures var w := World(old(loop.store.State()), old(loop.ledger.rows), map[]);
      && Reached(loop, w, ids, draws, DrillPlaced(loop.house, w, ids, draws))
      && report == DrillResult(loop.house, w, ids, draws)
  {
    hide ReceiptAt, RaisesAt, Run, ForRole, ReportOf, Reached, InspectorChain.AllParsed, InspectorChain.InspectionOf;
    var house := loop.house;
    ghost var w := World(loop.store.State(), loop.ledger.rows, map[]);
    AtFirst(loop, w, ids, draws);
    ghost var n := DrillLength(DeployedLimit(house));
    var probes := SixProbes(loop, ids, draws, w);
    if probes.None? {
      EarlyRaise(house, w, ids, draws, 6, n);
      return None;
    }
    var policy := ForRole(house.policies, MANAGER);
    if policy.None? {
      return None;
    }
    var lastOutcome := Flood(loop, ids, draws, w, policy.value.limit);
    LateRaise(house, w, ids, draws, n);
    if lastOutcome.None? {
      return None;
    }
    ReachedRows(loop, w, ids, draws, n);
    var parsed := ReadRows(loop.ledger.rows);
    if !parsed {
      return None;
    }
    var inspection := InspectorChain.CheckChain(house.c, false, loop.ledger.rows);
    if inspection.Raised? {
      return None;
    }
    var observed := probes.value + [Observed(lastOutcome.value)];
    ReportBuilt(house, w, ids, draws, n, observed);
    report := Some(Report(observed, inspection.Valid?));
  }

  /** `read_all_raw`: can every row be read? */
  method ReadRows(rows: Table) returns (parsed: bool)
    ensures parsed == InspectorChain.AllParsed(rows)
  {
    for k := 0 to |rows|
      invariant forall i :: 0 <= i < k ==> rows[i].text.Parsed?
    {
      if rows[k].text.Unparseable? {
        return false;
      }
    }
    parsed := true;
  }

  lemma AtFirst(loop: SentinelLoop, w: World, ids: seq<string>, draws: seq<Draw>)
    requires loop.Ready() && w == World(loop.store.State(), loop.ledger.rows, map[])
    ensures Reached(loop, w, ids, draws, 0)
  {
    StartOfRun(loop.house, w, ids, draws);
  }

  lemma ReachedRows(loop: SentinelLoop, w: World, ids: seq<string>, draws: seq<Draw>, n: nat)
    requires n <= |ids| && n <= |draws| && Reached(loop, w, ids, draws, n)
    ensures loop.ledger.rows == Run(loop.house, w, DrillCalls(ids, draws, n)).rows
  {
    hide Run;
  }

  /** A raise among the first m orders is the first raise of them all. */
  lemma EarlyRaise(house: House, w: World, ids: seq<string>, draws: seq<Draw>, m: nat, n: nat)
    requires m <= n <= |ids| && n <= |draws|
    requires FirstRaise(house, w, ids, draws, 0, m) < m
    ensures FirstRaise(house, w, ids, draws, 0, n) == FirstRaise(house, w, ids, draws, 0, m)
  {
    hide RaisesAt;
    var f, g := FirstRaise(house, w, ids, draws, 0, m), FirstRaise(house, w, ids, draws, 0, n);
    assert RaisesAt(house, w, ids, draws, f);
    assert g < n ==> RaisesAt(house, w, ids, draws, g);
    assert !(f < g) && !(g < f);
  }

  /** With the first six past, the first raise is the flood's. */
  lemma LateRaise(house: House, w: World, ids: seq<string>, draws: seq<Draw>, n: nat)
    requires 6 <= n <= |ids| && n <= |draws|
    requires FirstRaise(house, w, ids, draws, 0, 6) == 6
    ensures FirstRaise(house, w, ids, draws, 0, n) == FirstRaise(house, w, ids, draws, 6, n)
  {
    hide RaisesAt;
    var f, g := FirstRaise(house, w, ids, draws, 0, n), FirstRaise(house, w, ids, draws, 6, n);
    assert f < n ==> RaisesAt(house, w, ids, draws, f);
    assert g < n ==> RaisesAt(house, w, ids, draws, g);
    assert !(f < g) && !(g < f);
  }

  /** The control and the five single attacks; `None` when placing one of them raises. */
  method SixProbes(loop: SentinelLoop, ids: seq<string>, draws: seq<Draw>, ghost w: World)
    returns (probes: Option<seq<Option<Reason>>>)
    requires |ids| == |draws| == 7 + FLOOD_CAP && Reached(loop, w, ids, draws, 0)
    modifies loop, loop.store, loop.ledger`rows
    ensures var f := FirstRaise(loop.house, w, ids, draws, 0, 6);
      && (probes.Some? <==> f == 6)
      && Reached(loop, w, ids, draws, if f < 6 then f + 1 else 6)
      && (probes.Some? ==> |probes.value| == 6 && forall j: nat :: j < 6 ==>
            !RaisesAt(loop.house, w, ids, draws, j) && IsObserved(loop.house, w, ids, draws, j, probes.value[j]))
  {
    hide ReceiptAt, Observed, Run, Reached, RaisesAt, IsObserved;
    var control := Fire(loop, ids, draws, w, 0);
    if control.None? { RaiseIs(loop.house, w, ids, draws, 0, 6); return None; }
    var injection := Fire(loop, ids, draws, w, 1);
    if injection.None? { RaiseIs(loop.house, w, ids, draws, 1, 6); return None; }
    var escalation := Fire(loop, ids, draws, w, 2);
    if escalation.None? { RaiseIs(loop.house, w, ids, draws, 2, 6); return None; }
    var crossTenant := Fire(loop, ids, draws, w, 3);
    if crossTenant.None? { RaiseIs(loop.house, w, ids, draws, 3, 6); return None; }
    var traversal := Fire(loop, ids, draws, w, 4);
    if traversal.None? { RaiseIs(loop.house, w, ids, draws, 4, 6); return None; }
    var replay := Fire(loop, ids, draws, w, 5);
    if replay.None? { RaiseIs(loop.house, w, ids, draws, 5, 6); return None; }
    RaiseIs(loop.house, w, ids, draws, 6, 6);
    probes := Some([Observed(control.value), Observed(injection.value), Observed(escalation.value),
                    Observed(crossTenant.value), Observed(traversal.value), Observed(replay.value)]);
  }

  /** What the drill notes for an order is what its receipt shows. */
  predicate IsObserved(house: House, w: World, ids: seq<string>, draws: seq<Draw>, i: nat, note: Option<Reason>)
    requires i < |ids| && i < |draws|
  {
    ReceiptAt(house, w, ids, draws, i).Some? && note == Observed(ReceiptAt(house, w, ids, draws, i).value)
  }

  lemma RaiseIs(house: House, w: World, ids: seq<string>, draws: seq<Draw>, f: nat, n: nat)
    requires f <= n <= |ids| && n <= |draws|
    requires forall k: nat :: k < f ==> !RaisesAt(house, w, ids, draws, k)
    requires f < n ==> RaisesAt(house, w, ids, draws, f)
    ensures FirstRaise(house, w, ids, draws, 0, n) == f
  {
    hide RaisesAt;
    var g := FirstRaise(house, w, ids, draws, 0, n);
    assert g < n ==> RaisesAt(house, w, ids, draws, g);
    assert !(f < g) && !(g < f);
  }

  /** The flood: `min(limit, FLOOD_CAP) + 1` orders, of which only the last is looked at; `None`
      when there is no last one, or when placing one raises. */
  method Flood(loop: SentinelLoop, ids: seq<string>, draws: seq<Draw>, ghost w: World, limit: int)
    returns (last: Option<Receipt>)
    requires |ids| == |draws| == 7 + FLOOD_CAP && Reached(loop, w, ids, draws, 6)
    modifies loop, loop.store, loop.ledger`rows
    ensures var n := DrillLength(Some(limit));
      var f := FirstRaise(loop.house, w, ids, draws, 6, n);
      && Reached(loop, w, ids, draws, if f < n then f + 1 else n)
      && (last.Some? <==> f == n && limit >= 0)
      && (last.Some? ==> ReceiptAt(loop.house, w, ids, draws, n - 1) == last)
  {
    hide ReceiptAt, RaisesAt, Run, Reached;
    last := None;
    var k := 0;
    ghost var n := DrillLength(Some(limit));
    while k < Min(limit, FLOOD_CAP) + 1
      invariant 0 <= k <= FLOOD_CAP + 1 && (limit >= 0 ==> k <= Min(limit, FLOOD_CAP) + 1) && (limit < 0 ==> k == 0)
      invariant 6 + k <= n && Reached(loop, w, ids, draws, 6 + k)
      invariant forall i: nat :: 6 <= i < 6 + k ==> !RaisesAt(loop.house, w, ids, draws, i)
      invariant k == 0 ==> last.None?
      invariant k > 0 ==> last.Some? && ReceiptAt(loop.house, w, ids, draws, 5 + k) == last
    {
      var receipt := Fire(loop, ids, draws, w, 6 + k);
      if receipt.None? {
        FloodRaise(loop.house, w, ids, draws, 6 + k, n);
        return None;
      }
      last := receipt;
      k := k + 1;
    }
    FloodRaise(loop.house, w, ids, draws, n, n);
  }

  lemma FloodRaise(house: House, w: World, ids: seq<string>, draws: seq<Draw>, f: nat, n: nat)
    requires 6 <= f <= n <= |ids| && n <= |draws|
    requires forall k: nat :: 6 <= k < f ==> !RaisesAt(house, w, ids, draws, k)
    requires f < n ==> RaisesAt(house, w, ids, draws, f)
    ensures FirstRaise(house, w, ids, draws, 6, n) == f
  {
    hide RaisesAt;
    var g := FirstRaise(house, w, ids, draws, 6, n);
    assert g < n ==> RaisesAt(house, w, ids, draws, g);
    assert !(f < g) && !(g < f);
  }

  lemma ReportBuilt(house: House, w: World, ids: seq<string>, draws: seq<Draw>, n: nat, probes: seq<Option<Reason>>)
    requires 7 <= n <= |ids| && n <= |draws| && |probes| == 7
    requires forall i: nat :: i < n ==> !RaisesAt(house, w, ids, draws, i)
    requires InspectorChain.AllParsed(Run(house, w, DrillCalls(ids, draws, n)).rows)
    requires IsObserved(house, w, ids, draws, n - 1, probes[6])
    requires forall i: nat :: i < 6 ==> IsObserved(house, w, ids, draws, i, probes[i])
    ensures ReportOf(house, w, ids, draws, n)
         == Report(probes,
                   InspectorChain.InspectionOf(house.c, false, Run(house, w, DrillCalls(ids, draws, n)).rows).Valid?)
  {
    hide ReceiptAt, RaisesAt, Run, Observed, InspectorChain.AllParsed, InspectorChain.InspectionOf;
    forall i: nat | i < 6 ensures ReportOf(house, w, ids, draws, n).observed[i] == probes[i] {
      assert IsObserved(house, w, ids, draws, i, probes[i]);
    }
    assert ReportOf(house, w, ids, draws, n).observed == probes;
  }

  lemma StartOfRun(house: House, w: World, ids: seq<string>, draws: seq<Draw>)
    ensures Run(house, w, DrillCalls(ids, draws, 0)) == w
  {
  }

  /** On a table whose head cannot be read the drill dies at its first order and leaves no row. */
  lemma DeadOnArrival(house: House, w: World, ids: seq<string>, draws: seq<Draw>)
    requires |ids| == |draws| == 7 + FLOOD_CAP && !HeadReadable(w.rows)
    ensures DrillPlaced(house, w, ids, draws) == 1 && DrillResult(house, w, ids, draws).None?
    ensures Run(house, w, DrillCalls(ids, draws, 1)).rows == w.rows
  {
    hide HeadReadable, ReceiptDue, ForRole, ReportOf, LookRaises;
    StartOfRun(house, w, ids, draws);
    assert RaisesAt(house, w, ids, draws, 0);
    UnreadableHeadLosesAll(house, w, DrillCalls(ids, draws, 1));
  }

  /** Whatever the calls, the rows they add never change what the inspector makes of the table. */
  lemma {:induction false} RunInspects(house: House, w: World, calls: seq<Call>)
    requires InspectorChain.AllParsed(w.rows)
    ensures InspectorChain.AllParsed(Run(house, w, calls).rows)
    ensures InspectorChain.InspectionOf(house.c, false, Run(house, w, calls).rows)
         == InspectorChain.InspectionOf(house.c, false, w.rows)
  {
    hide Step, InspectorChain.AllParsed, InspectorChain.InspectionOf, ReceiptOf;
    if calls != [] {
      var n := |calls| - 1;
      var m := Run(house, w, calls[..n]);
      RunInspects(house, w, calls[..n]);
      StepAppends(house, m, calls[n]);
      if ReceiptOf(house, m, calls[n]).Some? {
        InspectorChain.AppendInspects(house.c, m.rows, ReceiptOf(house, m, calls[n]).value);
      }
    }
  }

  lemma {:induction false} RunKeepsRows(house: House, w: World, calls: seq<Call>)
    ensures w.rows <= Run(house, w, calls).rows
  {
    hide Step;
    if calls != [] {
      var n := |calls| - 1;
      RunKeepsRows(house, w, calls[..n]);
      StepAppends(house, Run(house, w, calls[..n]), calls[n]);
    }
  }

  lemma LookUnchanged(house: House, w: World, calls: seq<Call>)
    ensures LookRaises(house.c, Run(house, w, calls).rows) <==> LookRaises(house.c, w.rows)
  {
    hide Run, InspectorChain.InspectionOf;
    RunKeepsRows(house, w, calls);
    if InspectorChain.AllParsed(w.rows) {
      RunInspects(house, w, calls);
    } else {
      var k :| 0 <= k < |w.rows| && !w.rows[k].text.Parsed?;
      assert Run(house, w, calls).rows[k] == w.rows[k];
    }
  }

  /** Places probe order i and reads back its receipt; `None` is the exception. */
  method Fire(loop: SentinelLoop, ids: seq<string>, draws: seq<Draw>, ghost w: World, i: nat)
    returns (receipt: Option<Receipt>)
    requires i < |ids| && i < |draws| && Reached(loop, w, ids, draws, i)
    modifies loop, loop.store, loop.ledger`rows
    ensures Reached(loop, w, ids, draws, i + 1)
    ensures receipt == ReceiptAt(loop.house, w, ids, draws, i)
    ensures receipt.None? <==> RaisesAt(loop.house, w, ids, draws, i)
    ensures receipt.Some? ==> IsObserved(loop.house, w, ids, draws, i, Observed(receipt.value))
  {
    hide DrillOrder, Run, ProcessOutcome, ProcessStore, ReceiptRow, HeadReadable, HasNul, Observed;
    NextCall(loop.house, w, ids, draws, i);
    ghost var store := loop.store.State();
    NoReceiptExactly(loop.house, Run(loop.house, w, DrillCalls(ids, draws, i)), Agent(DrillOrder(ids, i), draws[i]));
    var outcome := loop.Place(DrillOrder(ids, i), draws[i]);
    if outcome.None? {
      return None;
    }
    if outcome.value.Ticketed? {
      TicketNamesOrder(loop.house, store, DrillOrder(ids, i), draws[i]);
    }
    receipt := Some(if outcome.value.Ticketed? then loop.lastChef.value.receipt else outcome.value.receipt);
  }

  // ---- the closed form ----

  const DRILL_KEY := RateKey(KENJI, DRILL_CAPABILITY)

  /** The deployment the drill is written for: the drill capability is on the menu, granted to the
      role and not paused, the injected one is off the menu, and interns are not granted it. */
  predicate Deployed(house: House, limit: int) {
    && DRILL_CAPABILITY in house.menu
    && house.menu[DRILL_CAPABILITY].scopedInput == "thread_id"
    && INJECTED_CAPABILITY !in house.menu
    && ForRole(house.policies, MANAGER).Some?
    && DRILL_CAPABILITY in ForRole(house.policies, MANAGER).value.allowed
    && DRILL_CAPABILITY !in ForRole(house.policies, MANAGER).value.paused
    && ForRole(house.policies, MANAGER).value.limit == limit
    && (ForRole(house.policies, INTERN).Some? ==> DRILL_CAPABILITY !in ForRole(house.policies, INTERN).value.allowed)
  }

  /** Fresh identifiers that can name a directory, a chef that succeeds, and a clock that moves by
      less than an hour. */
  predicate Calm(ids: seq<string>, draws: seq<Draw>) {
    && |ids| == |draws| == 7 + FLOOD_CAP
    && (forall i, j :: 0 <= i < j < |ids| ==> ids[i] != ids[j])
    && (forall i :: 0 <= i < |ids| ==> !HasNul(ids[i]))
    && (forall i :: 0 <= i < |draws| ==> Succeeded(draws[i].kitchen))
    && (forall i, j :: 0 <= i < |draws| && 0 <= j < |draws| ==>
          draws[i].checkTime - draws[j].acceptTime < RATE_WINDOW_SECONDS)
  }

  /** Accepts under the drill's key after its first i orders. */
  function AcceptsAfter(limit: nat, i: nat): nat {
    if i == 0 || limit == 0 then 0
    else if i <= 6 then 1
    else Min(limit, i - 5)
  }

  lemma ControlAppend(a: string, b: string)
    ensures HasControl(a + b) ==> HasControl(a) || HasControl(b)
  {
    if HasControl(a + b) {
      var i :| 0 <= i < |a + b| && IsControl((a + b)[i]);
      assert if i < |a| then IsControl(a[i]) else IsControl(b[i - |a|]);
    }
  }

  lemma PlainParts()
    ensures !HasControl(KENJI) && !HasControl("/") && !HasControl("t-001")
  {
  }

  lemma OwnThread()
    ensures InScope(KENJI, JStr(OWN_THREAD))
  {
    hide HasControl;
    SplitOfJoin(KENJI, "t-001");
    PlainParts();
    ControlAppend(KENJI, "/");
    ControlAppend(KENJI + "/", "t-001");
    assert OWN_THREAD[10] == '/';
  }

  lemma ForeignThread()
    ensures !InScope(KENJI, JStr(FOREIGN_THREAD))
  {
    SplitOfJoin("user.victim", "t-009");
    assert "user.victim"[5] != KENJI[5];
  }

  lemma EscapingThread()
    ensures !InScope(KENJI, JStr(ESCAPING_THREAD))
  {
    SplitOfJoin(KENJI, "../user.victim/secret");
    assert "../user.victim/secret"[2] == '/';
  }

  /** The cashier's verdict on probe order i, from a store that has spent exactly the nonces of
      the earlier orders and counts `count` accepts under the drill's key. */
  function DrillVerdict(limit: int, i: nat, count: int): Option<Reason> {
    if 1 <= i <= 5 then Expected(i)
    else if count >= limit then Some(RATE_LIMITED)
    else None
  }

  lemma Verdicts(house: House, store: StoreState, ids: seq<string>, i: nat, now: real, limit: int)
    requires Deployed(house, limit) && 5 < |ids| && i < |ids|
    requires DrillOrder(ids, i).nonce in store.spent <==> i == 5
    ensures var d := EvaluateOrder(DrillOrder(ids, i), house.menu, house.policies, store, now);
      match DrillVerdict(limit, i, RateCount(store.Stamps(DRILL_KEY), now))
      case None => d.Allow?
      case Some(reason) => d == Deny(reason)
  {
    hide InScope, ForRole, RateCount;
    OwnThread();
    ForeignThread();
    EscapingThread();
    var args := DrillOrder(ids, i).args;
    assert args.fields.Keys == if i == 1 then {"target"} else {"thread_id"};
    assert INJECTED_CAPABILITY[0] != DRILL_CAPABILITY[0];
  }

  lemma {:induction false} AllRecent(stamps: seq<real>, now: real)
    requires forall k :: 0 <= k < |stamps| ==> now - stamps[k] < RATE_WINDOW_SECONDS
    ensures RateCount(stamps, now) == |stamps|
  {
    if stamps != [] {
      AllRecent(stamps[..|stamps| - 1], now);
    }
  }

  /** Where the drill's own accepts stand after i orders. */
  ghost predicate OnTrack(house: House, w: World, draws: seq<Draw>, limit: nat, i: nat) {
    && |w.store.Stamps(DRILL_KEY)| == AcceptsAfter(limit, i)
    && forall k :: 0 <= k < |w.store.Stamps(DRILL_KEY)| ==>
         exists j :: 0 <= j < |draws| && w.store.Stamps(DRILL_KEY)[k] == draws[j].acceptTime
  }

  lemma NonceFresh(house: House, w: World, ids: seq<string>, draws: seq<Draw>, i: nat)
    requires Calm(ids, draws) && i < |ids| && w.store == EMPTY_STORE
    ensures var w' := Run(house, w, DrillCalls(ids, draws, i));
      DrillOrder(ids, i).nonce in w'.store.spent <==> i == 5
  {
    hide Run;
    var calls := DrillCalls(ids, draws, i);
    SpentAre(house, w, calls, DrillOrder(ids, i).nonce);
    forall j | 0 <= j < i ensures Presents(calls[j], DrillOrder(ids, i).nonce) <==> j == 0 && i == 5 {
      assert OrderIn(calls[j]) == Some(DrillOrder(ids, j));
    }
    assert i == 5 ==> Presents(calls[0], DrillOrder(ids, i).nonce);
  }

  /** One drill order: its outcome, and the count it leaves. */
  lemma DrillStep(house: House, w: World, ids: seq<string>, draws: seq<Draw>, limit: nat, i: nat)
    requires Deployed(house, limit) && Calm(ids, draws) && i < |ids|
    requires DrillOrder(ids, i).nonce in w.store.spent <==> i == 5
    requires OnTrack(house, w, draws, limit, i)
    ensures var call := Agent(DrillOrder(ids, i), draws[i]);
      && OnTrack(house, Step(house, w, call), draws, limit, i + 1)
      && (ReceiptOf(house, w, call).Some? <==> HeadReadable(w.rows))
      && (ReceiptOf(house, w, call).Some? ==>
            Observed(ReceiptOf(house, w, call).value) == DrillVerdict(limit, i, AcceptsAfter(limit, i)))
  {
    hide EvaluateOrder, DrillOrder, Canonical, Deployed, RateCount, ForRole, MintTicket, Appended, HasNul, HeadReadable;
    var stamps, now := w.store.Stamps(DRILL_KEY), draws[i].checkTime;
    forall k | 0 <= k < |stamps| ensures now - stamps[k] < RATE_WINDOW_SECONDS {
      var j :| 0 <= j < |draws| && stamps[k] == draws[j].acceptTime;
    }
    AllRecent(stamps, now);
    Verdicts(house, w.store, ids, i, now, limit);
    if i !in {1, 2} {
      KeyOfOrder(ids, i);
    }
    IdOfOrder(ids, i);
    if house.Outcome(w.store, DrillOrder(ids, i), draws[i]).Ticketed? {
      TicketNamesOrder(house, w.store, DrillOrder(ids, i), draws[i]);
    }
  }

  lemma KeyOfOrder(ids: seq<string>, i: nat)
    requires 5 < |ids| && i < |ids| && i !in {1, 2}
    ensures DrillOrder(ids, i).Key() == DRILL_KEY
  {
  }

  lemma IdOfOrder(ids: seq<string>, i: nat)
    requires i < |ids|
    ensures DrillOrder(ids, i).orderId == ids[i]
  {
  }

  lemma {:induction false} DrillRun(house: House, w: World, ids: seq<string>, draws: seq<Draw>, limit: nat, i: nat)
    requires Deployed(house, limit) && Calm(ids, draws) && w.store == EMPTY_STORE && i <= |ids|
    ensures OnTrack(house, Run(house, w, DrillCalls(ids, draws, i)), draws, limit, i)
    ensures i < |ids| ==> (RaisesAt(house, w, ids, draws, i) <==> !HeadReadable(w.rows))
    ensures i < |ids| && HeadReadable(w.rows) ==>
      Observed(ReceiptAt(house, w, ids, draws, i).value) == DrillVerdict(limit, i, AcceptsAfter(limit, i))
  {
    hide Deployed, Calm, OnTrack, Run, DrillOrder, Step, ReceiptOf, HeadReadable;
    if i < |ids| {
      SameLength(ids, draws);
      HeadKeeps(house, w, DrillCalls(ids, draws, i));
    }
    if i == 0 {
      StartOfRun(house, w, ids, draws);
      AtStart(house, w, draws, limit);
    } else {
      DrillRun(house, w, ids, draws, limit, i - 1);
      SameLength(ids, draws);
      NextCall(house, w, ids, draws, i - 1);
      NonceFresh(house, w, ids, draws, i - 1);
      DrillStep(house, Run(house, w, DrillCalls(ids, draws, i - 1)), ids, draws, limit, i - 1);
    }
    if i < |ids| {
      SameLength(ids, draws);
      NonceFresh(house, w, ids, draws, i);
      DrillStep(house, Run(house, w, DrillCalls(ids, draws, i)), ids, draws, limit, i);
    }
  }

  lemma AtStart(house: House, w: World, draws: seq<Draw>, limit: nat)
    requires w.store == EMPTY_STORE
    ensures OnTrack(house, w, draws, limit, 0)
  {
  }

  lemma SameLength(ids: seq<string>, draws: seq<Draw>)
    requires Calm(ids, draws)
    ensures |ids| == |draws| == 7 + FLOOD_CAP
  {
  }

  /** The drill's verdict as a function of the deployed limit and the table it is run on: it
      reports a pass if and only if the limit is between 1 and 11 and the inspector finds the chain
      valid. It leaves 7 + min(limit, 10) rows on a table that can be appended to, and none on any
      other. A limit of 11 still trips, because the control order spent one slot. */
  lemma DrillPassesExactly(house: House, w: World, ids: seq<string>, draws: seq<Draw>, limit: nat)
    requires Deployed(house, limit) && Calm(ids, draws) && w.store == EMPTY_STORE
    ensures var result := DrillResult(house, w, ids, draws);
      (result.Some? && result.value.Passed())
      <==> 1 <= limit <= 11
           && InspectorChain.AllParsed(w.rows) && InspectorChain.InspectionOf(house.c, false, w.rows).Valid?
    ensures var n := DrillPlaced(house, w, ids, draws);
      if HeadReadable(w.rows)
      then n == 7 + (if limit < 10 then limit else 10)
           && |Run(house, w, DrillCalls(ids, draws, n)).rows| == |w.rows| + n
      else n == 1 && Run(house, w, DrillCalls(ids, draws, n)).rows == w.rows
  {
    hide Deployed, Calm, Run, DrillResult, DrillPlaced, HeadReadable;
    hide InspectorChain.AllParsed, InspectorChain.InspectionOf;
    SameLength(ids, draws);
    if HeadReadable(w.rows) {
      DrillOnReadable(house, w, ids, draws, limit);
    } else {
      DeadOnArrival(house, w, ids, draws);
      if InspectorChain.AllParsed(w.rows) && InspectorChain.InspectionOf(house.c, false, w.rows).Valid? {
        InspectorChain.ValidIsReadable(house.c, w.rows);
      }
    }
  }

  lemma DrillOnReadable(house: House, w: World, ids: seq<string>, draws: seq<Draw>, limit: nat)
    requires Deployed(house, limit) && Calm(ids, draws) && w.store == EMPTY_STORE && HeadReadable(w.rows)
    ensures |ids| == |draws| == 7 + FLOOD_CAP
    ensures var result := DrillResult(house, w, ids, draws);
      (result.Some? && result.value.Passed())
      <==> 1 <= limit <= FLOOD_CAP + 1
           && InspectorChain.AllParsed(w.rows) && InspectorChain.InspectionOf(house.c, false, w.rows).Valid?
    ensures var n := DrillPlaced(house, w, ids, draws);
      n == 7 + Min(limit, FLOOD_CAP) && |Run(house, w, DrillCalls(ids, draws, n)).rows| == |w.rows| + n
  {
    hide Deployed, Calm, OnTrack, Run, DrillOrder, ReceiptAt, RaisesAt, LookRaises, HeadReadable;
    hide InspectorChain.AllParsed, InspectorChain.InspectionOf;
    var n := 7 + Min(limit, FLOOD_CAP);
    SameLength(ids, draws);
    LimitDeployed(house, limit);
    forall i: nat | i < n
      ensures !RaisesAt(house, w, ids, draws, i)
      ensures IsObserved(house, w, ids, draws, i, DrillVerdict(limit, i, AcceptsAfter(limit, i)))
    {
      DrillRun(house, w, ids, draws, limit, i);
      ReceiptSome(house, w, ids, draws, i);
    }
    RaiseIs(house, w, ids, draws, n, n);
    LookUnchanged(house, w, DrillCalls(ids, draws, n));
    LookMeans(house.c, w.rows);
    DrillRows(house, w, ids, draws, n);
    if !LookRaises(house.c, w.rows) {
      RunInspects(house, w, DrillCalls(ids, draws, n));
      var observed := ReportOf(house, w, ids, draws, n).observed;
      assert IsObserved(house, w, ids, draws, n - 1, DrillVerdict(limit, n - 1, AcceptsAfter(limit, n - 1)));
      assert observed[6] == DrillVerdict(limit, n - 1, AcceptsAfter(limit, n - 1));
      forall i: nat | i < 6 ensures observed[i] == DrillVerdict(limit, i, AcceptsAfter(limit, i)) {
        assert IsObserved(house, w, ids, draws, i, DrillVerdict(limit, i, AcceptsAfter(limit, i)));
      }
    }
  }

  lemma LimitDeployed(house: House, limit: int)
    requires Deployed(house, limit)
    ensures DeployedLimit(house) == Some(limit)
  {
    hide ForRole;
  }

  lemma ReceiptSome(house: House, w: World, ids: seq<string>, draws: seq<Draw>, i: nat)
    requires i < |ids| && i < |draws| && !RaisesAt(house, w, ids, draws, i)
    ensures ReceiptAt(house, w, ids, draws, i).Some?
  {
    hide ReceiptAt;
  }

  lemma LookMeans(c: Crypto, rows: Table)
    ensures LookRaises(c, rows)
       <==> !InspectorChain.AllParsed(rows) || InspectorChain.InspectionOf(c, false, rows).Raised?
  {
  }

  /** Orders that do not raise leave a row each. */
  lemma {:induction false} DrillRows(house: House, w: World, ids: seq<string>, draws: seq<Draw>, n: nat)
    requires n <= |ids| && n <= |draws| && forall i: nat :: i < n ==> !RaisesAt(house, w, ids, draws, i)
    ensures |Run(house, w, DrillCalls(ids, draws, n)).rows| == |w.rows| + n
  {
    hide Run, DrillOrder, Step, ReceiptOf, Raises;
    if n == 0 {
      StartOfRun(house, w, ids, draws);
    } else {
      DrillRows(house, w, ids, draws, n - 1);
      NextCall(house, w, ids, draws, n - 1);
      assert !RaisesAt(house, w, ids, draws, n - 1);
      var m, call := Run(house, w, DrillCalls(ids, draws, n - 1)), Agent(DrillOrder(ids, n - 1), draws[n - 1]);
      NoReceiptExactly(house, m, call);
      StepAppends(house, m, call);
    }
  }
}
