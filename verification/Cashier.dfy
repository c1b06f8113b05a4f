/** The cashier: the six-step verdict on an order, the store it reads, and the effects that
    follow the verdict. */
module Cashier {
  import opened Wrappers
  import opened Json
  import opened Chain
  import opened ReceiptLedger

  datatype Capability = Capability(
    id: string,
    requiresSecondAdmin: bool,
    requiresUserConfirmation: bool,
    scopedInput: string,
    behavior: Option<string>,
    behaviorConfig: Fields)
  {
    /** `self.behavior or self.id`. */
    function ResolvedBehavior(): string {
      if behavior.Some? && behavior.value != "" then behavior.value else id
    }
  }

  type Menu = map<string, Capability>

  datatype Order = Order(
    orderId: string,
    principal: string,
    role: string,
    capabilityId: string,
    args: Json,
    nonce: string,
    ts: string)
  {
    function Meta(): OrderMeta {
      OrderMeta(principal, role, capabilityId, ts)
    }

    /** What the rate limit counts under. */
    function Key(): RateKey {
      RateKey(principal, capabilityId)
    }
  }

  datatype Policy = Policy(role: string, allowed: seq<string>, limit: int, paused: seq<string>)

  /** The first policy for the role, in file order. */
  function ForRole(policies: seq<Policy>, role: string): (p: Option<Policy>)
    ensures p.None? <==> forall i :: 0 <= i < |policies| ==> policies[i].role != role
    ensures p.Some? ==> exists i :: 0 <= i < |policies| && policies[i] == p.value && p.value.role == role
                                 && forall j :: 0 <= j < i ==> policies[j].role != role
  {
    if policies == [] then None
    else if policies[0].role == role then Some(policies[0])
    else
      var p := ForRole(policies[1..], role);
      assert p.Some? ==>
        (exists i :: 0 <= i < |policies| && policies[i] == p.value && p.value.role == role
                 && forall j :: 0 <= j < i ==> policies[j].role != role) by {
        if p.Some? {
          var i :| 0 <= i < |policies[1..]| && policies[1..][i] == p.value
                && forall j :: 0 <= j < i ==> policies[1..][j].role != role;
          assert policies[i + 1] == p.value;
          forall j | 0 <= j < i + 1 ensures policies[j].role != role {
            if j > 0 { assert policies[j] == policies[1..][j - 1]; }
          }
        }
      }
      p
  }

  // ---- the store ----

  datatype RateKey = RateKey(principal: string, capabilityId: string)

  const RATE_WINDOW_SECONDS: real := 3600.0

  datatype StoreState = StoreState(spent: set<string>, history: map<RateKey, seq<real>>)
  {
    function Stamps(key: RateKey): seq<real> {
      if key in history then history[key] else []
    }

    function Spend(nonce: string): StoreState {
      this.(spent := spent + {nonce})
    }

    function Record(key: RateKey, now: real): StoreState {
      this.(history := history[key := Stamps(key) + [now]])
    }
  }

  const EMPTY_STORE := StoreState({}, map[])

  /** How many of the stamps lie in the window that ends at `now`; a stamp later than `now`
      counts too. */
  function RateCount(stamps: seq<real>, now: real): (n: nat)
    ensures n <= |stamps|
  {
    if stamps == [] then 0
    else
      RateCount(stamps[..|stamps| - 1], now)
      + if now - stamps[|stamps| - 1] < RATE_WINDOW_SECONDS then 1 else 0
  }

  class CashierStore {
    var seenNonces: set<string>
    var history: map<RateKey, seq<real>>

    constructor ()
      ensures State() == EMPTY_STORE
    {
      seenNonces := {};
      history := map[];
    }

    function State(): StoreState
      reads this
    {
      StoreState(seenNonces, history)
    }

    function NonceIsSpent(nonce: string): bool
      reads this
    {
      nonce in seenNonces
    }

    /** Check-and-register. */
    method NonceSeen(nonce: string) returns (seen: bool)
      modifies this`seenNonces
      ensures seen == (nonce in old(seenNonces))
      ensures State() == old(State()).Spend(nonce)
    {
      if nonce in seenNonces {
        assert seenNonces + {nonce} == seenNonces;
        return true;
      }
      seenNonces := seenNonces + {nonce};
      return false;
    }

    method CountRecent(key: RateKey, now: real) returns (n: nat)
      ensures n == RateCount(State().Stamps(key), now)
    {
      var stamps := if key in history then history[key] else [];
      n := 0;
      for i := 0 to |stamps|
        invariant n == RateCount(stamps[..i], now)
      {
        assert stamps[..i + 1][..i] == stamps[..i];
        if now - stamps[i] < RATE_WINDOW_SECONDS {
          n := n + 1;
        }
      }
      assert stamps[..|stamps|] == stamps;
    }

    method RecordAccept(key: RateKey, now: real)
      modifies this`history
      ensures State() == old(State()).Record(key, now)
    {
      if key !in history {
        history := history[key := []];
      }
      history := history[key := history[key] + [now]];
    }
  }

  // ---- scope ----

  /** `resource.split("/", 1)`. */
  function OwnerOf(resource: string): string {
    if resource == "" || resource[0] == '/' then "" else [resource[0]] + OwnerOf(resource[1..])
  }

  function LocalOf(resource: string): string {
    if resource == "" then "" else if resource[0] == '/' then resource[1..] else LocalOf(resource[1..])
  }

  lemma {:induction false} SplitAtSlash(resource: string)
    ensures '/' !in OwnerOf(resource)
    ensures '/' in resource ==> resource == OwnerOf(resource) + "/" + LocalOf(resource)
  {
    if resource != "" && resource[0] != '/' {
      SplitAtSlash(resource[1..]);
      if '/' in resource {
        assert resource == [resource[0]] + resource[1..];
        assert '/' in resource[1..];
      }
    }
  }

  lemma {:induction false} SplitOfJoin(owner: string, local: string)
    requires '/' !in owner
    ensures OwnerOf(owner + "/" + local) == owner && LocalOf(owner + "/" + local) == local
  {
    var r := owner + "/" + local;
    if owner == "" {
      assert r == "/" + local;
    } else {
      assert r[1..] == owner[1..] + "/" + local;
      SplitOfJoin(owner[1..], local);
      assert owner == [owner[0]] + owner[1..];
    }
  }

  predicate IsControl(ch: char) {
    (ch as int) < 0x20 || ch as int == 0x7f
  }

  predicate HasControl(s: string) {
    exists i :: 0 <= i < |s| && IsControl(s[i])
  }

  predicate LocalUnsafe(local: string) {
    local == "" || '/' in local || '\\' in local || local in {".", ".."}
  }

  /** The cashier's scope rule for a resource. */
  predicate InScope(principal: string, resource: Json) {
    && resource.JStr?
    && '/' in resource.s
    && !HasControl(resource.s)
    && OwnerOf(resource.s) != ""
    && OwnerOf(resource.s) == principal
    && !LocalUnsafe(LocalOf(resource.s))
  }

  /** A character no resource may hold: the 32 controls and DEL. */
  predicate Forbidden(code: int) {
    0 <= code <= 31 || code == 127
  }

  /** The resources of a principal, character by character: the principal's name without a slash,
      one slash, and a file name that is not empty, not `.` or `..`, and holds neither slash nor
      backslash, with no control character anywhere. */
  predicate OwnResource(principal: string, local: string, resource: string) {
    && resource == principal + "/" + local
    && |principal| > 0 && |local| > 0
    && (forall i :: 0 <= i < |principal| ==> principal[i] != '/')
    && (forall i :: 0 <= i < |local| ==> local[i] != '/' && local[i] != '\\')
    && !(|local| == 1 && local[0] == '.') && !(|local| == 2 && local[0] == '.' && local[1] == '.')
    && forall i :: 0 <= i < |resource| ==> !Forbidden(resource[i] as int)
  }

  lemma OwnSplits(principal: string, local: string, resource: string)
    requires OwnResource(principal, local, resource)
    ensures '/' in resource && OwnerOf(resource) == principal && LocalOf(resource) == local
  {
    SplitOfJoin(principal, local);
    assert resource[|principal|] == '/';
  }

  lemma DotsMean(local: string)
    ensures local in {".", ".."}
       <==> (|local| == 1 && local[0] == '.') || (|local| == 2 && local[0] == '.' && local[1] == '.')
  {
    if |local| == 1 && local[0] == '.' {
      assert local == ".";
    } else if |local| == 2 && local[0] == '.' && local[1] == '.' {
      assert local == "..";
    }
  }

  lemma ControlMeans(s: string)
    ensures HasControl(s) <==> exists i :: 0 <= i < |s| && Forbidden(s[i] as int)
  {
    forall i | 0 <= i < |s| ensures IsControl(s[i]) <==> Forbidden(s[i] as int) {
    }
  }

  /** The cashier's rule accepts a resource for a principal if and only if it is one of that
      principal's own. */
  lemma InScopeExactly(principal: string, resource: Json)
    ensures InScope(principal, resource)
       <==> resource.JStr? && exists local :: OwnResource(principal, local, resource.s)
  {
    hide HasControl, Forbidden;
    if resource.JStr? {
      ControlMeans(resource.s);
    }
    if InScope(principal, resource) {
      var local := LocalOf(resource.s);
      SplitAtSlash(resource.s);
      DotsMean(local);
      assert OwnResource(principal, local, resource.s);
    }
    if resource.JStr? {
      if local :| OwnResource(principal, local, resource.s) {
        OwnSplits(principal, local, resource.s);
        DotsMean(local);
      }
    }
  }

  /** `order.args.get(key)` when the args are an object. */
  function ArgAt(args: Json, key: string): Json {
    if args.JObj? then Lookup(args.fields, key) else JNull
  }

  // ---- the verdict ----

  datatype Decision = Allow(scopedKey: string, resource: string) | Deny(reason: Reason)

  /** `evaluate_order`: the six steps, stopping at the first that fails. */
  function EvaluateOrder(order: Order, menu: Menu, policies: seq<Policy>, store: StoreState, now: real): Decision {
    if order.nonce in store.spent then Deny(REPLAY)
    else if order.capabilityId !in menu then Deny(OFF_MENU)
    else
      var capability := menu[order.capabilityId];
      var policy := ForRole(policies, order.role);
      if policy.None? || order.capabilityId !in policy.value.allowed then Deny(ROLE_NOT_PERMITTED)
      else if order.capabilityId in policy.value.paused then Deny(CAPABILITY_PAUSED)
      else
        var resource := ArgAt(order.args, capability.scopedInput);
        if !InScope(order.principal, resource) then Deny(OUT_OF_SCOPE)
        else if RateCount(store.Stamps(order.Key()), now) >= policy.value.limit then Deny(RATE_LIMITED)
        else Allow(capability.scopedInput, resource.s)
  }

  lemma ScopedIsText(principal: string, resource: Json)
    requires InScope(principal, resource)
    ensures resource.JStr?
  {
  }

  /** `evaluate_order` on the store itself, of which it only reads. */
  method Evaluate(order: Order, menu: Menu, policies: seq<Policy>, store: CashierStore, now: real) returns (d: Decision)
    ensures d == EvaluateOrder(order, menu, policies, store.State(), now)
  {
    hide InScope, ForRole, RateCount;
    if store.NonceIsSpent(order.nonce) {
      return Deny(REPLAY);
    }
    if order.capabilityId !in menu {
      return Deny(OFF_MENU);
    }
    var capability := menu[order.capabilityId];
    var policy := ForRole(policies, order.role);
    if policy.None? || order.capabilityId !in policy.value.allowed {
      return Deny(ROLE_NOT_PERMITTED);
    }
    if order.capabilityId in policy.value.paused {
      return Deny(CAPABILITY_PAUSED);
    }
    var scopedKey := capability.scopedInput;
    var resource := ArgAt(order.args, scopedKey);
    if !InScope(order.principal, resource) {
      return Deny(OUT_OF_SCOPE);
    }
    var count := store.CountRecent(order.Key(), now);
    if count >= policy.value.limit {
      return Deny(RATE_LIMITED);
    }
    ScopedIsText(order.principal, resource);
    d := Allow(scopedKey, resource.s);
  }

  /** What an accepted order must have satisfied. */
  lemma AllowMeans(order: Order, menu: Menu, policies: seq<Policy>, store: StoreState, now: real)
    requires EvaluateOrder(order, menu, policies, store, now).Allow?
    ensures order.nonce !in store.spent && order.capabilityId in menu
    ensures ForRole(policies, order.role).Some?
    ensures RateCount(store.Stamps(order.Key()), now) < ForRole(policies, order.role).value.limit
    ensures var d := EvaluateOrder(order, menu, policies, store, now);
      && d.scopedKey == menu[order.capabilityId].scopedInput
      && ArgAt(order.args, d.scopedKey) == JStr(d.resource)
      && InScope(order.principal, JStr(d.resource))
  {
  }

  /** One gate of the pipeline: does the order pass, and what it is refused with if not. */
  datatype Gate = Gate(passes: bool, refusal: Reason)

  /** The pipeline as a list: every gate is judged on its own, whatever the others say. */
  function Gates(order: Order, menu: Menu, policies: seq<Policy>, store: StoreState, now: real): seq<Gate> {
    var policy := ForRole(policies, order.role);
    var onMenu := order.capabilityId in menu;
    [Gate(order.nonce !in store.spent, REPLAY),
     Gate(onMenu, OFF_MENU),
     Gate(policy.Some? && order.capabilityId in policy.value.allowed, ROLE_NOT_PERMITTED),
     Gate(policy.Some? && order.capabilityId !in policy.value.paused, CAPABILITY_PAUSED),
     Gate(onMenu && InScope(order.principal, ArgAt(order.args, menu[order.capabilityId].scopedInput)), OUT_OF_SCOPE),
     Gate(policy.Some? && RateCount(store.Stamps(order.Key()), now) < policy.value.limit, RATE_LIMITED)]
  }

  /** An order is allowed if and only if it passes every gate, and it is refused with the reason
      of exactly the first gate it fails. */
  lemma FirstFailingGate(order: Order, menu: Menu, policies: seq<Policy>, store: StoreState, now: real)
    ensures var d, gates := EvaluateOrder(order, menu, policies, store, now), Gates(order, menu, policies, store, now);
      && (d.Allow? <==> forall i :: 0 <= i < |gates| ==> gates[i].passes)
      && forall k :: 0 <= k < |gates| ==>
           (d == Deny(gates[k].refusal) <==> !gates[k].passes && forall i :: 0 <= i < k ==> gates[i].passes)
  {
    hide InScope, RateCount, ForRole;
    var d, gates := EvaluateOrder(order, menu, policies, store, now), Gates(order, menu, policies, store, now);
    assert d.Allow? <==>
      && gates[0].passes && gates[1].passes && gates[2].passes
      && gates[3].passes && gates[4].passes && gates[5].passes;
  }

  datatype Ticket = Ticket(
    ticketId: string,
    orderId: string,
    capabilityId: string,
    behavior: string,
    behaviorConfig: Fields,
    scopedArgs: Fields,
    issuedTs: string,
    cashierSig: string)
  {
    /** The seven fields that are signed. */
    function Signable(): Json {
      SignableOf(ticketId, orderId, capabilityId, behavior, behaviorConfig, scopedArgs, issuedTs)
    }
  }

  function SignableOf(ticketId: string, orderId: string, capabilityId: string, behavior: string,
                      behaviorConfig: Fields, scopedArgs: Fields, issuedTs: string): Json {
    JObj(map["ticket_id" := JStr(ticketId), "order_id" := JStr(orderId), "capability_id" := JStr(capabilityId),
             "behavior" := JStr(behavior), "behavior_config" := JObj(behaviorConfig),
             "scoped_args" := JObj(scopedArgs), "issued_ts" := JStr(issuedTs)])
  }

  /** What one call draws from its surroundings: two reads of the store's clock, the issue time,
      the fresh identifiers, and what the sandbox and the attestor will answer. */
  datatype Draw = Draw(
    checkTime: real,
    acceptTime: real,
    issuedTs: string,
    ticketId: string,
    receiptId: string,
    kitchen: KitchenRun)

  /** What becomes of an execution: the sandbox returns, with its exit code, the output file if
      there is one, the attestor's quote over the chef's code and the containment class of the
      sandbox; or opening the window, running the sandbox, reading the draft or quoting raises. */
  datatype KitchenRun =
    | KitchenRun(returncode: int, draft: Option<string>, quote: Json, containment: string)
    | Raised

  function MintTicket(c: Crypto, order: Order, capability: Capability, d: Decision, draw: Draw): Ticket
    requires d.Allow?
  {
    var scopedArgs := map[d.scopedKey := JStr(d.resource)];
    var signable := SignableOf(draw.ticketId, order.orderId, order.capabilityId, capability.ResolvedBehavior(),
                               capability.behaviorConfig, scopedArgs, draw.issuedTs);
    Ticket(draw.ticketId, order.orderId, order.capabilityId, capability.ResolvedBehavior(),
           capability.behaviorConfig, scopedArgs, draw.issuedTs, c.sign(Canonical(signable)))
  }

  datatype Outcome = Ticketed(ticket: Ticket) | Refused(reason: Reason, receipt: Receipt)

  function RejectionReceipt(order: Order, reason: Reason, draw: Draw): Receipt {
    Receipt(draw.receiptId, order.orderId, None, REJECTED, Some(reason), None, None, order.Meta(), None)
  }

  /** `process_order` up to its spawn hook, as a function of the state it reads. */
  function ProcessOutcome(c: Crypto, menu: Menu, policies: seq<Policy>, store: StoreState, order: Order,
                          draw: Draw): Outcome
  {
    match EvaluateOrder(order, menu, policies, store, draw.checkTime)
    case Deny(reason) => Refused(reason, RejectionReceipt(order, reason, draw))
    case Allow(k, r) => Ticketed(MintTicket(c, order, menu[order.capabilityId], Allow(k, r), draw))
  }

  function ProcessStore(menu: Menu, policies: seq<Policy>, store: StoreState, order: Order, draw: Draw): StoreState {
    match EvaluateOrder(order, menu, policies, store, draw.checkTime)
    case Deny(_) => store.Spend(order.nonce)
    case Allow(_, _) => store.Spend(order.nonce).Record(order.Key(), draw.acceptTime)
  }

  /** `process_order` with `spawn=None`: the nonce is spent whatever the verdict, a refusal is
      receipted, an acceptance is ticketed and then recorded against the rate limit. `None` is the
      exception of a refusal that cannot be appended. */
  method ProcessOrder(c: Crypto, menu: Menu, policies: seq<Policy>, store: CashierStore, ledger: Ledger,
                      order: Order, draw: Draw)
    returns (outcome: Option<Outcome>)
    requires ledger.c == c
    modifies store, ledger`rows
    ensures var decided := ProcessOutcome(c, menu, policies, old(store.State()), order, draw);
      && outcome == (if decided.Refused? && !HeadReadable(old(ledger.rows)) then None else Some(decided))
      && ledger.rows == if decided.Refused? then Appended(c, old(ledger.rows), decided.receipt) else old(ledger.rows)
    ensures store.State() == ProcessStore(menu, policies, old(store.State()), order, draw)
  {
    hide Appended, HeadReadable, Canonical, InScope;
    var decision := Evaluate(order, menu, policies, store, draw.checkTime);
    var _ := store.NonceSeen(order.nonce);
    match decision {
      case Deny(reason) =>
        var receipt := RejectionReceipt(order, reason, draw);
        var appended := ledger.Append(receipt);
        if !appended {
          return None;
        }
        outcome := Some(Refused(reason, receipt));
      case Allow(_, _) =>
        var capability := menu[order.capabilityId];
        var ticket := MintTicket(c, order, capability, decision, draw);
        store.RecordAccept(order.Key(), draw.acceptTime);
        outcome := Some(Ticketed(ticket));
    }
  }
}
