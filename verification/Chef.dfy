/** The standalone chef: what it demands of the ticket on its stdin before it touches a file, and
    which file it then reads. */
module Chef {
  import opened Wrappers
  import opened Json
  import JsonText
  import opened Chain
  import opened Cashier

  const TICKET_STRINGS: seq<string> :=
    ["ticket_id", "order_id", "capability_id", "behavior", "issued_ts", "cashier_sig"]
  const REQUIRED_KEYS: seq<string> :=
    ["ticket_id", "order_id", "capability_id", "behavior", "behavior_config", "scoped_args", "issued_ts", "cashier_sig"]

  // ---- the gate ----

  /** Exit 2 is a usage error, 3 a bad signature, 4 a scope violation or a missing fixture. */
  datatype Gate = Exit(code: int) | Clear(resource: string)

  predicate AllStrings(fields: Fields, keys: seq<string>) {
    forall i :: 0 <= i < |keys| ==> Lookup(fields, keys[i]).JStr?
  }

  predicate HasAll(fields: Fields, keys: seq<string>) {
    forall i :: 0 <= i < |keys| ==> keys[i] in fields
  }

  ghost predicate OnlyString(scopedArgs: Fields, resource: string) {
    exists k :: scopedArgs == map[k := JStr(resource)]
  }

  /** Exactly one entry, and it is a string. */
  ghost predicate OneString(scopedArgs: Fields) {
    exists resource :: OnlyString(scopedArgs, resource)
  }

  ghost function TheString(scopedArgs: Fields): (resource: string)
    requires OneString(scopedArgs)
    ensures OnlyString(scopedArgs, resource)
  {
    var resource :| OnlyString(scopedArgs, resource);
    resource
  }

  function Text(fields: Fields, key: string): string {
    if Lookup(fields, key).JStr? then Lookup(fields, key).s else ""
  }

  function ObjectAt(fields: Fields, key: string): Fields {
    if Lookup(fields, key).JObj? then Lookup(fields, key).fields else map[]
  }

  /** The seven signed fields, rebuilt from the wire. */
  function SignableOnWire(t: Fields): Json {
    SignableOf(Text(t, "ticket_id"), Text(t, "order_id"), Text(t, "capability_id"), Text(t, "behavior"),
               ObjectAt(t, "behavior_config"), ObjectAt(t, "scoped_args"), Text(t, "issued_ts"))
  }

  /** The chef's own string guard, independent of the cashier's. */
  predicate Guard(resource: string) {
    && '/' in resource
    && OwnerOf(resource) != ""
    && !LocalUnsafe(LocalOf(resource))
    && !HasControl(resource)
  }

  /** `main` up to the path resolution; `None` stands for stdin that is empty or not JSON. */
  ghost function ChefGate(c: Crypto, stdin: Option<Json>): Gate {
    if stdin.None? || !stdin.value.JObj? then Exit(2)
    else
      var t := stdin.value.fields;
      if !HasAll(t, REQUIRED_KEYS) then Exit(2)
      else if !AllStrings(t, TICKET_STRINGS) then Exit(2)
      else if !Lookup(t, "behavior_config").JObj? then Exit(2)
      else if !Lookup(t, "scoped_args").JObj? || !OneString(ObjectAt(t, "scoped_args")) then Exit(2)
      else
        var sig := c.decodeStrict(Text(t, "cashier_sig"));
        if sig.None? || !c.checks(sig.value, Canonical(SignableOnWire(t))) then Exit(3)
        else
          var resource := TheString(ObjectAt(t, "scoped_args"));
          if !Guard(resource) then Exit(4) else Clear(resource)
  }

  method CheckStrings(fields: Fields, keys: seq<string>) returns (ok: bool)
    ensures ok == AllStrings(fields, keys)
  {
    for i := 0 to |keys|
      invariant AllStrings(fields, keys[..i])
    {
      assert keys[..i + 1] == keys[..i] + [keys[i]];
      if !Lookup(fields, keys[i]).JStr? {
        return false;
      }
    }
    assert keys[..|keys|] == keys;
    ok := true;
  }

  method CheckKeys(fields: Fields, keys: seq<string>) returns (ok: bool)
    ensures ok == HasAll(fields, keys)
  {
    for i := 0 to |keys|
      invariant HasAll(fields, keys[..i])
    {
      assert keys[..i + 1] == keys[..i] + [keys[i]];
      if keys[i] !in fields {
        return false;
      }
    }
    assert keys[..|keys|] == keys;
    ok := true;
  }

  /** The one string among the scoped arguments, if there is exactly one argument and it is one. */
  method ScopedResource(scopedArgs: Fields) returns (resource: Option<string>)
    ensures resource == if OneString(scopedArgs) then Some(TheString(scopedArgs)) else None
  {
    if |scopedArgs| != 1 {
      return None;
    }
    var key :| key in scopedArgs;
    OnlyEntry(scopedArgs, key);
    if !scopedArgs[key].JStr? {
      return None;
    }
    SingleString(key, scopedArgs[key].s);
    resource := Some(scopedArgs[key].s);
  }

  lemma OnlyEntry(m: Fields, key: string)
    requires |m| == 1 && key in m
    ensures m == map[key := m[key]]
  {
    assert |m.Keys| == 1 && |m.Keys - {key}| == 0;
    forall k | k in m ensures k == key {
      assert k !in m.Keys - {key};
    }
  }

  /** `main`, as far as it can refuse a ticket without looking at the file system. */
  method CheckTicket(c: Crypto, stdin: Option<Json>) returns (gate: Gate)
    ensures gate == ChefGate(c, stdin)
  {
    hide Canonical, AllStrings, HasAll, Guard, OneString, SignableOnWire;
    if stdin.None? || !stdin.value.JObj? {
      return Exit(2);
    }
    var t := stdin.value.fields;
    var complete := CheckKeys(t, REQUIRED_KEYS);
    if !complete {
      return Exit(2);
    }
    var typed := CheckStrings(t, TICKET_STRINGS);
    if !typed {
      return Exit(2);
    }
    if !Lookup(t, "behavior_config").JObj? || !Lookup(t, "scoped_args").JObj? {
      return Exit(2);
    }
    var resource := ScopedResource(ObjectAt(t, "scoped_args"));
    if resource.None? {
      return Exit(2);
    }
    var sig := c.decodeStrict(Text(t, "cashier_sig"));
    if sig.None? || !c.checks(sig.value, Canonical(SignableOnWire(t))) {
      return Exit(3);
    }
    if !Guard(resource.value) {
      return Exit(4);
    }
    gate := Clear(resource.value);
  }

  /** The JSON the runner puts on the chef's stdin. */
  function Wire(c: Crypto, ticket: Ticket): Json {
    JObj(map["ticket_id" := JStr(ticket.ticketId), "order_id" := JStr(ticket.orderId),
             "capability_id" := JStr(ticket.capabilityId), "behavior" := JStr(ticket.behavior),
             "behavior_config" := JObj(ticket.behaviorConfig), "scoped_args" := JObj(ticket.scopedArgs),
             "issued_ts" := JStr(ticket.issuedTs), "cashier_sig" := JStr(c.encode(ticket.cashierSig))])
  }

  /** The chef's guard accepts a resource exactly when the cashier's scope rule does for the
      principal named by the owner part. */
  lemma GuardsAgree(resource: string, principal: string)
    ensures InScope(principal, JStr(resource)) <==> Guard(resource) && principal == OwnerOf(resource)
  {
  }

  /** The chef's guard accepts a resource if and only if it is somebody's own. */
  lemma GuardExactly(resource: string)
    ensures Guard(resource) <==> exists owner, local :: OwnResource(owner, local, resource)
  {
    hide Guard, OwnResource;
    if Guard(resource) {
      GuardsAgree(resource, OwnerOf(resource));
      InScopeExactly(OwnerOf(resource), JStr(resource));
    }
    if owner, local :| OwnResource(owner, local, resource) {
      InScopeExactly(owner, JStr(resource));
      GuardsAgree(resource, owner);
    }
  }

  lemma WireFields(c: Crypto, ticket: Ticket)
    ensures var t := Wire(c, ticket).fields;
      && HasAll(t, REQUIRED_KEYS) && AllStrings(t, TICKET_STRINGS)
      && Lookup(t, "behavior_config") == JObj(ticket.behaviorConfig)
      && Lookup(t, "scoped_args") == JObj(ticket.scopedArgs)
      && Lookup(t, "cashier_sig") == JStr(c.encode(ticket.cashierSig))
      && SignableOnWire(t) == ticket.Signable()
  {
    hide Canonical;
    var t := Wire(c, ticket).fields;
    WireStrings(c, ticket);
    assert "behavior_config" in t && "scoped_args" in t && "cashier_sig" in t;
    assert Text(t, "ticket_id") == ticket.ticketId && Text(t, "order_id") == ticket.orderId;
    assert Text(t, "capability_id") == ticket.capabilityId && Text(t, "behavior") == ticket.behavior;
    assert Text(t, "issued_ts") == ticket.issuedTs;
  }

  lemma WireStrings(c: Crypto, ticket: Ticket)
    ensures var t := Wire(c, ticket).fields;
      HasAll(t, REQUIRED_KEYS) && AllStrings(t, TICKET_STRINGS)
  {
    var t := Wire(c, ticket).fields;
    assert t.Keys == {"ticket_id", "order_id", "capability_id", "behavior", "behavior_config", "scoped_args",
                      "issued_ts", "cashier_sig"};
    forall i | 0 <= i < |TICKET_STRINGS| ensures TICKET_STRINGS[i] in t && Lookup(t, TICKET_STRINGS[i]).JStr? {
      var key := TICKET_STRINGS[i];
      assert key != "behavior_config" && key != "scoped_args";
    }
  }

  lemma SingleString(key: string, resource: string)
    ensures OneString(map[key := JStr(resource)])
    ensures TheString(map[key := JStr(resource)]) == resource
  {
    var m := map[key := JStr(resource)];
    assert OnlyString(m, resource);
    var r := TheString(m);
    var k :| m == map[k := JStr(r)];
    assert k in m;
  }

  /** Every ticket the cashier mints passes the chef's field, signature and string checks, and
      the resource it clears is the one the cashier validated. */
  lemma MintedTicketClears(c: Crypto, menu: Menu, policies: seq<Policy>, store: StoreState, order: Order, draw: Draw)
    requires c.Lawful()
    requires ProcessOutcome(c, menu, policies, store, order, draw).Ticketed?
    ensures var ticket := ProcessOutcome(c, menu, policies, store, order, draw).ticket;
      var gate := ChefGate(c, Some(Wire(c, ticket)));
      && gate.Clear?
      && ticket.orderId == order.orderId && ticket.capabilityId == order.capabilityId
      && ticket.ticketId == draw.ticketId && ticket.issuedTs == draw.issuedTs
      && (menu[order.capabilityId].behavior in {None, Some("")} ==> ticket.behavior == menu[order.capabilityId].id)
      && (menu[order.capabilityId].behavior !in {None, Some("")} ==>
            Some(ticket.behavior) == menu[order.capabilityId].behavior)
      && ticket.scopedArgs == map[menu[order.capabilityId].scopedInput := JStr(gate.resource)]
      && ticket.behaviorConfig == menu[order.capabilityId].behaviorConfig
      && InScope(order.principal, JStr(gate.resource))
      && ArgAt(order.args, menu[order.capabilityId].scopedInput) == JStr(gate.resource)
  {
    hide Canonical, InScope, Guard, EvaluateOrder, ChefGate, MintTicket;
    var d := EvaluateOrder(order, menu, policies, store, draw.checkTime);
    var ticket := ProcessOutcome(c, menu, policies, store, order, draw).ticket;
    AllowMeans(order, menu, policies, store, draw.checkTime);
    MintedTicket(c, order, menu[order.capabilityId], d, draw);
    TicketClears(c, ticket, d.scopedKey, d.resource);
    GuardsAgree(d.resource, order.principal);
  }

  lemma MintedTicket(c: Crypto, order: Order, capability: Capability, d: Decision, draw: Draw)
    requires d.Allow?
    ensures var t := MintTicket(c, order, capability, d, draw);
      && t.cashierSig == c.sign(Canonical(t.Signable()))
      && t.scopedArgs == map[d.scopedKey := JStr(d.resource)]
      && t.orderId == order.orderId && t.capabilityId == order.capabilityId
      && t.behavior == capability.ResolvedBehavior() && t.behaviorConfig == capability.behaviorConfig
      && t.ticketId == draw.ticketId && t.issuedTs == draw.issuedTs
  {
    hide Canonical;
  }

  lemma TicketClears(c: Crypto, ticket: Ticket, key: string, resource: string)
    requires c.Lawful()
    requires ticket.cashierSig == c.sign(Canonical(ticket.Signable()))
    requires ticket.scopedArgs == map[key := JStr(resource)]
    ensures ChefGate(c, Some(Wire(c, ticket))) == if Guard(resource) then Clear(resource) else Exit(4)
  {
    hide Canonical, Guard, SignableOnWire, HasAll, AllStrings;
    var t := Wire(c, ticket).fields;
    WireFields(c, ticket);
    SingleString(key, resource);
    assert Text(t, "cashier_sig") == c.encode(ticket.cashierSig);
    assert c.decodeStrict(c.encode(ticket.cashierSig)) == Some(ticket.cashierSig);
    assert c.checks(c.sign(Canonical(ticket.Signable())), Canonical(ticket.Signable()));
  }

  // ---- what the gate lets through, said of the stdin ----

  /** An object with the eight keys of the right kinds, and one text among the scoped arguments. */
  ghost predicate TicketShaped(stdin: Option<Json>) {
    && stdin.Some? && stdin.value.JObj?
    && var t := stdin.value.fields;
    && "ticket_id" in t && t["ticket_id"].JStr?
    && "order_id" in t && t["order_id"].JStr?
    && "capability_id" in t && t["capability_id"].JStr?
    && "behavior" in t && t["behavior"].JStr?
    && "issued_ts" in t && t["issued_ts"].JStr?
    && "cashier_sig" in t && t["cashier_sig"].JStr?
    && "behavior_config" in t && t["behavior_config"].JObj?
    && "scoped_args" in t && t["scoped_args"].JObj?
    && exists resource :: OnlyString(t["scoped_args"].fields, resource)
  }

  /** The seven stored values that are signed, as they stand. */
  function SignedPart(t: Fields): Json {
    JObj(map["ticket_id" := Lookup(t, "ticket_id"), "order_id" := Lookup(t, "order_id"),
             "capability_id" := Lookup(t, "capability_id"), "behavior" := Lookup(t, "behavior"),
             "behavior_config" := Lookup(t, "behavior_config"), "scoped_args" := Lookup(t, "scoped_args"),
             "issued_ts" := Lookup(t, "issued_ts")])
  }

  /** `cashier_sig` decodes, strictly, to a signature over them. */
  predicate TicketSigned(c: Crypto, t: Fields) {
    && Lookup(t, "cashier_sig").JStr?
    && c.decodeStrict(Lookup(t, "cashier_sig").s).Some?
    && c.checks(c.decodeStrict(Lookup(t, "cashier_sig").s).value, Canonical(SignedPart(t)))
  }

  lemma ShapeFields(t: Fields)
    requires TicketShaped(Some(JObj(t)))
    ensures HasAll(t, REQUIRED_KEYS) && AllStrings(t, TICKET_STRINGS)
    ensures Lookup(t, "behavior_config").JObj? && Lookup(t, "scoped_args").JObj?
    ensures SignableOnWire(t) == SignedPart(t)
    ensures Lookup(t, "cashier_sig") == JStr(Text(t, "cashier_sig"))
    ensures ObjectAt(t, "scoped_args") == t["scoped_args"].fields && OneString(ObjectAt(t, "scoped_args"))
  {
    hide OnlyString;
    KeysOfTicket();
    forall i | 0 <= i < |REQUIRED_KEYS| ensures REQUIRED_KEYS[i] in t {
    }
    forall i | 0 <= i < |TICKET_STRINGS| ensures Lookup(t, TICKET_STRINGS[i]).JStr? {
    }
  }

  lemma KeysOfTicket()
    ensures |REQUIRED_KEYS| == 8 && REQUIRED_KEYS[0] == "ticket_id" && REQUIRED_KEYS[1] == "order_id"
    ensures REQUIRED_KEYS[2] == "capability_id" && REQUIRED_KEYS[3] == "behavior"
    ensures REQUIRED_KEYS[4] == "behavior_config" && REQUIRED_KEYS[5] == "scoped_args"
    ensures REQUIRED_KEYS[6] == "issued_ts" && REQUIRED_KEYS[7] == "cashier_sig"
    ensures |TICKET_STRINGS| == 6 && TICKET_STRINGS[0] == "ticket_id" && TICKET_STRINGS[1] == "order_id"
    ensures TICKET_STRINGS[2] == "capability_id" && TICKET_STRINGS[3] == "behavior"
    ensures TICKET_STRINGS[4] == "issued_ts" && TICKET_STRINGS[5] == "cashier_sig"
  {
  }

  lemma ShapeExactly(t: Fields)
    ensures TicketShaped(Some(JObj(t))) <==>
      && HasAll(t, REQUIRED_KEYS) && AllStrings(t, TICKET_STRINGS)
      && Lookup(t, "behavior_config").JObj? && Lookup(t, "scoped_args").JObj?
      && OneString(ObjectAt(t, "scoped_args"))
  {
    hide OnlyString;
    if TicketShaped(Some(JObj(t))) {
      ShapeFields(t);
    } else if HasAll(t, REQUIRED_KEYS) && AllStrings(t, TICKET_STRINGS) {
      KeysOfTicket();
      assert REQUIRED_KEYS[0] in t && REQUIRED_KEYS[1] in t && REQUIRED_KEYS[2] in t && REQUIRED_KEYS[3] in t;
      assert REQUIRED_KEYS[4] in t && REQUIRED_KEYS[5] in t && REQUIRED_KEYS[6] in t && REQUIRED_KEYS[7] in t;
      assert Lookup(t, TICKET_STRINGS[0]).JStr? && Lookup(t, TICKET_STRINGS[1]).JStr?;
      assert Lookup(t, TICKET_STRINGS[2]).JStr? && Lookup(t, TICKET_STRINGS[3]).JStr?;
      assert Lookup(t, TICKET_STRINGS[4]).JStr? && Lookup(t, TICKET_STRINGS[5]).JStr?;
    }
  }

  lemma OnlyStringUnique(scopedArgs: Fields, a: string, b: string)
    requires OnlyString(scopedArgs, a) && OnlyString(scopedArgs, b)
    ensures a == b
  {
    var k :| scopedArgs == map[k := JStr(a)];
    var l :| scopedArgs == map[l := JStr(b)];
    assert k in scopedArgs && l in scopedArgs;
  }

  /** The gate clears a resource if and only if stdin is shaped like a ticket, its signature holds
      over the seven values that stand beside it, and the resource is the one text of its scoped
      arguments and somebody's own. */
  lemma ClearsExactly(c: Crypto, stdin: Option<Json>, resource: string)
    ensures ChefGate(c, stdin) == Clear(resource) <==>
      && TicketShaped(stdin) && TicketSigned(c, stdin.value.fields)
      && OnlyString(stdin.value.fields["scoped_args"].fields, resource)
      && exists owner, local :: OwnResource(owner, local, resource)
  {
    hide Canonical, Guard, OnlyString, SignableOnWire, HasAll, AllStrings, TicketShaped, OwnResource, SignedPart;
    if stdin.Some? && stdin.value.JObj? {
      ShapeExactly(stdin.value.fields);
      GuardExactly(resource);
      if TicketShaped(stdin) {
        ShapeFields(stdin.value.fields);
        var only := TheString(ObjectAt(stdin.value.fields, "scoped_args"));
        if OnlyString(stdin.value.fields["scoped_args"].fields, resource) {
          OnlyStringUnique(stdin.value.fields["scoped_args"].fields, only, resource);
        }
      }
    } else {
      NoShape(stdin);
    }
  }

  lemma NoShape(stdin: Option<Json>)
    requires stdin.None? || !stdin.value.JObj?
    ensures !TicketShaped(stdin)
  {
  }

  /** And it refuses with 2 exactly what is not shaped like a ticket, with 3 exactly a ticket whose
      signature does not hold, whatever it asks for, and with 4 exactly a signed ticket for a
      resource that is nobody's own. */
  lemma RefusesExactly(c: Crypto, stdin: Option<Json>)
    ensures ChefGate(c, stdin) == Exit(2) <==> !TicketShaped(stdin)
    ensures ChefGate(c, stdin) == Exit(3) <==> TicketShaped(stdin) && !TicketSigned(c, stdin.value.fields)
    ensures ChefGate(c, stdin) == Exit(4) <==>
      && TicketShaped(stdin) && TicketSigned(c, stdin.value.fields)
      && forall owner, local, resource :: OnlyString(stdin.value.fields["scoped_args"].fields, resource)
           ==> !OwnResource(owner, local, resource)
  {
    hide Canonical, Guard, OnlyString, SignableOnWire, HasAll, AllStrings, TicketShaped, OwnResource, SignedPart;
    if stdin.Some? && stdin.value.JObj? {
      ShapeExactly(stdin.value.fields);
      if TicketShaped(stdin) {
        var args := stdin.value.fields["scoped_args"].fields;
        ShapeFields(stdin.value.fields);
        var only := TheString(ObjectAt(stdin.value.fields, "scoped_args"));
        GuardExactly(only);
        forall resource | OnlyString(args, resource) ensures resource == only {
          OnlyStringUnique(args, only, resource);
        }
      }
    } else {
      NoShape(stdin);
    }
  }

  /** The wire holds the ticket's seven signed values. */
  predicate SameValues(ticket: Ticket, t: Fields) {
    && Lookup(t, "ticket_id") == JStr(ticket.ticketId) && Lookup(t, "order_id") == JStr(ticket.orderId)
    && Lookup(t, "capability_id") == JStr(ticket.capabilityId) && Lookup(t, "behavior") == JStr(ticket.behavior)
    && Lookup(t, "behavior_config") == JObj(ticket.behaviorConfig)
    && Lookup(t, "scoped_args") == JObj(ticket.scopedArgs) && Lookup(t, "issued_ts") == JStr(ticket.issuedTs)
  }

  lemma SameSignable(ticket: Ticket, t: Fields)
    requires ticket.Signable() == SignedPart(t)
    ensures SameValues(ticket, t)
  {
    var a, b := ticket.Signable().fields, SignedPart(t).fields;
    assert a["ticket_id"] == b["ticket_id"] && a["order_id"] == b["order_id"];
    assert a["capability_id"] == b["capability_id"] && a["behavior"] == b["behavior"];
    assert a["behavior_config"] == b["behavior_config"] && a["scoped_args"] == b["scoped_args"];
    assert a["issued_ts"] == b["issued_ts"];
  }

  /** A minted ticket's signature on another wire: the gate clears only if the wire agrees with the
      ticket in all seven signed values, or the key takes one signature for two different texts. */
  lemma SignatureBindsTicket(c: Crypto, ticket: Ticket, t: Fields)
    requires c.Lawful() && ticket.cashierSig == c.sign(Canonical(ticket.Signable()))
    requires Lookup(t, "cashier_sig") == JStr(c.encode(ticket.cashierSig))
    requires ChefGate(c, Some(JObj(t))).Clear?
    ensures var text, text' := Canonical(ticket.Signable()), Canonical(SignedPart(t));
      || SameValues(ticket, t)
      || (text != text' && c.checks(c.sign(text), text) && c.checks(c.sign(text), text'))
  {
    hide Canonical, ChefGate, OnlyString, TicketShaped, SignedPart, OwnResource, SameValues, Ticket.Signable;
    var resource := ChefGate(c, Some(JObj(t))).resource;
    ClearsExactly(c, Some(JObj(t)), resource);
    var text, text' := Canonical(ticket.Signable()), Canonical(SignedPart(t));
    assert c.decodeStrict(c.encode(ticket.cashierSig)) == Some(ticket.cashierSig);
    assert c.checks(c.sign(text), text);
    if text == text' {
      JsonText.CanonicalInjective(ticket.Signable(), SignedPart(t));
      SameSignable(ticket, t);
    }
  }

  // ---- the file ----

  /** An absolute path without symlinks, as its components. */
  type Path = seq<string>

  predicate IsName(part: string) {
    part != "" && part != "." && part != ".." && '/' !in part
  }

  predicate Normal(path: Path) {
    forall i :: 0 <= i < |path| ==> IsName(path[i])
  }

  /** One component onto a normalised path. */
  function Enter(path: Path, part: string): Path {
    if part == "" || part == "." then path
    else if part == ".." then (if path == [] then [] else path[..|path| - 1])
    else path + [part]
  }

  /** The text cut at every slash. */
  function Components(text: string): (parts: seq<string>)
    ensures parts != []
  {
    if text == "" then [""]
    else
      var rest := Components(text[1..]);
      if text[0] == '/' then [""] + rest else [[text[0]] + rest[0]] + rest[1..]
  }

  lemma {:induction false} OneComponent(text: string)
    requires '/' !in text
    ensures Components(text) == [text]
  {
    if text != "" {
      OneComponent(text[1..]);
      assert text == [text[0]] + text[1..];
    }
  }

  function EnterAll(path: Path, parts: seq<string>): Path
    decreases parts
  {
    if parts == [] then path else EnterAll(Enter(path, parts[0]), parts[1..])
  }

  /** `realpath(join(base, text))` for a relative text on a symlink-free file system. */
  function Resolve(base: Path, text: string): Path {
    EnterAll(base, Components(text))
  }

  /** The path the chef opens: the common path of owner directory and candidate has to be the
      owner directory, and the candidate something else. */
  function FixturePath(root: Path, resource: string): Option<Path> {
    var ownerDir := Resolve(root, OwnerOf(resource));
    var candidate := Resolve(ownerDir, LocalOf(resource) + ".txt");
    if !(ownerDir <= candidate) || candidate == ownerDir then None else Some(candidate)
  }

  lemma ResolveName(base: Path, text: string)
    requires '/' !in text
    ensures Resolve(base, text) == Enter(base, text)
  {
    OneComponent(text);
    assert EnterAll(base, [text]) == EnterAll(Enter(base, text), []);
  }

  /** A guarded resource resolves, and it resolves to `<root>/<owner>/<local>.txt` if and only
      if the owner part is an ordinary name. */
  lemma FixturePathExact(root: Path, resource: string)
    requires Normal(root) && Guard(resource)
    ensures FixturePath(root, resource).Some?
    ensures FixturePath(root, resource) == Some(root + [OwnerOf(resource), LocalOf(resource) + ".txt"])
       <==> OwnerOf(resource) !in {".", ".."}
  {
    var owner, file := OwnerOf(resource), LocalOf(resource) + ".txt";
    SplitAtSlash(resource);
    ResolveName(root, owner);
    var ownerDir := Resolve(root, owner);
    ResolveName(ownerDir, file);
    assert |file| > 4;
    assert Resolve(ownerDir, file) == ownerDir + [file];
    assert |root + [owner, file]| == |root| + 2;
    if owner !in {".", ".."} {
      assert root + [owner] + [file] == root + [owner, file];
    }
  }

  /** Where a guarded resource leads, whatever its owner part. */
  function FileOf(root: Path, resource: string): Path {
    Enter(root, OwnerOf(resource)) + [LocalOf(resource) + ".txt"]
  }

  lemma GuardedPath(root: Path, resource: string)
    requires Normal(root) && Guard(resource)
    ensures FixturePath(root, resource) == Some(FileOf(root, resource))
  {
    var owner, file := OwnerOf(resource), LocalOf(resource) + ".txt";
    SplitAtSlash(resource);
    ResolveName(root, owner);
    ResolveName(Resolve(root, owner), file);
    assert |file| > 4;
  }

  lemma SameFile(root: Path, a: string, b: string)
    requires FileOf(root, a) == FileOf(root, b)
    ensures Enter(root, OwnerOf(a)) == Enter(root, OwnerOf(b)) && LocalOf(a) == LocalOf(b)
  {
    var p, q := Enter(root, OwnerOf(a)), Enter(root, OwnerOf(b));
    var s, t := LocalOf(a) + ".txt", LocalOf(b) + ".txt";
    assert p == (p + [s])[..|p|] && q == (q + [t])[..|q|];
    assert (p + [s])[|p|] == s && (q + [t])[|q|] == t;
    assert s[..|s| - 4] == LocalOf(a) && t[..|t| - 4] == LocalOf(b);
  }

  /** Entering two owners of one root leads to one directory only for one owner, or for `.` and
      `..` at the root of the file system. */
  lemma SameDirectory(root: Path, x: string, y: string)
    requires x != "" && y != "" && x != y
    ensures Enter(root, x) == Enter(root, y) <==> root == [] && {x, y} == {".", ".."}
  {
    assert Enter(root, x) == root + [x] ==> Enter(root, x)[|root|] == x;
    assert Enter(root, y) == root + [y] ==> Enter(root, y)[|root|] == y;
  }

  /** Owners never share a file: two guarded resources lead to one file if and only if they are
      one resource, or the root is that of the file system, the owners are `.` and `..`, and the
      local parts are equal. */
  lemma OwnersShareNoFile(root: Path, a: string, b: string)
    requires Normal(root) && Guard(a) && Guard(b)
    ensures FixturePath(root, a) == FixturePath(root, b)
       <==> a == b || (root == [] && {OwnerOf(a), OwnerOf(b)} == {".", ".."} && LocalOf(a) == LocalOf(b))
  {
    hide FixturePath, Enter;
    GuardedPath(root, a);
    GuardedPath(root, b);
    SplitAtSlash(a);
    SplitAtSlash(b);
    if OwnerOf(a) != OwnerOf(b) {
      SameDirectory(root, OwnerOf(a), OwnerOf(b));
    }
    if FileOf(root, a) == FileOf(root, b) {
      SameFile(root, a, b);
    }
  }

  /** An accepted order makes the chef read a direct child of that principal's own directory if and
      only if the principal is neither `.` nor `..`; the cashier accepts those two as well. */
  lemma OrderReadsOwnFile(c: Crypto, menu: Menu, policies: seq<Policy>, store: StoreState, order: Order, draw: Draw,
                          root: Path)
    requires c.Lawful() && Normal(root)
    requires ProcessOutcome(c, menu, policies, store, order, draw).Ticketed?
    ensures var ticket := ProcessOutcome(c, menu, policies, store, order, draw).ticket;
      var gate := ChefGate(c, Some(Wire(c, ticket)));
      && gate.Clear? && FixturePath(root, gate.resource).Some?
      && (FixturePath(root, gate.resource) == Some(root + [order.principal, LocalOf(gate.resource) + ".txt"])
          <==> order.principal !in {".", ".."})
  {
    hide ChefGate, ProcessOutcome, InScope, Guard, FixturePath;
    MintedTicketClears(c, menu, policies, store, order, draw);
    var resource := ChefGate(c, Some(Wire(c, ProcessOutcome(c, menu, policies, store, order, draw).ticket))).resource;
    GuardsAgree(resource, order.principal);
    FixturePathExact(root, resource);
  }

  lemma DotDotGuarded()
    ensures Guard("../x")
  {
    SplitOfJoin("..", "x");
    assert ".." + "/" + "x" == "../x" && "../x"[2] == '/';
  }

  /** So principal `..` reads beside the fixtures root instead of below it. */
  lemma DotDotLeavesRoot(root: Path)
    requires Normal(root)
    ensures InScope("..", JStr("../x"))
    ensures FixturePath(root + ["mailbox"], "../x") == Some(root + ["x.txt"])
  {
    hide Guard, FixturePath;
    var base := root + ["mailbox"];
    SplitOfJoin("..", "x");
    GuardsAgree("../x", "..");
    assert ".." + "/" + "x" == "../x" && "../x"[2] == '/';
    DotDotGuarded();
    GuardedPath(base, "../x");
    assert base[..|base| - 1] == root;
    assert "x" + ".txt" == "x.txt";
  }
}
