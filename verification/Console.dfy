/** The operator console: publish, approve and roll back policy under separation of duties, and
    simulate a candidate policy without side effects. */
module Console {
  import opened Wrappers
  import opened Decimal
  import opened Json
  import opened Chain
  import opened ReceiptLedger
  import opened Cashier
  import opened PolicyHistory

  datatype Role = Author | Reviewer
  datatype Admin = Admin(id: string, role: Role)

  /** The typed errors of the service, and an exception it does not handle. */
  datatype Error = BadRequest | NotAllowed | NotFound | Conflict | Unhandled

  datatype Result = Done(seqNo: int, status: VersionStatus, flagged: set<string>) | Failed(error: Error)

  // ---- the candidate ----

  /** `_validate_policy_list` accepts one entry. */
  predicate ValidEntry(p: Json) {
    && p.JObj?
    && Lookup(p.fields, "role").JStr?
    && Lookup(p.fields, "allowed_capabilities").JList?
    && Lookup(p.fields, "rate_limit_per_hour").JInt?
    && ("paused_capabilities" in p.fields ==> p.fields["paused_capabilities"].JList?)
  }

  predicate ValidPolicyList(policies: Json) {
    policies.JList? && policies.items != [] && forall i :: 0 <= i < |policies.items| ==> ValidEntry(policies.items[i])
  }

  /** The `allowed_capabilities` of one entry. */
  function AllowedIn(p: Json): seq<Json> {
    if p.JObj? && Lookup(p.fields, "allowed_capabilities").JList?
    then Lookup(p.fields, "allowed_capabilities").items else []
  }

  predicate EntryGrants(p: Json, id: string) {
    JStr(id) in AllowedIn(p)
  }

  /** The entries of a stored policy list; only lists are ever stored. */
  function EntriesOf(policies: Json): seq<Json> {
    if policies.JList? then policies.items else []
  }

  /** The candidate lists the capability for some role. */
  predicate Grants(policies: Json, id: string) {
    var entries := EntriesOf(policies);
    exists i :: 0 <= i < |entries| && EntryGrants(entries[i], id)
  }

  /** An id that Python cannot look up in the catalog: the service dies on it with `TypeError`. */
  predicate Unhashable(j: Json) {
    j.JList? || j.JObj?
  }

  predicate EntryUnhashable(p: Json) {
    exists j :: j in AllowedIn(p) && Unhashable(j)
  }

  predicate HasUnhashable(policies: Json) {
    var entries := EntriesOf(policies);
    exists i :: 0 <= i < |entries| && EntryUnhashable(entries[i])
  }

  predicate NeedsSecondAdmin(catalog: Menu, id: string) {
    id in catalog && catalog[id].requiresSecondAdmin
  }

  /** `_needs_second_admin`: the capabilities that put the candidate on hold. */
  function Flagged(catalog: Menu, policies: Json): set<string> {
    set id | id in catalog && NeedsSecondAdmin(catalog, id) && Grants(policies, id)
  }

  predicate FlaggedFor(catalog: Menu, p: Json, id: string) {
    NeedsSecondAdmin(catalog, id) && EntryGrants(p, id)
  }

  predicate FlaggedUpTo(catalog: Menu, entries: seq<Json>, n: nat, id: string) {
    exists i :: 0 <= i < n <= |entries| && FlaggedFor(catalog, entries[i], id)
  }

  lemma FlaggedSteps(catalog: Menu, entries: seq<Json>, n: nat)
    requires n < |entries|
    ensures forall id :: FlaggedUpTo(catalog, entries, n + 1, id)
                    <==> FlaggedUpTo(catalog, entries, n, id) || FlaggedFor(catalog, entries[n], id)
  {
    hide FlaggedFor;
  }

  lemma FlaggedWhole(catalog: Menu, policies: Json)
    ensures forall id :: FlaggedUpTo(catalog, EntriesOf(policies), |EntriesOf(policies)|, id)
                    <==> id in Flagged(catalog, policies)
  {
    hide EntryGrants;
    var entries := EntriesOf(policies);
    forall id ensures FlaggedUpTo(catalog, entries, |entries|, id) <==> id in Flagged(catalog, policies) {
      if id in Flagged(catalog, policies) {
        var i :| 0 <= i < |entries| && EntryGrants(entries[i], id);
        assert FlaggedFor(catalog, entries[i], id);
      }
      if FlaggedUpTo(catalog, entries, |entries|, id) {
        var i :| 0 <= i < |entries| && FlaggedFor(catalog, entries[i], id);
        assert EntryGrants(entries[i], id);
      }
    }
  }

  lemma UnhashableEntry(policies: Json, i: nat)
    requires i < |EntriesOf(policies)| && EntryUnhashable(EntriesOf(policies)[i])
    ensures HasUnhashable(policies)
  {
  }

  // ---- the operations, on the history and the file ----

  datatype State = State(history: History, file: Option<Json>)

  const FRESH := State([], None)

  function Append(st: State, v: Version): State {
    var h := st.history + [v];
    State(h, if v.status == Active then Materialized(h, st.file) else st.file)
  }

  predicate IsBlank(reason: Json) {
    !reason.JStr? || Strip(reason.s, IsSpace) == ""
  }

  /** A reason is refused exactly when it is no text, or text of nothing but white space. */
  lemma BlankMeans(reason: Json)
    ensures IsBlank(reason) <==> !reason.JStr? || forall i :: 0 <= i < |reason.s| ==> IsSpace(reason.s[i])
  {
    if reason.JStr? {
      StripEmpties(reason.s, IsSpace);
    }
  }

  function HasRole(admin: Option<Admin>, role: Role): bool {
    admin.Some? && admin.value.role == role
  }

  function ContentVersion(catalog: Menu, policies: Json, author: string, reason: string, versionId: string): Version {
    Version(versionId, policies, author, reason, if Flagged(catalog, policies) == {} then Active else Pending, None)
  }

  function PublishContent(catalog: Menu, st: State, policies: Json, author: string, reason: string,
                          versionId: string): (State, Result)
  {
    if HasUnhashable(policies) then (st, Failed(Unhandled))
    else
      var v := ContentVersion(catalog, policies, author, reason, versionId);
      (Append(st, v), Done(|st.history| + 1, v.status, Flagged(catalog, policies)))
  }

  /** One request to the console. */
  datatype Request =
    | Publish(admin: Option<Admin>, candidate: Json, reason: Json, versionId: string)
    | Approve(admin: Option<Admin>, seqNo: int, versionId: string)
    | Rollback(admin: Option<Admin>, target: Json, reason: Json, versionId: string)

  predicate Exists(h: History, seqNo: int) {
    1 <= seqNo <= |h|
  }

  function ApprovedVersion(target: Version, reviewer: string, seqNo: int, versionId: string): Version {
    Version(versionId, target.policies, target.author,
            "approved proposal seq " + IntText(seqNo) + " (reviewer " + reviewer + ")", Active, Some(reviewer))
  }

  /** What `row["seq"] == target` compares with, as it comes out of a request body: truth values are
      numbers to Python. */
  function NumberOf(target: Json): Option<int> {
    match target
    case JInt(n) => Some(n)
    case JBool(b) => Some(if b then 1 else 0)
    case _ => None
  }

  /** How such a target is printed. */
  function TargetText(target: Json): string {
    match target
    case JInt(n) => IntText(n)
    case JBool(b) => if b then "True" else "False"
    case _ => ""
  }

  predicate Found(h: History, target: Json) {
    NumberOf(target).Some? && Exists(h, NumberOf(target).value)
  }

  function VersionAt(h: History, target: Json): Version
    requires Found(h, target)
  {
    h[NumberOf(target).value - 1]
  }

  function RollbackReason(target: Json, reason: string): string {
    "rollback to seq " + TargetText(target) + ": " + reason
  }

  function Handle(catalog: Menu, st: State, r: Request): (State, Result) {
    match r
    case Publish(admin, candidate, reason, versionId) =>
      if !HasRole(admin, Author) then (st, Failed(NotAllowed))
      else if !ValidPolicyList(candidate) || IsBlank(reason) then (st, Failed(BadRequest))
      else PublishContent(catalog, st, candidate, admin.value.id, reason.s, versionId)
    case Approve(admin, seqNo, versionId) =>
      if !HasRole(admin, Reviewer) then (st, Failed(NotAllowed))
      else if !Exists(st.history, seqNo) then (st, Failed(NotFound))
      else
        var target := st.history[seqNo - 1];
        if target.status != Pending then (st, Failed(Conflict))
        else if target.author == admin.value.id then (st, Failed(NotAllowed))
        else (Append(st, ApprovedVersion(target, admin.value.id, seqNo, versionId)), Done(|st.history| + 1, Active, {}))
    case Rollback(admin, target, reason, versionId) =>
      if !HasRole(admin, Author) then (st, Failed(NotAllowed))
      else if IsBlank(reason) then (st, Failed(BadRequest))
      else if !Found(st.history, target) then (st, Failed(NotFound))
      else
        var text := RollbackReason(target, reason.s);
        PublishContent(catalog, st, VersionAt(st.history, target).policies, admin.value.id, text, versionId)
  }

  function RunAll(catalog: Menu, st: State, requests: seq<Request>): State {
    if requests == [] then st
    else Handle(catalog, RunAll(catalog, st, requests[..|requests| - 1]), requests[|requests| - 1]).0
  }

  // ---- what every history reachable from an empty store satisfies ----

  /** The file holds the policies of the last active version, and exists only with one. */
  predicate FileAgrees(st: State) {
    st.file == Materialized(st.history, None)
  }

  /** A proposal at index j with the same author and policies, still visible as pending. */
  predicate Proposed(h: History, j: int, v: Version) {
    0 <= j < |h| && h[j].status == Pending && h[j].author == v.author && h[j].policies == v.policies
  }

  predicate GrantsSensitive(catalog: Menu, v: Version) {
    exists id :: id in catalog && NeedsSecondAdmin(catalog, id) && Grants(v.policies, id)
  }

  /** Separation of duties at index k. */
  ghost predicate Separated(catalog: Menu, h: History, k: int)
    requires 0 <= k < |h|
  {
    var v := h[k];
    match v.status
    case Pending => v.approvedBy.None?
    case Active =>
      match v.approvedBy
      case None => !GrantsSensitive(catalog, v)
      case Some(reviewer) => reviewer != v.author && exists j :: j < k && Proposed(h, j, v)
  }

  ghost predicate AllSeparated(catalog: Menu, h: History) {
    forall k :: 0 <= k < |h| ==> Separated(catalog, h, k)
  }

  lemma SeparatedByPrefix(catalog: Menu, h: History, v: Version, k: int)
    requires 0 <= k < |h| && Separated(catalog, h, k)
    ensures Separated(catalog, h + [v], k)
  {
    hide GrantsSensitive;
    if h[k].status == Active && h[k].approvedBy.Some? {
      var j :| j < k && Proposed(h, j, h[k]);
      assert Proposed(h + [v], j, h[k]);
    }
  }

  lemma AppendSeparated(catalog: Menu, h: History, v: Version)
    requires AllSeparated(catalog, h) && Separated(catalog, h + [v], |h|)
    ensures AllSeparated(catalog, h + [v])
  {
    hide Separated;
    forall k | 0 <= k < |h + [v]| ensures Separated(catalog, h + [v], k) {
      if k < |h| {
        SeparatedByPrefix(catalog, h, v, k);
      }
    }
  }

  lemma ContentSeparated(catalog: Menu, h: History, policies: Json, author: string, reason: string, versionId: string)
    ensures var v := ContentVersion(catalog, policies, author, reason, versionId);
      Separated(catalog, h + [v], |h|)
  {
    hide Grants, NeedsSecondAdmin;
    var v := ContentVersion(catalog, policies, author, reason, versionId);
    if GrantsSensitive(catalog, v) {
      var id :| id in catalog && NeedsSecondAdmin(catalog, id) && Grants(v.policies, id);
      assert id in Flagged(catalog, policies);
    }
  }

  lemma AppendFile(st: State, v: Version)
    requires FileAgrees(st)
    ensures FileAgrees(Append(st, v))
    ensures v.status == Active ==> Append(st, v).file == Some(FileOf(v.policies))
  {
    var h := st.history + [v];
    assert h[..|h| - 1] == st.history;
  }

  /** One request keeps separation of duties and the agreement of file and history, and only
      ever appends. */
  lemma HandleKeeps(catalog: Menu, st: State, r: Request)
    requires AllSeparated(catalog, st.history) && FileAgrees(st)
    ensures var st' := Handle(catalog, st, r).0;
      AllSeparated(catalog, st'.history) && FileAgrees(st') && st.history <= st'.history
  {
    hide Separated, AllSeparated, FileAgrees, Grants, Flagged, ValidPolicyList, HasUnhashable, Materialized;
    var (st', result) := Handle(catalog, st, r);
    if result.Done? {
      match r
      case Publish(admin, candidate, reason, versionId) =>
        ContentSeparated(catalog, st.history, candidate, admin.value.id, reason.s, versionId);
        AppendFile(st, ContentVersion(catalog, candidate, admin.value.id, reason.s, versionId));
        AppendSeparated(catalog, st.history, ContentVersion(catalog, candidate, admin.value.id, reason.s, versionId));
      case Approve(admin, seqNo, versionId) =>
        var v := ApprovedVersion(st.history[seqNo - 1], admin.value.id, seqNo, versionId);
        ApprovalSeparated(catalog, st.history, seqNo, admin.value.id, versionId);
        AppendFile(st, v);
        AppendSeparated(catalog, st.history, v);
      case Rollback(admin, target, reason, versionId) =>
        var policies, text := VersionAt(st.history, target).policies, RollbackReason(target, reason.s);
        ContentSeparated(catalog, st.history, policies, admin.value.id, text, versionId);
        AppendFile(st, ContentVersion(catalog, policies, admin.value.id, text, versionId));
        AppendSeparated(catalog, st.history, ContentVersion(catalog, policies, admin.value.id, text, versionId));
    }
  }

  lemma ApprovalSeparated(catalog: Menu, h: History, seqNo: int, reviewer: string, versionId: string)
    requires Exists(h, seqNo) && h[seqNo - 1].status == Pending && h[seqNo - 1].author != reviewer
    ensures var v := ApprovedVersion(h[seqNo - 1], reviewer, seqNo, versionId);
      Separated(catalog, h + [v], |h|)
  {
    var v := ApprovedVersion(h[seqNo - 1], reviewer, seqNo, versionId);
    assert Proposed(h + [v], seqNo - 1, v);
  }

  /** Safety over every sequence of requests to a console that started empty, with the catalog
      held fixed: the file always holds exactly the policies of the last active version; every
      active version that grants a second-admin capability was approved by somebody other than
      its author, from an earlier pending version with the same author and policies; and every
      history is a prefix of the later ones. */
  lemma {:induction false} ConsoleSafety(catalog: Menu, requests: seq<Request>)
    ensures var st := RunAll(catalog, FRESH, requests);
      && FileAgrees(st)
      && AllSeparated(catalog, st.history)
      && forall n :: 0 <= n <= |requests| ==> RunAll(catalog, FRESH, requests[..n]).history <= st.history
  {
    hide Handle, AllSeparated, FileAgrees;
    var st := RunAll(catalog, FRESH, requests);
    if requests == [] {
      FreshIsSafe(catalog);
    } else {
      var init := requests[..|requests| - 1];
      ConsoleSafety(catalog, init);
      HandleKeeps(catalog, RunAll(catalog, FRESH, init), requests[|requests| - 1]);
      forall n | 0 <= n <= |requests|
        ensures RunAll(catalog, FRESH, requests[..n]).history <= st.history
      {
        if n < |requests| {
          assert init[..n] == requests[..n];
        } else {
          assert requests[..n] == requests;
        }
      }
    }
  }

  lemma FreshIsSafe(catalog: Menu)
    ensures FileAgrees(FRESH) && AllSeparated(catalog, FRESH.history)
  {
  }

  /** The consequence an auditor reads off one row. */
  lemma SensitiveWasApproved(catalog: Menu, requests: seq<Request>, k: nat)
    requires k < |RunAll(catalog, FRESH, requests).history|
    requires RunAll(catalog, FRESH, requests).history[k].status == Active
    requires GrantsSensitive(catalog, RunAll(catalog, FRESH, requests).history[k])
    ensures var h := RunAll(catalog, FRESH, requests).history;
      && h[k].approvedBy.Some?
      && h[k].approvedBy.value != h[k].author
      && exists j :: j < k && Proposed(h, j, h[k])
  {
    hide GrantsSensitive, RunAll;
    ConsoleSafety(catalog, requests);
    assert Separated(catalog, RunAll(catalog, FRESH, requests).history, k);
  }

  /** Rolling back to a version that needs no second admin makes its policies active again, and
      puts them in the file. */
  lemma RollbackRestores(catalog: Menu, st: State, r: Request)
    requires FileAgrees(st) && r.Rollback? && Handle(catalog, st, r).1.Done?
    ensures var st' := Handle(catalog, st, r).0;
      var target := VersionAt(st.history, r.target);
      if !GrantsSensitive(catalog, target)
      then LastActive(st'.history) == |st.history| && st'.history[|st.history|].policies == target.policies
           && st'.file == Some(FileOf(target.policies))
      else LastActive(st'.history) == LastActive(st.history) && st'.file == st.file
  {
    hide Grants, NeedsSecondAdmin, HasUnhashable, FileAgrees;
    var target := VersionAt(st.history, r.target);
    var text := RollbackReason(r.target, r.reason.s);
    var v := ContentVersion(catalog, target.policies, r.admin.value.id, text, r.versionId);
    SensitiveIsFlagged(catalog, target);
    AppendFile(st, v);
    var h := st.history + [v];
    assert h[..|h| - 1] == st.history;
  }

  lemma SensitiveIsFlagged(catalog: Menu, v: Version)
    ensures GrantsSensitive(catalog, v) <==> Flagged(catalog, v.policies) != {}
  {
    hide Grants, NeedsSecondAdmin;
    var f := Flagged(catalog, v.policies);
    if f != {} {
      var id :| id in f;
      assert NeedsSecondAdmin(catalog, id) && Grants(v.policies, id);
    }
    if GrantsSensitive(catalog, v) {
      var id :| id in catalog && NeedsSecondAdmin(catalog, id) && Grants(v.policies, id);
      assert id in f;
    }
  }

  // ---- who may do what, and what comes of it ----

  /** The requester holds the role. */
  predicate Holds(admin: Option<Admin>, role: Role) {
    admin == Some(Admin(if admin.Some? then admin.value.id else "", role))
  }

  /** One entry of a candidate, as the service demands it. */
  predicate EntryAsDemanded(p: Json) {
    && p.JObj?
    && "role" in p.fields && p.fields["role"].JStr?
    && "allowed_capabilities" in p.fields && p.fields["allowed_capabilities"].JList?
    && "rate_limit_per_hour" in p.fields && p.fields["rate_limit_per_hour"].JInt?
    && ("paused_capabilities" in p.fields ==> p.fields["paused_capabilities"].JList?)
  }

  predicate CandidateAsDemanded(candidate: Json) {
    && candidate.JList? && candidate.items != []
    && forall i :: 0 <= i < |candidate.items| ==> EntryAsDemanded(candidate.items[i])
  }

  lemma CandidateDemanded(candidate: Json)
    ensures ValidPolicyList(candidate) <==> CandidateAsDemanded(candidate)
  {
    if candidate.JList? {
      forall i | 0 <= i < |candidate.items|
        ensures ValidEntry(candidate.items[i]) <==> EntryAsDemanded(candidate.items[i])
      {
      }
    }
  }

  /** Text with something in it other than white space. */
  predicate Says(reason: Json) {
    reason.JStr? && exists i :: 0 <= i < |reason.s| && !IsSpace(reason.s[i])
  }

  /** What the lists of a policy set name, for some role: this value. */
  ghost predicate Names(policies: Json, value: Json) {
    policies.JList? && exists i :: EntryNames(policies.items, i, value)
  }

  predicate EntryNames(entries: seq<Json>, i: int, value: Json) {
    && 0 <= i < |entries| && entries[i].JObj?
    && "allowed_capabilities" in entries[i].fields && entries[i].fields["allowed_capabilities"].JList?
    && value in entries[i].fields["allowed_capabilities"].items
  }

  /** Some list names a list or an object, which no catalog can be asked for. */
  ghost predicate NamesUnhashable(policies: Json) {
    exists value: Json :: (value.JList? || value.JObj?) && Names(policies, value)
  }

  lemma UnhashableMeans(policies: Json)
    ensures HasUnhashable(policies) <==> NamesUnhashable(policies)
  {
    if HasUnhashable(policies) {
      var entries := EntriesOf(policies);
      var i :| 0 <= i < |entries| && EntryUnhashable(entries[i]);
      var j :| j in AllowedIn(entries[i]) && Unhashable(j);
      assert EntryNames(policies.items, i, j);
      assert Names(policies, j);
    }
    if value: Json :| (value.JList? || value.JObj?) && Names(policies, value) {
      var i :| EntryNames(policies.items, i, value);
      assert EntriesOf(policies)[i] == policies.items[i] && value in AllowedIn(policies.items[i]) && Unhashable(value);
      assert EntryUnhashable(EntriesOf(policies)[i]);
    }
  }

  /** A capability that the catalog marks and the policy set names. */
  ghost predicate OnHold(catalog: Menu, policies: Json, id: string) {
    id in catalog && catalog[id].requiresSecondAdmin && Names(policies, JStr(id))
  }

  lemma FlaggedMeans(catalog: Menu, policies: Json, id: string)
    ensures id in Flagged(catalog, policies) <==> OnHold(catalog, policies, id)
  {
    var entries := EntriesOf(policies);
    if id in Flagged(catalog, policies) {
      var i :| 0 <= i < |entries| && EntryGrants(entries[i], id);
      assert EntryNames(policies.items, i, JStr(id));
    }
    if OnHold(catalog, policies, id) {
      var i :| EntryNames(policies.items, i, JStr(id));
      assert EntryGrants(entries[i], id);
    }
  }

  /** The index the rollback target names, true counting as 1. */
  predicate Targets(h: History, target: Json, k: int) {
    0 <= k < |h| && (target == JInt(k + 1) || (target == JBool(true) && k == 0))
  }

  /** When publishing fails, and with what; in every other case it is done. */
  lemma PublishFails(catalog: Menu, st: State, admin: Option<Admin>, candidate: Json, reason: Json, versionId: string)
    ensures var result := Handle(catalog, st, Request.Publish(admin, candidate, reason, versionId)).1;
      && (result == Failed(NotAllowed) <==> !Holds(admin, Author))
      && (result == Failed(BadRequest) <==>
            Holds(admin, Author) && !(CandidateAsDemanded(candidate) && Says(reason)))
      && (result == Failed(Unhandled) <==>
            Holds(admin, Author) && CandidateAsDemanded(candidate) && Says(reason) && NamesUnhashable(candidate))
      && (result.Done? <==>
            Holds(admin, Author) && CandidateAsDemanded(candidate) && Says(reason) && !NamesUnhashable(candidate))
  {
    hide ValidPolicyList, CandidateAsDemanded, HasUnhashable, NamesUnhashable, IsBlank, Flagged;
    CandidateDemanded(candidate);
    BlankMeans(reason);
    UnhashableMeans(candidate);
  }

  /** When approving fails, and with what. */
  lemma ApproveFails(catalog: Menu, st: State, admin: Option<Admin>, seqNo: int, versionId: string)
    ensures var h, result := st.history, Handle(catalog, st, Request.Approve(admin, seqNo, versionId)).1;
      var known, may := 1 <= seqNo <= |h|, Holds(admin, Reviewer);
      && (result == Failed(NotAllowed) <==>
            !may || (known && h[seqNo - 1].status == Pending && h[seqNo - 1].author == admin.value.id))
      && (result == Failed(NotFound) <==> may && !known)
      && (result == Failed(Conflict) <==> may && known && h[seqNo - 1].status == Active)
      && (result.Done? <==>
            may && known && h[seqNo - 1].status == Pending && h[seqNo - 1].author != admin.value.id)
  {
  }

  /** When rolling back fails, and with what. */
  lemma RollbackFails(catalog: Menu, st: State, admin: Option<Admin>, target: Json, reason: Json, versionId: string)
    ensures var h, result := st.history, Handle(catalog, st, Request.Rollback(admin, target, reason, versionId)).1;
      && (result == Failed(NotAllowed) <==> !Holds(admin, Author))
      && (result == Failed(BadRequest) <==> Holds(admin, Author) && !Says(reason))
      && (result == Failed(NotFound) <==>
            Holds(admin, Author) && Says(reason) && forall k :: !Targets(h, target, k))
      && (result == Failed(Unhandled) <==>
            Holds(admin, Author) && Says(reason) && exists k :: Targets(h, target, k) && NamesUnhashable(h[k].policies))
      && (result.Done? <==>
            Holds(admin, Author) && Says(reason)
            && exists k :: Targets(h, target, k) && !NamesUnhashable(h[k].policies))
  {
    hide HasUnhashable, NamesUnhashable, IsBlank, Flagged;
    BlankMeans(reason);
    if Found(st.history, target) {
      var k := NumberOf(target).value - 1;
      assert Targets(st.history, target, k);
      assert forall l :: Targets(st.history, target, l) ==> l == k;
      UnhashableMeans(st.history[k].policies);
    } else {
      assert forall l :: !Targets(st.history, target, l);
    }
  }

  /** What a request leaves: a failed one nothing, a done one exactly one version more, held back
      exactly if it names a capability on hold, with the result naming its seq, its status and those
      capabilities. */
  lemma DoneLeaves(catalog: Menu, st: State, r: Request)
    ensures var (st', result) := Handle(catalog, st, r);
      && (result.Failed? ==> st' == st)
      && (result.Done? ==>
            |st'.history| == |st.history| + 1 && st.history <= st'.history && result.seqNo == |st'.history|
            && st'.history[|st.history|].status == result.status
            && st'.history[|st.history|].versionId == r.versionId)
  {
    hide Flagged, HasUnhashable, ValidPolicyList, IsBlank, Materialized;
  }

  /** The version a publication appends. */
  lemma PublishLeaves(catalog: Menu, st: State, admin: Option<Admin>, candidate: Json, reason: Json, versionId: string)
    requires Handle(catalog, st, Request.Publish(admin, candidate, reason, versionId)).1.Done?
    ensures var (st', result) := Handle(catalog, st, Request.Publish(admin, candidate, reason, versionId));
      && Holds(admin, Author) && reason.JStr? && |st'.history| == |st.history| + 1
      && var v := st'.history[|st.history|];
      && v.author == admin.value.id && v.policies == candidate && v.reason == reason.s && v.approvedBy == None
      && (v.status == Pending <==> exists id :: OnHold(catalog, candidate, id))
      && forall id :: id in result.flagged <==> OnHold(catalog, candidate, id)
  {
    hide Flagged, HasUnhashable, ValidPolicyList, Materialized, OnHold;
    forall id ensures id in Flagged(catalog, candidate) <==> OnHold(catalog, candidate, id) {
      FlaggedMeans(catalog, candidate, id);
    }
    NoneFlagged(catalog, candidate);
  }

  lemma NoneFlagged(catalog: Menu, policies: Json)
    ensures Flagged(catalog, policies) == {} <==> forall id :: !OnHold(catalog, policies, id)
  {
    hide Flagged, OnHold;
    var f := Flagged(catalog, policies);
    forall id ensures id in f <==> OnHold(catalog, policies, id) {
      FlaggedMeans(catalog, policies, id);
    }
    if f != {} {
      var id :| id in f;
      assert OnHold(catalog, policies, id);
    }
  }

  /** The version a rollback appends. */
  lemma RollbackLeaves(catalog: Menu, st: State, admin: Option<Admin>, target: Json, reason: Json, versionId: string,
                       k: int)
    requires Targets(st.history, target, k)
    requires Handle(catalog, st, Request.Rollback(admin, target, reason, versionId)).1.Done?
    ensures var (st', result) := Handle(catalog, st, Request.Rollback(admin, target, reason, versionId));
      var policies := st.history[k].policies;
      && Holds(admin, Author) && reason.JStr? && |st'.history| == |st.history| + 1
      && var v := st'.history[|st.history|];
      && v.author == admin.value.id && v.policies == policies && v.approvedBy == None
      && v.reason == "rollback to seq " + (if target.JInt? then IntText(k + 1) else "True") + ": " + reason.s
      && (v.status == Pending <==> exists id :: OnHold(catalog, policies, id))
      && forall id :: id in result.flagged <==> OnHold(catalog, policies, id)
  {
    hide Flagged, HasUnhashable, Materialized, OnHold, IntText;
    var policies := st.history[k].policies;
    assert VersionAt(st.history, target) == st.history[k];
    assert TargetText(target) == if target.JInt? then IntText(k + 1) else "True";
    forall id ensures id in Flagged(catalog, policies) <==> OnHold(catalog, policies, id) {
      FlaggedMeans(catalog, policies, id);
    }
    NoneFlagged(catalog, policies);
  }

  /** The version an approval appends: the proposal's own content and author, active at once, with
      the reviewer's name on it. */
  lemma ApproveLeaves(catalog: Menu, st: State, admin: Option<Admin>, seqNo: int, versionId: string)
    requires Handle(catalog, st, Request.Approve(admin, seqNo, versionId)).1.Done?
    ensures var (st', result) := Handle(catalog, st, Request.Approve(admin, seqNo, versionId));
      && Holds(admin, Reviewer) && 1 <= seqNo <= |st.history| && |st'.history| == |st.history| + 1
      && var v, proposal := st'.history[|st.history|], st.history[seqNo - 1];
      && v.author == proposal.author && v.policies == proposal.policies
      && v.status == Active && v.approvedBy == Some(admin.value.id) && result.flagged == {}
      && v.reason == "approved proposal seq " + IntText(seqNo) + " (reviewer " + admin.value.id + ")"
  {
    hide Materialized;
  }

  /** Request n of a run came from this admin in this role, and was of this kind. */
  predicate CameFrom(requests: seq<Request>, n: int, approval: bool, id: string) {
    && 0 <= n < |requests|
    && requests[n].Approve? == approval
    && requests[n].admin == Some(Admin(id, if approval then Reviewer else Author))
  }

  /** The row was brought about by a request of the one entitled to it. */
  ghost predicate Entitled(requests: seq<Request>, v: Version) {
    match v.approvedBy
    case None => exists n :: CameFrom(requests, n, false, v.author)
    case Some(reviewer) => exists n :: CameFrom(requests, n, true, reviewer)
  }

  lemma EntitledLonger(requests: seq<Request>, r: Request, v: Version)
    requires Entitled(requests, v)
    ensures Entitled(requests + [r], v)
  {
    match v.approvedBy
    case None =>
      var n :| CameFrom(requests, n, false, v.author);
      assert CameFrom(requests + [r], n, false, v.author);
    case Some(reviewer) =>
      var n :| CameFrom(requests, n, true, reviewer);
      assert CameFrom(requests + [r], n, true, reviewer);
  }

  lemma NewRowEntitled(catalog: Menu, st: State, requests: seq<Request>, r: Request)
    requires Handle(catalog, st, r).1.Done?
    ensures |Handle(catalog, st, r).0.history| == |st.history| + 1
    ensures Entitled(requests + [r], Handle(catalog, st, r).0.history[|st.history|])
  {
    hide Handle, Holds;
    var all, n := requests + [r], |requests|;
    assert all[n] == r;
    match r
    case Publish(admin, candidate, reason, versionId) =>
      PublishLeaves(catalog, st, admin, candidate, reason, versionId);
      HoldsMeans(admin, Author);
      assert CameFrom(all, n, false, admin.value.id);
    case Approve(admin, seqNo, versionId) =>
      ApproveLeaves(catalog, st, admin, seqNo, versionId);
      HoldsMeans(admin, Reviewer);
      assert CameFrom(all, n, true, admin.value.id);
    case Rollback(admin, target, reason, versionId) =>
      RollbackFails(catalog, st, admin, target, reason, versionId);
      var k :| Targets(st.history, target, k);
      RollbackLeaves(catalog, st, admin, target, reason, versionId, k);
      HoldsMeans(admin, Author);
      assert CameFrom(all, n, false, admin.value.id);
  }

  lemma HoldsMeans(admin: Option<Admin>, role: Role)
    ensures Holds(admin, role) <==> admin.Some? && admin.value.role == role
  {
  }

  /** Over every run from an empty store: a row without an approver was published or rolled back to
      by its author, who held the author role, and an approved row was approved by the one named, who
      held the reviewer role. */
  lemma {:induction false} RowsEntitled(catalog: Menu, requests: seq<Request>, k: nat)
    requires k < |RunAll(catalog, FRESH, requests).history|
    ensures Entitled(requests, RunAll(catalog, FRESH, requests).history[k])
  {
    hide Handle, Entitled;
    if requests != [] {
      var init, r := requests[..|requests| - 1], requests[|requests| - 1];
      var st := RunAll(catalog, FRESH, init);
      assert requests == init + [r];
      DoneLeaves(catalog, st, r);
      if k < |st.history| {
        RowsEntitled(catalog, init, k);
        EntitledLonger(init, r, st.history[k]);
      } else {
        NewRowEntitled(catalog, st, init, r);
      }
    }
  }

  /** Over every run the file, if there is one, is the object that holds under `policies` those of
      the last active row, and there is one exactly if some row is active. */
  lemma FileIsLastActive(catalog: Menu, requests: seq<Request>, k: nat)
    requires k < |RunAll(catalog, FRESH, requests).history|
    requires RunAll(catalog, FRESH, requests).history[k].status == Active
    requires forall i :: k < i < |RunAll(catalog, FRESH, requests).history|
                         ==> RunAll(catalog, FRESH, requests).history[i].status == Pending
    ensures var st := RunAll(catalog, FRESH, requests);
      st.file == Some(JObj(map["policies" := st.history[k].policies]))
  {
    hide RunAll, AllSeparated;
    ConsoleSafety(catalog, requests);
    assert LastActive(RunAll(catalog, FRESH, requests).history) == k;
  }

  lemma NoFileWithoutActive(catalog: Menu, requests: seq<Request>)
    requires forall i :: 0 <= i < |RunAll(catalog, FRESH, requests).history|
                         ==> RunAll(catalog, FRESH, requests).history[i].status == Pending
    ensures RunAll(catalog, FRESH, requests).file == None
  {
    hide RunAll, AllSeparated;
    ConsoleSafety(catalog, requests);
  }

  /** Separation of duties, said of the catalog and the stored policies themselves. */
  lemma NamedWasApproved(catalog: Menu, requests: seq<Request>, k: nat, id: string)
    requires k < |RunAll(catalog, FRESH, requests).history|
    requires RunAll(catalog, FRESH, requests).history[k].status == Active
    requires OnHold(catalog, RunAll(catalog, FRESH, requests).history[k].policies, id)
    ensures var h := RunAll(catalog, FRESH, requests).history;
      && h[k].approvedBy.Some? && h[k].approvedBy.value != h[k].author
      && exists j :: 0 <= j < k && h[j].status == Pending
                     && h[j].author == h[k].author && h[j].policies == h[k].policies
  {
    hide RunAll, OnHold, Grants, NeedsSecondAdmin, Flagged;
    var h := RunAll(catalog, FRESH, requests).history;
    FlaggedMeans(catalog, h[k].policies, id);
    SensitiveIsFlagged(catalog, h[k]);
    SensitiveWasApproved(catalog, requests, k);
    var j :| j < k && Proposed(h, j, h[k]);
  }

  // ---- simulation ----

  /** The strings among the items: nothing else can equal a capability id. */
  function Texts(items: seq<Json>): seq<string> {
    if items == [] then []
    else (if items[0].JStr? then [items[0].s] else []) + Texts(items[1..])
  }

  lemma {:induction false} TextsMean(items: seq<Json>, t: string)
    ensures t in Texts(items) <==> JStr(t) in items
  {
    if items != [] {
      TextsMean(items[1..], t);
      assert items == [items[0]] + items[1..];
    }
  }

  /** One entry of the candidate as the engine takes it. */
  function PolicyOf(p: Json): Policy
    requires ValidEntry(p)
  {
    Policy(p.fields["role"].s, Texts(AllowedIn(p)), p.fields["rate_limit_per_hour"].n,
           if "paused_capabilities" in p.fields then Texts(p.fields["paused_capabilities"].items) else [])
  }

  /** `_candidate_policy_set`. */
  function PoliciesOf(candidate: Json): (policies: seq<Policy>)
    requires ValidPolicyList(candidate)
    ensures |policies| == |candidate.items|
  {
    seq(|candidate.items|, i requires 0 <= i < |candidate.items| => PolicyOf(candidate.items[i]))
  }

  /** What is wrong with a sample, if anything. A list or object for a capability id makes the
      menu lookup raise. */
  function SampleError(s: Json): (e: Option<Error>)
    ensures e.Some? ==> e.value in {BadRequest, Unhandled}
  {
    if !s.JObj? || "principal" !in s.fields || "role" !in s.fields || "capability_id" !in s.fields then Some(BadRequest)
    else if Unhashable(s.fields["capability_id"]) then Some(Unhandled)
    else None
  }

  /** A sample is bad exactly when it is no object or lacks one of three keys; it makes the service
      die exactly when its capability id is a list or an object. */
  lemma SampleErrorMeans(s: Json)
    ensures SampleError(s) == Some(BadRequest)
       <==> !(s.JObj? && {"principal", "role", "capability_id"} <= s.fields.Keys)
    ensures SampleError(s) == Some(Unhandled)
       <==> s.JObj? && {"principal", "role", "capability_id"} <= s.fields.Keys
            && (s.fields["capability_id"].JList? || s.fields["capability_id"].JObj?)
  {
  }

  function FirstSampleError(samples: seq<Json>): (e: Option<Error>)
    ensures e.None? <==> forall i :: 0 <= i < |samples| ==> SampleError(samples[i]).None?
  {
    if samples == [] then None
    else if SampleError(samples[0]).Some? then SampleError(samples[0])
    else
      var rest := samples[1..];
      assert forall i :: 1 <= i < |samples| ==> samples[i] == rest[i - 1];
      FirstSampleError(rest)
  }

  /** The verdict on one sample. Nothing about a sample is typed: an id that is no string is on
      no menu, a role that is none has no policy, a principal that is none owns nothing. */
  function SampleVerdict(catalog: Menu, policies: seq<Policy>, s: Fields, now: real): Decision {
    var id, role := Lookup(s, "capability_id"), Lookup(s, "role");
    if !id.JStr? || id.s !in catalog then Deny(OFF_MENU)
    else if !role.JStr? then Deny(ROLE_NOT_PERMITTED)
    else EvaluateOrder(Order("sim", TextOf(Lookup(s, "principal")), role.s, id.s, SampleArgs(s), "sim", "simulation"),
                       catalog, policies, EMPTY_STORE, now)
  }

  /** Samples that no order could be: an id that is no text, or no menu item, is off the menu; a role
      that is no text is not permitted; and a principal that is no text is never allowed. */
  lemma OddSamples(catalog: Menu, policies: seq<Policy>, s: Fields, now: real)
    requires {"principal", "role", "capability_id"} <= s.Keys
    ensures var id, verdict := s["capability_id"], SampleVerdict(catalog, policies, s, now);
      && (!id.JStr? || id.s !in catalog ==> verdict == Deny(OFF_MENU))
      && (id.JStr? && id.s in catalog && !s["role"].JStr? ==> verdict == Deny(ROLE_NOT_PERMITTED))
      && (!s["principal"].JStr? ==> verdict.Deny?)
  {
    hide ForRole, RateCount, HasControl, LocalUnsafe;
  }

  /** `s.get("args", {})`. */
  function SampleArgs(s: Fields): Json {
    if "args" in s then s["args"] else JObj(map[])
  }

  datatype Simulation = Simulated(results: seq<Decision>) | Rejected(error: Error)

  // ---- the service ----

  class ConsoleService {
    const catalog: Menu
    const store: PolicyStore
    const file: PolicyFile

    constructor (catalog: Menu, store: PolicyStore, file: PolicyFile)
      ensures this.catalog == catalog && this.store == store && this.file == file
    {
      this.catalog := catalog;
      this.store := store;
      this.file := file;
    }

    ghost function Now(): State
      reads this, store, file
    {
      State(store.history, file.content)
    }

    /** `_find_version`. */
    method FindVersion(target: Json) returns (found: Option<Version>)
      requires store.Valid()
      ensures found == if Found(store.history, target) then Some(VersionAt(store.history, target)) else None
    {
      hide TableOf, NumberOf;
      var vs := store.ReadAll();
      var wanted := NumberOf(target);
      for i := 0 to |vs|
        invariant wanted.Some? ==> !(1 <= wanted.value <= i)
      {
        if wanted == Some(i + 1) {
          return Some(vs[i]);
        }
      }
      found := None;
    }

    /** `_needs_second_admin`; `None` is the exception on an id that cannot be looked up. */
    method FlaggedBy(policies: Json) returns (flagged: Option<set<string>>)
      ensures flagged == if HasUnhashable(policies) then None else Some(Flagged(catalog, policies))
    {
      hide NeedsSecondAdmin, AllowedIn, Unhashable;
      var found: set<string> := {};
      var entries := EntriesOf(policies);
      for i := 0 to |entries|
        invariant forall k :: 0 <= k < i ==> !EntryUnhashable(entries[k])
        invariant forall id :: id in found <==> FlaggedUpTo(catalog, entries, i, id)
      {
        var here := FlaggedInEntry(entries[i]);
        if here.None? {
          UnhashableEntry(policies, i);
          return None;
        }
        FlaggedSteps(catalog, entries, i);
        found := found + here.value;
      }
      FlaggedWhole(catalog, policies);
      assert found == Flagged(catalog, policies);
      flagged := Some(found);
    }

    method FlaggedInEntry(p: Json) returns (flagged: Option<set<string>>)
      ensures flagged.None? <==> EntryUnhashable(p)
      ensures flagged.Some? ==> forall id :: id in flagged.value <==> FlaggedFor(catalog, p, id)
    {
      var found: set<string> := {};
      var ids := AllowedIn(p);
      for j := 0 to |ids|
        invariant forall k :: 0 <= k < j ==> !Unhashable(ids[k])
        invariant forall id :: id in found <==> JStr(id) in ids[..j] && NeedsSecondAdmin(catalog, id)
      {
        if Unhashable(ids[j]) {
          return None;
        }
        if ids[j].JStr? && NeedsSecondAdmin(catalog, ids[j].s) {
          found := found + {ids[j].s};
        }
        assert ids[..j + 1] == ids[..j] + [ids[j]];
      }
      assert ids[..|ids|] == ids;
      flagged := Some(found);
    }

    method PublishVersion(policies: Json, author: string, reason: string, versionId: string) returns (result: Result)
      requires store.Valid()
      modifies store, file
      ensures store.Valid()
      ensures (Now(), result) == PublishContent(catalog, old(Now()), policies, author, reason, versionId)
    {
      hide Flagged, HasUnhashable, Materialized, TableOf;
      var needing := FlaggedBy(policies);
      if needing.None? {
        return Failed(Unhandled);
      }
      var flagged := needing.value;
      var status := if flagged == {} then Active else Pending;
      var seqNo := store.AppendVersion(Version(versionId, policies, author, reason, status, None));
      if status == Active {
        store.MaterializeActive(file);
      }
      result := Done(seqNo, status, flagged);
    }

    method Publish(admin: Option<Admin>, candidate: Json, reason: Json, versionId: string) returns (result: Result)
      requires store.Valid()
      modifies store, file
      ensures store.Valid()
      ensures (Now(), result) == Handle(catalog, old(Now()), Request.Publish(admin, candidate, reason, versionId))
    {
      hide PublishContent, ValidPolicyList, TableOf;
      if !HasRole(admin, Author) {
        return Failed(NotAllowed);
      }
      if !ValidPolicyList(candidate) {
        return Failed(BadRequest);
      }
      if IsBlank(reason) {
        return Failed(BadRequest);
      }
      result := PublishVersion(candidate, admin.value.id, reason.s, versionId);
    }

    method Approve(admin: Option<Admin>, seqNo: int, versionId: string) returns (result: Result)
      requires store.Valid()
      modifies store, file
      ensures store.Valid()
      ensures (Now(), result) == Handle(catalog, old(Now()), Request.Approve(admin, seqNo, versionId))
    {
      hide Materialized, TableOf;
      if !HasRole(admin, Reviewer) {
        return Failed(NotAllowed);
      }
      var target := FindVersion(JInt(seqNo));
      if target.None? {
        return Failed(NotFound);
      }
      if target.value.status != Pending {
        return Failed(Conflict);
      }
      if target.value.author == admin.value.id {
        return Failed(NotAllowed);
      }
      var newSeq := store.AppendVersion(ApprovedVersion(target.value, admin.value.id, seqNo, versionId));
      store.MaterializeActive(file);
      result := Done(newSeq, Active, {});
    }

    method Rollback(admin: Option<Admin>, target: Json, reason: Json, versionId: string) returns (result: Result)
      requires store.Valid()
      modifies store, file
      ensures store.Valid()
      ensures (Now(), result) == Handle(catalog, old(Now()), Request.Rollback(admin, target, reason, versionId))
    {
      hide PublishContent, TableOf;
      if !HasRole(admin, Author) {
        return Failed(NotAllowed);
      }
      if IsBlank(reason) {
        return Failed(BadRequest);
      }
      var found := FindVersion(target);
      if found.None? {
        return Failed(NotFound);
      }
      result := PublishVersion(found.value.policies, admin.value.id, RollbackReason(target, reason.s), versionId);
    }

    /** `simulate`: each sample against a throwaway store; nothing is modified. */
    method Simulate(admin: Option<Admin>, candidate: Json, samples: Json, now: real) returns (r: Simulation)
      ensures r == Rejected(NotAllowed) <==> admin.None? || admin.value.role != Author
      ensures HasRole(admin, Author) && (!ValidPolicyList(candidate) || !samples.JList? || samples.items == []) ==>
        r == Rejected(BadRequest)
      ensures HasRole(admin, Author) && ValidPolicyList(candidate) && samples.JList? && samples.items != [] ==>
        match FirstSampleError(samples.items)
        case Some(error) => r == Rejected(error)
        case None =>
          && r.Simulated? && |r.results| == |samples.items|
          && (forall i :: 0 <= i < |samples.items| ==> SampleError(samples.items[i]).None?)
          && forall i :: 0 <= i < |samples.items| ==>
               r.results[i] == SampleVerdict(catalog, PoliciesOf(candidate), samples.items[i].fields, now)
    {
      hide SampleVerdict, ValidPolicyList, ValidEntry, PoliciesOf, SampleError;
      if !HasRole(admin, Author) {
        return Rejected(NotAllowed);
      }
      if !ValidPolicyList(candidate) || !samples.JList? || samples.items == [] {
        return Rejected(BadRequest);
      }
      var policies, items := PoliciesOf(candidate), samples.items;
      var results: seq<Decision> := [];
      for i := 0 to |items|
        invariant |results| == i
        invariant forall j :: 0 <= j < i ==> SampleError(items[j]).None? && items[j].JObj?
                                             && results[j] == SampleVerdict(catalog, policies, items[j].fields, now)
      {
        if SampleError(items[i]).Some? {
          FirstErrorIs(items, i);
          return Rejected(SampleError(items[i]).value);
        }
        SampleIsObject(items[i]);
        results := results + [SampleVerdict(catalog, policies, items[i].fields, now)];
      }
      r := Simulated(results);
    }
  }

  lemma SampleIsObject(s: Json)
    requires SampleError(s).None?
    ensures s.JObj?
  {
  }

  lemma {:induction false} FirstErrorIs(samples: seq<Json>, i: nat)
    requires i < |samples| && SampleError(samples[i]).Some?
    requires forall j :: 0 <= j < i ==> SampleError(samples[j]).None?
    ensures FirstSampleError(samples) == SampleError(samples[i])
  {
    if i > 0 {
      FirstErrorIs(samples[1..], i - 1);
    }
  }

  /** Simulation is faithful to the live cashier, whatever its store: a simulated allow is a live
      allow or a rate refusal, and a simulated denial is a live denial for the same reason. */
  lemma SimulateFaithful(s: Fields, order: Order, menu: Menu, candidate: Json, live: StoreState, simNow: real,
                         now: real)
    requires ValidPolicyList(candidate)
    requires Lookup(s, "principal") == JStr(order.principal) && Lookup(s, "role") == JStr(order.role)
    requires Lookup(s, "capability_id") == JStr(order.capabilityId) && SampleArgs(s) == order.args
    requires order.nonce !in live.spent
    ensures var policies := PoliciesOf(candidate);
      var simulated := SampleVerdict(menu, policies, s, simNow);
      var actual := EvaluateOrder(order, menu, policies, live, now);
      if simulated.Allow?
      then actual == (if RateCount(live.Stamps(order.Key()), now) < ForRole(policies, order.role).value.limit
                      then simulated else Deny(RATE_LIMITED))
      else actual == simulated
  {
    hide InScope, ValidPolicyList, PoliciesOf, SampleArgs;
    assert EMPTY_STORE.Stamps(order.Key()) == [];
  }

  /** The engine sees of the candidate exactly what it says: per entry the role, the limit, and as
      granted and as paused the ids its two lists name, whatever else they contain. */
  lemma CandidateMeans(candidate: Json, i: nat, id: string)
    requires ValidPolicyList(candidate) && i < |candidate.items|
    ensures var p, entry := PoliciesOf(candidate)[i], candidate.items[i].fields;
      && entry["role"] == JStr(p.role) && entry["rate_limit_per_hour"] == JInt(p.limit)
      && (id in p.allowed <==> EntryGrants(candidate.items[i], id))
      && (id in p.paused <==> "paused_capabilities" in entry && JStr(id) in entry["paused_capabilities"].items)
  {
    var entry := candidate.items[i].fields;
    TextsMean(AllowedIn(candidate.items[i]), id);
    if "paused_capabilities" in entry {
      TextsMean(entry["paused_capabilities"].items, id);
    }
  }
}
