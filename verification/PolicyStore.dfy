/** The versioned policy history: an append-only signed chain of its own, and the file the
    engine loads. */
module PolicyHistory {
  import opened Wrappers
  import opened Json
  import opened Chain
  import opened Tamper

  datatype VersionStatus = Active | Pending
  {
    function Name(): string {
      match this
      case Active => "active"
      case Pending => "pending"
    }
  }

  datatype Version = Version(
    versionId: string,
    policies: Json,
    author: string,
    reason: string,
    status: VersionStatus,
    approvedBy: Option<string>)
  {
    function Body(): Fields {
      map["version_id" := JStr(versionId),
          "policies" := policies,
          "author" := JStr(author),
          "reason" := JStr(reason),
          "status" := JStr(status.Name()),
          "approved_by" := (match approvedBy case None => JNull case Some(a) => JStr(a))]
    }
  }

  /** Version number `seq` is history[seq - 1]. */
  type History = seq<Version>

  function VersionRow(c: Crypto, rows: Table, v: Version): Entry {
    Entry(|rows| + 1, Parsed(JObj(Sealed(c, v.Body(), JStr(PrevAt(c, Domain.Policies, rows, |rows|))))))
  }

  /** The stored table of a history that `append_version` built from nothing. */
  function TableOf(c: Crypto, h: History): (rows: Table)
    ensures |rows| == |h|
  {
    if h == [] then []
    else
      var rows := TableOf(c, h[..|h| - 1]);
      rows + [VersionRow(c, rows, h[|h| - 1])]
  }

  lemma VersionIsBody(v: Version)
    ensures IsBody(Domain.Policies, v.Body())
  {
    var keys := Domain.Policies.Required();
    forall k | k in keys && k != "prev_hash" ensures k in v.Body() {
      var i :| 0 <= i < |keys| && keys[i] == k;
      assert i != 6;
    }
  }

  /** The policy verifier accepts every history the store can have written. */
  lemma {:induction false} HistoryVerifies(c: Crypto, h: History)
    requires c.Lawful()
    ensures VerdictOf(c, Domain.Policies, TableOf(c, h)) == Verified(|h|)
    ensures Accepted(c, Domain.Policies, TableOf(c, h))
  {
    hide Sealed, Canonical, Accepted, VerdictOf;
    if h != [] {
      var rows := TableOf(c, h[..|h| - 1]);
      HistoryVerifies(c, h[..|h| - 1]);
      VersionIsBody(h[|h| - 1]);
      AppendAccepted(c, Domain.Policies, rows, h[|h| - 1].Body(), |rows| + 1);
    } else {
      EmptyAccepted(c);
    }
    VerifiedMeansAccepted(c, Domain.Policies, TableOf(c, h));
  }

  lemma EmptyAccepted(c: Crypto)
    ensures Accepted(c, Domain.Policies, [])
  {
  }

  /** The index of the most recent active version, or -1. */
  function LastActive(h: History): (k: int)
    ensures -1 <= k < |h|
    ensures k >= 0 ==> h[k].status == Active
    ensures forall i :: k < i < |h| ==> h[i].status != Active
  {
    if h == [] then -1
    else if h[|h| - 1].status == Active then |h| - 1
    else
      var init := h[..|h| - 1];
      LastActive(init)
  }

  function FileOf(policies: Json): Json {
    JObj(map["policies" := policies])
  }

  /** What the file holds after `materialize_active`, given what it held before. */
  function Materialized(h: History, file: Option<Json>): Option<Json> {
    if LastActive(h) < 0 then file else Some(FileOf(h[LastActive(h)].policies))
  }

  /** Reads one stored row back. */
  function VersionOf(row: Fields): Version {
    Version(TextOf(Lookup(row, "version_id")), Lookup(row, "policies"), TextOf(Lookup(row, "author")),
            TextOf(Lookup(row, "reason")), if Lookup(row, "status") == JStr("active") then Active else Pending,
            if Lookup(row, "approved_by").JStr? then Some(Lookup(row, "approved_by").s) else None)
  }

  function TextOf(j: Json): string {
    if j.JStr? then j.s else ""
  }

  lemma VersionSurvives(c: Crypto, v: Version, prev: Json)
    ensures VersionOf(Sealed(c, v.Body(), prev)) == v
  {
    hide Canonical;
    var row := Sealed(c, v.Body(), prev);
    assert row["version_id"] == JStr(v.versionId) && row["policies"] == v.policies && row["author"] == JStr(v.author);
    assert row["reason"] == JStr(v.reason) && row["status"] == JStr(v.status.Name());
    assert row["approved_by"] == (match v.approvedBy case None => JNull case Some(a) => JStr(a));
    assert "active"[0] != "pending"[0];
  }

  lemma BodyStored(c: Crypto, v: Version, prev: Json)
    ensures var row := Sealed(c, v.Body(), prev);
      && row.Keys == {"version_id", "policies", "author", "reason", "status", "approved_by", "prev_hash", "this_hash",
                      "sig"}
      && row["version_id"] == JStr(v.versionId) && row["policies"] == v.policies
      && row["author"] == JStr(v.author) && row["reason"] == JStr(v.reason)
      && row["status"] == JStr(if v.status.Active? then "active" else "pending")
      && row["approved_by"] == (if v.approvedBy.Some? then JStr(v.approvedBy.value) else JNull)
  {
    hide Canonical;
  }

  /** What the last row of the history stores, key by key, under the next seq. */
  lemma VersionStored(c: Crypto, h: History)
    requires h != []
    ensures var rows, v := TableOf(c, h), h[|h| - 1];
      && IsRow(rows, |h| - 1) && rows[|h| - 1].seqNo == |h|
      && var row := RowAt(rows, |h| - 1);
      && row.Keys == {"version_id", "policies", "author", "reason", "status", "approved_by", "prev_hash", "this_hash",
                      "sig"}
      && row["version_id"] == JStr(v.versionId) && row["policies"] == v.policies
      && row["author"] == JStr(v.author) && row["reason"] == JStr(v.reason)
      && row["status"] == JStr(if v.status.Active? then "active" else "pending")
      && row["approved_by"] == (if v.approvedBy.Some? then JStr(v.approvedBy.value) else JNull)
  {
    hide Canonical, PrevAt, Sealed, Version.Body;
    var rows := TableOf(c, h[..|h| - 1]);
    BodyStored(c, h[|h| - 1], JStr(PrevAt(c, Domain.Policies, rows, |rows|)));
  }

  lemma {:induction false} RowsOfTable(c: Crypto, h: History, k: nat)
    requires k < |h|
    ensures var rows := TableOf(c, h);
      IsRow(rows, k) && VersionOf(RowAt(rows, k)) == h[k] && rows[k].seqNo == k + 1
  {
    hide Sealed, VersionOf, PrevAt;
    var init := h[..|h| - 1];
    if k < |init| {
      RowsOfTable(c, init, k);
    } else {
      var rows := TableOf(c, init);
      VersionSurvives(c, h[k], JStr(PrevAt(c, Domain.Policies, rows, |rows|)));
    }
  }

  lemma TableHead(c: Crypto, h: History)
    requires h != []
    ensures HeadReadable(TableOf(c, h)) && HeadLink(c, Domain.Policies, TableOf(c, h)).JStr?
  {
    hide Canonical, PrevAt;
    var rows := TableOf(c, h[..|h| - 1]);
    var last := Sealed(c, h[|h| - 1].Body(), JStr(PrevAt(c, Domain.Policies, rows, |rows|)));
    assert "this_hash" in last && last["this_hash"].JStr?;
  }

  class PolicyFile {
    var content: Option<Json>

    constructor ()
      ensures content == None
    {
      content := None;
    }
  }

  class PolicyStore {
    const c: Crypto
    var rows: Table
    ghost var history: History

    ghost predicate Valid()
      reads this
    {
      rows == TableOf(c, history)
    }

    constructor (c: Crypto)
      ensures Valid() && history == [] && this.c == c
    {
      this.c := c;
      rows := [];
      history := [];
    }

    /** The hash the next version links to. */
    method HeadHash() returns (h: string)
      requires Valid()
      ensures h == PrevAt(c, Domain.Policies, rows, |rows|)
    {
      hide TableOf;
      if rows == [] {
        h := Genesis(c, Domain.Policies);
      } else {
        TableHead(c, history);
        h := rows[|rows| - 1].text.value.fields["this_hash"].s;
      }
    }

    /** `append_version`: links, hashes and signs the version, inserts it, and returns its seq. */
    method AppendVersion(v: Version) returns (seqNo: int)
      requires Valid()
      modifies this
      ensures Valid() && history == old(history) + [v] && seqNo == |history|
    {
      hide PrevAt, Canonical;
      var prevHash := HeadHash();
      var content := v.Body()["prev_hash" := JStr(prevHash)];
      var thisHash := c.digest(Canonical(JObj(content)));
      var rawSig := c.sign(thisHash);
      var row := content["this_hash" := JStr(thisHash)]["sig" := JStr(c.encode(rawSig))];
      assert (history + [v])[..|history|] == history;
      rows := rows + [Entry(|rows| + 1, Parsed(JObj(row)))];
      history := history + [v];
      seqNo := |rows|;
    }

    /** `read_all`. */
    method ReadAll() returns (vs: seq<Version>)
      requires Valid()
      ensures vs == history
    {
      hide TableOf, VersionOf;
      vs := [];
      for i := 0 to |rows|
        invariant vs == history[..i]
      {
        RowsOfTable(c, history, i);
        vs := vs + [VersionOf(rows[i].text.value.fields)];
      }
    }

    /** `active_version`: the backwards scan. */
    method ActiveVersion() returns (active: Option<Version>)
      requires Valid()
      ensures active == if LastActive(history) < 0 then None else Some(history[LastActive(history)])
    {
      hide TableOf;
      var vs := ReadAll();
      var i := |vs|;
      assert vs[..i] == vs;
      while i > 0
        invariant 0 <= i <= |vs|
        invariant LastActive(vs[..i]) == LastActive(vs)
      {
        i := i - 1;
        assert vs[..i + 1][..i] == vs[..i];
        if vs[i].status == Active {
          return Some(vs[i]);
        }
      }
      active := None;
    }

    /** `materialize_active`. */
    method MaterializeActive(file: PolicyFile)
      requires Valid()
      modifies file
      ensures file.content == Materialized(history, old(file.content))
    {
      var active := ActiveVersion();
      if active.Some? {
        file.content := Some(FileOf(active.value.policies));
      }
    }
  }
}
