/** Tamper evidence: what an accepted table pins down, up to a hash collision among the texts
    that were actually hashed. SHA-256 has collisions somewhere, so "or a collision exists"
    would say nothing; every collision here is between two texts of the tables at hand. */
module Tamper {
  import opened Wrappers
  import opened Json
  import JsonText
  import opened Chain

  /** The text hashed into row k. */
  function BytesAt(rows: Table, k: int): string
    requires 0 <= k < |rows|
  {
    if IsRow(rows, k) then Canonical(Hashed(RowAt(rows, k))) else ""
  }

  function ContentAt(rows: Table, k: int): Json
    requires 0 <= k < |rows|
  {
    if IsRow(rows, k) then Hashed(RowAt(rows, k)) else JNull
  }

  /** `this_hash` of row k in an accepted table. */
  function HashAt(c: Crypto, rows: Table, k: int): string
    requires 0 <= k < |rows|
  {
    c.digest(BytesAt(rows, k))
  }

  /** The hash the next row would link to. */
  function HeadHash(c: Crypto, dom: Domain, rows: Table): string {
    if rows == [] then Genesis(c, dom) else HashAt(c, rows, |rows| - 1)
  }

  /** Everything hashed while verifying the table: its genesis seed and its rows. */
  ghost function Preimages(dom: Domain, rows: Table): set<string> {
    {dom.Seed()} + set k | 0 <= k < |rows| :: BytesAt(rows, k)
  }

  ghost predicate Collides(c: Crypto, texts: set<string>) {
    exists x, y :: x in texts && y in texts && x != y && c.digest(x) == c.digest(y)
  }

  lemma CollidesMonotone(c: Crypto, s: set<string>, t: set<string>)
    requires s <= t && Collides(c, s)
    ensures Collides(c, t)
  {
    var x, y :| x in s && y in s && x != y && c.digest(x) == c.digest(y);
    assert x in t && y in t;
  }

  lemma CollidesInUnion(c: Crypto, s: set<string>, s': set<string>, t: set<string>)
    requires s <= t && s' <= t && Collides(c, s + s')
    ensures Collides(c, t)
  {
    CollidesMonotone(c, s + s', t);
  }

  lemma CollisionOf(c: Crypto, texts: set<string>, x: string, y: string)
    requires x in texts && y in texts && c.digest(x) == c.digest(y)
    ensures x == y || Collides(c, texts)
  {
  }

  lemma RowHashed(dom: Domain, rows: Table, k: nat)
    requires k < |rows|
    ensures BytesAt(rows, k) in Preimages(dom, rows)
  {
  }

  lemma PreimagesOfPrefix(dom: Domain, rows: Table, n: nat)
    requires n <= |rows|
    ensures Preimages(dom, rows[..n]) <= Preimages(dom, rows)
  {
    forall x | x in Preimages(dom, rows[..n]) ensures x in Preimages(dom, rows) {
      if x != dom.Seed() {
        var k :| 0 <= k < n && x == BytesAt(rows[..n], k);
        assert x == BytesAt(rows, k);
      }
    }
  }

  // ---- accepted tables ----

  /** Row k of an accepted table is readable, self-hashed, and links to what the verifier
      expects there. */
  lemma AcceptedFields(c: Crypto, dom: Domain, rows: Table, k: nat)
    requires Accepted(c, dom, rows) && k < |rows|
    ensures IsRow(rows, k)
    ensures var row := RowAt(rows, k);
      && "this_hash" in row && row["this_hash"] == JStr(HashAt(c, rows, k))
      && "prev_hash" in row && row["prev_hash"] == JStr(PrevAt(c, dom, rows, k))
  {
    assert FaultAt(c, dom, rows, k) == Clean;
    CleanRow(c, dom, PrevAt(c, dom, rows, k), rows[k].text);
  }

  lemma PrevIsHead(c: Crypto, dom: Domain, rows: Table, k: nat)
    requires Accepted(c, dom, rows) && k <= |rows|
    ensures PrevAt(c, dom, rows, k) == HeadHash(c, dom, rows[..k])
  {
    if k > 0 {
      AcceptedFields(c, dom, rows, k - 1);
      assert BytesAt(rows[..k], k - 1) == BytesAt(rows, k - 1);
    }
  }

  lemma AcceptedRow(c: Crypto, dom: Domain, rows: Table, k: nat)
    requires Accepted(c, dom, rows) && k < |rows|
    ensures IsRow(rows, k)
    ensures var row := RowAt(rows, k);
      && "this_hash" in row && row["this_hash"] == JStr(HashAt(c, rows, k))
      && "prev_hash" in row && row["prev_hash"] == JStr(HeadHash(c, dom, rows[..k]))
  {
    AcceptedFields(c, dom, rows, k);
    PrevIsHead(c, dom, rows, k);
  }

  /** Any prefix of an accepted table is accepted: truncating the tail is not detected. */
  lemma PrefixAccepted(c: Crypto, dom: Domain, rows: Table, n: nat)
    requires Accepted(c, dom, rows) && n <= |rows|
    ensures Accepted(c, dom, rows[..n])
  {
    forall k | 0 <= k < n ensures FaultAt(c, dom, rows[..n], k) == Clean {
      FaultByPrefix(c, dom, rows[..n], rows, k);
    }
  }

  /** A sound row: an object with every key, hashed and linked right, and signed. */
  ghost predicate Sound(c: Crypto, dom: Domain, rows: Table, k: nat)
    requires k < |rows|
  {
    && IsRow(rows, k)
    && (forall key :: key in dom.Required() || key in EXCLUDED ==> key in RowAt(rows, k))
    && Lookup(RowAt(rows, k), "this_hash") == JStr(HashAt(c, rows, k))
    && Lookup(RowAt(rows, k), "prev_hash") == JStr(HeadHash(c, dom, rows[..k]))
    && SignatureHolds(c, Lookup(RowAt(rows, k), "sig"), HashAt(c, rows, k))
  }

  /** The verifier accepts a table if and only if every row is sound. */
  lemma {:induction false} AcceptedExactly(c: Crypto, dom: Domain, rows: Table)
    ensures Accepted(c, dom, rows) <==> forall k :: 0 <= k < |rows| ==> Sound(c, dom, rows, k)
  {
    hide Canonical, FaultAt, Sound, HeadHash;
    if Accepted(c, dom, rows) {
      forall k | 0 <= k < |rows| ensures Sound(c, dom, rows, k) {
        AcceptedIsSound(c, dom, rows, k);
      }
    }
    if forall k :: 0 <= k < |rows| ==> Sound(c, dom, rows, k) {
      forall k | 0 <= k < |rows| ensures FaultAt(c, dom, rows, k) == Clean {
        assert Sound(c, dom, rows, k);
        assert k > 0 ==> Sound(c, dom, rows, k - 1);
        SoundIsClean(c, dom, rows, k);
      }
    }
  }

  lemma AcceptedIsSound(c: Crypto, dom: Domain, rows: Table, k: nat)
    requires Accepted(c, dom, rows) && k < |rows|
    ensures Sound(c, dom, rows, k)
  {
    hide Canonical, Accepted, HeadHash;
    AcceptedRow(c, dom, rows, k);
    RowIsClean(c, dom, rows, k);
    CleanRow(c, dom, PrevAt(c, dom, rows, k), rows[k].text);
    CarriesAllMeans(dom, rows[k].text.value);
    forall key | key in dom.Required() || key in EXCLUDED ensures key in RowAt(rows, k) {
      assert Carries(rows[k].text.value, key);
    }
  }

  lemma RowIsClean(c: Crypto, dom: Domain, rows: Table, k: nat)
    requires Accepted(c, dom, rows) && k < |rows|
    ensures FaultOf(c, dom, PrevAt(c, dom, rows, k), rows[k].text) == Clean
  {
    hide FaultOf;
    assert FaultAt(c, dom, rows, k) == Clean;
  }

  lemma SoundIsClean(c: Crypto, dom: Domain, rows: Table, k: nat)
    requires k < |rows| && Sound(c, dom, rows, k) && (k > 0 ==> Sound(c, dom, rows, k - 1))
    ensures FaultAt(c, dom, rows, k) == Clean
  {
    hide Canonical;
    CarriesAllMeans(dom, rows[k].text.value);
    assert "this_hash" in EXCLUDED by { assert EXCLUDED[0] == "this_hash"; }
    if k > 0 {
      assert BytesAt(rows[..k], k - 1) == BytesAt(rows, k - 1);
    }
  }

  lemma ContentLinks(row: Fields, other: Fields)
    requires Hashed(row) == Hashed(other) && "prev_hash" in row && "prev_hash" in other
    ensures row["prev_hash"] == other["prev_hash"]
  {
    assert Hashed(row).fields["prev_hash"] == row["prev_hash"];
    assert Hashed(other).fields["prev_hash"] == other["prev_hash"];
  }

  lemma SeedIsNoRow(dom: Domain, rows: Table, k: nat)
    requires k < |rows|
    ensures dom.Seed() != BytesAt(rows, k)
  {
    if IsRow(rows, k) {
      assert Canonical(Hashed(RowAt(rows, k)))[0] == '{';
    }
  }

  ghost predicate SameContents(a: Table, b: Table) {
    |a| == |b| && forall k :: 0 <= k < |a| ==> ContentAt(a, k) == ContentAt(b, k)
  }

  /** The head hash of an accepted table determines its domain, its length and the hashed
      content of every row, or two of the hashed texts collide. */
  lemma {:induction false} HeadDeterminesTable(c: Crypto, domA: Domain, a: Table, domB: Domain, b: Table)
    requires Accepted(c, domA, a) && Accepted(c, domB, b)
    requires HeadHash(c, domA, a) == HeadHash(c, domB, b)
    ensures (domA == domB && SameContents(a, b)) || Collides(c, Preimages(domA, a) + Preimages(domB, b))
    decreases |a|
  {
    hide Accepted, BytesAt, ContentAt, Collides;
    var texts := Preimages(domA, a) + Preimages(domB, b);
    if a == [] && b == [] {
      CollisionOf(c, texts, domA.Seed(), domB.Seed());
    } else if a == [] {
      SeedMeetsRow(c, domA, domB, b, texts);
    } else if b == [] {
      SeedMeetsRow(c, domB, domA, a, texts);
    } else if BytesAt(a, |a| - 1) != BytesAt(b, |b| - 1) {
      RowHashed(domA, a, |a| - 1);
      RowHashed(domB, b, |b| - 1);
      CollisionOf(c, texts, BytesAt(a, |a| - 1), BytesAt(b, |b| - 1));
    } else {
      var a', b' := a[..|a| - 1], b[..|b| - 1];
      LastRowsAgree(c, domA, a, domB, b);
      PrefixAccepted(c, domA, a, |a| - 1);
      PrefixAccepted(c, domB, b, |b| - 1);
      HeadDeterminesTable(c, domA, a', domB, b');
      if Collides(c, Preimages(domA, a') + Preimages(domB, b')) {
        PreimagesOfPrefix(domA, a, |a| - 1);
        PreimagesOfPrefix(domB, b, |b| - 1);
        CollidesInUnion(c, Preimages(domA, a'), Preimages(domB, b'), texts);
      } else {
        ExtendSame(a, b);
      }
    }
  }

  /** A genesis hash that is also a row hash is a collision: no row is hashed from the seed. */
  lemma SeedMeetsRow(c: Crypto, seedDom: Domain, dom: Domain, rows: Table, texts: set<string>)
    requires rows != [] && HeadHash(c, dom, rows) == Genesis(c, seedDom)
    requires seedDom.Seed() in texts && Preimages(dom, rows) <= texts
    ensures Collides(c, texts)
  {
    RowHashed(dom, rows, |rows| - 1);
    SeedIsNoRow(seedDom, rows, |rows| - 1);
    CollisionOf(c, texts, seedDom.Seed(), BytesAt(rows, |rows| - 1));
  }

  lemma LastRowsAgree(c: Crypto, domA: Domain, a: Table, domB: Domain, b: Table)
    requires Accepted(c, domA, a) && Accepted(c, domB, b) && a != [] && b != []
    requires BytesAt(a, |a| - 1) == BytesAt(b, |b| - 1)
    ensures ContentAt(a, |a| - 1) == ContentAt(b, |b| - 1)
    ensures HeadHash(c, domA, a[..|a| - 1]) == HeadHash(c, domB, b[..|b| - 1])
  {
    var m, n := |a| - 1, |b| - 1;
    AcceptedRow(c, domA, a, m);
    AcceptedRow(c, domB, b, n);
    JsonText.CanonicalInjective(ContentAt(a, m), ContentAt(b, n));
    ContentLinks(RowAt(a, m), RowAt(b, n));
  }

  lemma ExtendSame(a: Table, b: Table)
    requires a != [] && b != []
    requires ContentAt(a, |a| - 1) == ContentAt(b, |b| - 1)
    ensures SameContents(a[..|a| - 1], b[..|b| - 1]) ==> SameContents(a, b)
  {
    if SameContents(a[..|a| - 1], b[..|b| - 1]) {
      forall k | 0 <= k < |a| ensures ContentAt(a, k) == ContentAt(b, k) {
        if k < |a| - 1 {
          assert ContentAt(a[..|a| - 1], k) == ContentAt(b[..|b| - 1], k);
        }
      }
    }
  }

  lemma HeadOfPrefix(c: Crypto, dom: Domain, rows: Table, k: nat)
    requires k < |rows|
    ensures HeadHash(c, dom, rows[..k + 1]) == HashAt(c, rows, k)
  {
    assert rows[..k + 1][k] == rows[k];
  }

  /** No receipt row hash equals a policy row hash, at any pair of positions. */
  lemma ChainsShareNoHash(c: Crypto, receipts: Table, policies: Table, i: nat, j: nat)
    requires Accepted(c, Receipts, receipts) && Accepted(c, Policies, policies)
    requires i < |receipts| && j < |policies|
    requires HashAt(c, receipts, i) == HashAt(c, policies, j)
    ensures Collides(c, Preimages(Receipts, receipts) + Preimages(Policies, policies))
  {
    hide Accepted, BytesAt, ContentAt, Collides;
    var a, b := receipts[..i + 1], policies[..j + 1];
    PrefixAccepted(c, Receipts, receipts, i + 1);
    PrefixAccepted(c, Policies, policies, j + 1);
    HeadOfPrefix(c, Receipts, receipts, i);
    HeadOfPrefix(c, Policies, policies, j);
    HeadDeterminesTable(c, Receipts, a, Policies, b);
    PreimagesOfPrefix(Receipts, receipts, i + 1);
    PreimagesOfPrefix(Policies, policies, j + 1);
    CollidesInUnion(c, Preimages(Receipts, a), Preimages(Policies, b),
                    Preimages(Receipts, receipts) + Preimages(Policies, policies));
  }

  /** The row hashes of one accepted table are pairwise distinct. */
  lemma HashesDistinct(c: Crypto, dom: Domain, rows: Table, i: nat, j: nat)
    requires Accepted(c, dom, rows) && i < j < |rows|
    requires HashAt(c, rows, i) == HashAt(c, rows, j)
    ensures Collides(c, Preimages(dom, rows))
  {
    hide Accepted, BytesAt, ContentAt, Collides;
    var a, b := rows[..i + 1], rows[..j + 1];
    PrefixAccepted(c, dom, rows, i + 1);
    PrefixAccepted(c, dom, rows, j + 1);
    HeadOfPrefix(c, dom, rows, i);
    HeadOfPrefix(c, dom, rows, j);
    HeadDeterminesTable(c, dom, a, dom, b);
    PreimagesOfPrefix(dom, rows, i + 1);
    PreimagesOfPrefix(dom, rows, j + 1);
    CollidesInUnion(c, Preimages(dom, a), Preimages(dom, b), Preimages(dom, rows));
  }

  // ---- rearranging genuine rows ----

  /** Every row of b is a row of a, the one at the position f names. */
  ghost predicate DrawnFrom(b: Table, a: Table, f: seq<nat>) {
    |f| == |b| && forall i :: 0 <= i < |b| ==> f[i] < |a| && b[i].text == a[f[i]].text
  }

  /** The hash before position j of an accepted table tells the position. */
  lemma HeadTellsPosition(c: Crypto, dom: Domain, rows: Table, i: nat, j: nat)
    requires Accepted(c, dom, rows) && i < |rows| && j < |rows|
    requires HeadHash(c, dom, rows[..i]) == HeadHash(c, dom, rows[..j])
    ensures i == j || Collides(c, Preimages(dom, rows))
  {
    hide Accepted, BytesAt, Collides;
    if i > j {
      HeadTellsPosition(c, dom, rows, j, i);
    } else if i < j {
      HeadOfPrefix(c, dom, rows, j - 1);
      if i == 0 {
        PreimagesOfPrefix(dom, rows, j);
        SeedMeetsRow(c, dom, dom, rows[..j], Preimages(dom, rows));
      } else {
        HeadOfPrefix(c, dom, rows, i - 1);
        HashesDistinct(c, dom, rows, i - 1, j - 1);
      }
    }
  }

  /** Genuine rows cannot be left out, repeated or reordered: if a table made of rows of an
      accepted table is itself accepted, each row stands where it stood, or texts collide. */
  lemma {:induction false} RowsKeepPlace(c: Crypto, dom: Domain, a: Table, b: Table, f: seq<nat>, i: nat)
    requires Accepted(c, dom, a) && Accepted(c, dom, b) && DrawnFrom(b, a, f) && i < |b|
    ensures f[i] == i || Collides(c, Preimages(dom, a))
  {
    hide Accepted, BytesAt, Collides, Canonical, HeadHash;
    if i > 0 {
      RowsKeepPlace(c, dom, a, b, f, i - 1);
    }
    if !Collides(c, Preimages(dom, a)) {
      AcceptedRow(c, dom, a, f[i]);
      AcceptedRow(c, dom, b, i);
      assert RowAt(a, f[i]) == RowAt(b, i);
      if i == 0 {
        EmptyHead(c, dom, a, b);
        HeadTellsPosition(c, dom, a, 0, f[0]);
      } else {
        HeadOfPrefix(c, dom, b, i - 1);
        HeadOfPrefix(c, dom, a, i - 1);
        SameRowSameHash(c, a, b, f[i - 1], i - 1);
        if i < |a| {
          HeadTellsPosition(c, dom, a, i, f[i]);
        } else {
          LastLinksNowhere(c, dom, a, f[i]);
        }
      }
    }
  }

  lemma EmptyHead(c: Crypto, dom: Domain, a: Table, b: Table)
    ensures HeadHash(c, dom, a[..0]) == HeadHash(c, dom, b[..0])
  {
  }

  lemma SameRowSameHash(c: Crypto, a: Table, b: Table, i: nat, j: nat)
    requires i < |a| && j < |b| && a[i].text == b[j].text
    ensures HashAt(c, a, i) == HashAt(c, b, j)
  {
  }

  /** No row of an accepted table links to its last row. */
  lemma LastLinksNowhere(c: Crypto, dom: Domain, rows: Table, j: nat)
    requires Accepted(c, dom, rows) && j < |rows|
    requires HeadHash(c, dom, rows[..j]) == HashAt(c, rows, |rows| - 1)
    ensures Collides(c, Preimages(dom, rows))
  {
    hide Accepted, BytesAt, Collides;
    if j == 0 {
      SeedMeetsRow(c, dom, dom, rows, Preimages(dom, rows));
    } else {
      HeadOfPrefix(c, dom, rows, j - 1);
      HashesDistinct(c, dom, rows, j - 1, |rows| - 1);
    }
  }

  /** So what can be had from genuine rows alone are the prefixes, and nothing else. */
  lemma RearrangedIsPrefix(c: Crypto, dom: Domain, a: Table, b: Table, f: seq<nat>)
    requires Accepted(c, dom, a) && Accepted(c, dom, b) && DrawnFrom(b, a, f)
    ensures (|b| <= |a| && forall i :: 0 <= i < |b| ==> b[i].text == a[i].text) || Collides(c, Preimages(dom, a))
  {
    hide Accepted, Collides;
    if !Collides(c, Preimages(dom, a)) {
      forall i: nat | i < |b| ensures f[i] == i {
        RowsKeepPlace(c, dom, a, b, f, i);
      }
      assert |b| > 0 ==> f[|b| - 1] < |a|;
    }
  }

  // ---- replacing one row ----

  function Replaced(rows: Table, k: nat, text: Stored): Table
    requires k < |rows|
  {
    rows[k := rows[k].(text := text)]
  }

  lemma FaultsOutside(c: Crypto, dom: Domain, rows: Table, k: nat, text: Stored, i: nat)
    requires k < |rows| && i < |rows| && i != k && i != k + 1
    ensures FaultAt(c, dom, Replaced(rows, k, text), i) == FaultAt(c, dom, rows, i)
  {
    FaultByPrefix(c, dom, Replaced(rows, k, text), rows, i);
  }

  /** The row after a replaced one can only lose its link. */
  lemma FaultAfter(c: Crypto, dom: Domain, rows: Table, k: nat, text: Stored)
    requires Accepted(c, dom, rows) && k + 1 < |rows|
    requires FaultAt(c, dom, Replaced(rows, k, text), k) == Clean
    ensures FaultAt(c, dom, Replaced(rows, k, text), k + 1)
         == if HashAt(c, Replaced(rows, k, text), k) == HashAt(c, rows, k) then Clean else PrevHashMismatch
  {
    var rows' := Replaced(rows, k, text);
    CleanRow(c, dom, PrevAt(c, dom, rows', k), rows'[k].text);
    AcceptedRow(c, dom, rows, k);
    AcceptedRow(c, dom, rows, k + 1);
    assert HeadHash(c, dom, rows[..k + 1]) == HashAt(c, rows, k) by {
      HeadOfPrefix(c, dom, rows, k);
    }
    assert FaultAt(c, dom, rows, k + 1) == Clean;
    CleanRow(c, dom, PrevAt(c, dom, rows, k + 1), rows[k + 1].text);
  }

  /** Everything that can happen when row k of an accepted table is overwritten: the verifier
      stops at k, or it stops at k + 1 with exactly `prev_hash_mismatch`, or the row hash did
      not change and the table verifies as before. */
  lemma ReplacedRow(c: Crypto, dom: Domain, rows: Table, k: nat, text: Stored)
    requires Accepted(c, dom, rows) && k < |rows|
    ensures var rows' := Replaced(rows, k, text);
      var fault := FaultAt(c, dom, rows', k);
      VerdictOf(c, dom, rows')
        == if fault == Uncaught then Crashed(rows[k].seqNo)
           else if fault != Clean then Broken(rows[k].seqNo, fault)
           else if k + 1 < |rows| && HashAt(c, rows', k) != HashAt(c, rows, k)
           then Broken(rows[k + 1].seqNo, PrevHashMismatch)
           else Verified(|rows|)
  {
    hide Canonical, CarriesAll, SignatureHolds;
    var rows' := Replaced(rows, k, text);
    CleanBefore(c, dom, rows, k, text);
    if FaultAt(c, dom, rows', k) != Clean {
      VerdictByFirstFault(c, dom, rows', k);
    } else if k + 1 < |rows| {
      NextLink(c, dom, rows', k);
      FaultAfter(c, dom, rows, k, text);
      if HashAt(c, rows', k) != HashAt(c, rows, k) {
        VerdictByFirstFault(c, dom, rows', k + 1);
      } else {
        CleanRest(c, dom, rows, k, text);
        VerdictByFirstFault(c, dom, rows', |rows|);
      }
    } else {
      NextLink(c, dom, rows', k);
      VerdictByFirstFault(c, dom, rows', |rows|);
    }
  }

  lemma CleanBefore(c: Crypto, dom: Domain, rows: Table, k: nat, text: Stored)
    requires Accepted(c, dom, rows) && k < |rows|
    ensures CleanBelow(c, dom, Replaced(rows, k, text), k)
  {
    forall i | 0 <= i < k ensures FaultAt(c, dom, Replaced(rows, k, text), i) == Clean {
      FaultsOutside(c, dom, rows, k, text, i);
    }
  }

  lemma CleanRest(c: Crypto, dom: Domain, rows: Table, k: nat, text: Stored)
    requires Accepted(c, dom, rows) && k + 1 < |rows|
    requires CleanBelow(c, dom, Replaced(rows, k, text), k + 1)
    requires FaultAt(c, dom, Replaced(rows, k, text), k + 1) == Clean
    ensures CleanBelow(c, dom, Replaced(rows, k, text), |rows|)
  {
    forall i | 0 <= i < |rows| ensures FaultAt(c, dom, Replaced(rows, k, text), i) == Clean {
      if i > k + 1 {
        FaultsOutside(c, dom, rows, k, text, i);
      }
    }
  }

  /** An overwrite of a row that is not the last goes unnoticed only if nothing but `sig`
      changed, up to a collision. */
  lemma UnnoticedReplacement(c: Crypto, dom: Domain, rows: Table, k: nat, text: Stored)
    requires Accepted(c, dom, rows) && k + 1 < |rows|
    requires VerdictOf(c, dom, Replaced(rows, k, text)).Verified?
    ensures IsRow(rows, k) && text.Parsed? && text.value.JObj?
    ensures text.value.fields - {"sig"} == RowAt(rows, k) - {"sig"}
         || Collides(c, Preimages(dom, rows) + Preimages(dom, Replaced(rows, k, text)))
  {
    var rows' := Replaced(rows, k, text);
    ReplacedRow(c, dom, rows, k, text);
    VerifiedMeansAccepted(c, dom, rows');
    AcceptedRow(c, dom, rows, k);
    AcceptedRow(c, dom, rows', k);
    RowHashed(dom, rows, k);
    RowHashed(dom, rows', k);
    var texts := Preimages(dom, rows) + Preimages(dom, rows');
    CollisionOf(c, texts, BytesAt(rows, k), BytesAt(rows', k));
    if !Collides(c, texts) {
      JsonText.CanonicalInjective(ContentAt(rows, k), ContentAt(rows', k));
      AllButSig(RowAt(rows, k), text.value.fields);
    }
  }

  lemma AllButSig(row: Fields, other: Fields)
    requires Hashed(row) == Hashed(other)
    requires "this_hash" in row && "this_hash" in other && row["this_hash"] == other["this_hash"]
    ensures other - {"sig"} == row - {"sig"}
  {
    var h, g := Hashed(row).fields, Hashed(other).fields;
    forall key ensures key in other - {"sig"} <==> key in row - {"sig"} {
      assert key in h <==> key in row && key !in {"this_hash", "sig"};
      assert key in g <==> key in other && key !in {"this_hash", "sig"};
    }
    forall key | key in row - {"sig"} ensures other[key] == row[key] {
      if key != "this_hash" {
        assert h[key] == row[key] && g[key] == other[key];
      }
    }
  }

  // ---- appending ----

  /** A row completed the way `append` does: linked, hashed and signed. */
  function Sealed(c: Crypto, body: Fields, prev: Json): Fields {
    var content := body["prev_hash" := prev];
    var thisHash := c.digest(Canonical(JObj(content)));
    content["this_hash" := JStr(thisHash)]["sig" := JStr(c.encode(c.sign(thisHash)))]
  }

  /** The keys of a row before `append` adds the link, the hash and the signature. */
  predicate IsBody(dom: Domain, body: Fields) {
    && (forall k :: k in dom.Required() && k != "prev_hash" ==> k in body)
    && "this_hash" !in body && "sig" !in body
  }

  lemma SealedHash(c: Crypto, body: Fields, prev: Json)
    requires "this_hash" !in body && "sig" !in body
    ensures Hashed(Sealed(c, body, prev)) == JObj(body["prev_hash" := prev])
  {
    assert Sealed(c, body, prev) - {"this_hash", "sig"} == body["prev_hash" := prev];
  }

  lemma SealedIsClean(c: Crypto, dom: Domain, body: Fields, prev: string)
    requires c.Lawful() && IsBody(dom, body)
    ensures FaultOf(c, dom, prev, Parsed(JObj(Sealed(c, body, JStr(prev))))) == Clean
  {
    hide Canonical;
    var row := Sealed(c, body, JStr(prev));
    SealedHash(c, body, JStr(prev));
    var h := Recomputed(c, row);
    assert row["sig"] == JStr(c.encode(c.sign(h)));
    assert c.decode(c.encode(c.sign(h))) == Some(c.sign(h)) && c.checks(c.sign(h), h);
    CarriesAllMeans(dom, JObj(row));
  }

  /** Appending a row sealed on the stored head of an accepted table gives an accepted table. */
  lemma AppendAccepted(c: Crypto, dom: Domain, rows: Table, body: Fields, seqNo: int)
    requires c.Lawful() && IsBody(dom, body) && Accepted(c, dom, rows)
    ensures Accepted(c, dom, rows + [Entry(seqNo, Parsed(JObj(Sealed(c, body, JStr(PrevAt(c, dom, rows, |rows|))))))])
  {
    hide Sealed;
    var prev := PrevAt(c, dom, rows, |rows|);
    var rows' := rows + [Entry(seqNo, Parsed(JObj(Sealed(c, body, JStr(prev)))))];
    forall k | 0 <= k < |rows'| ensures FaultAt(c, dom, rows', k) == Clean {
      if k < |rows| {
        FaultByPrefix(c, dom, rows', rows, k);
      } else {
        AppendedIsClean(c, dom, rows, body, rows'[k]);
      }
    }
  }

  lemma AppendedIsClean(c: Crypto, dom: Domain, rows: Table, body: Fields, entry: Entry)
    requires c.Lawful() && IsBody(dom, body)
    requires entry.text == Parsed(JObj(Sealed(c, body, JStr(PrevAt(c, dom, rows, |rows|)))))
    ensures FaultAt(c, dom, rows + [entry], |rows|) == Clean
  {
    var prev := PrevAt(c, dom, rows, |rows|);
    assert PrevAt(c, dom, rows + [entry], |rows|) == prev;
    SealedIsClean(c, dom, body, prev);
  }

  /** `_head_hash` can read the last row of an accepted table, and reads what the verifier
      expects of the next. */
  lemma AcceptedHead(c: Crypto, dom: Domain, rows: Table)
    requires Accepted(c, dom, rows)
    ensures HeadReadable(rows) && HeadLink(c, dom, rows) == JStr(PrevAt(c, dom, rows, |rows|))
  {
    hide Canonical;
    if rows != [] {
      AcceptedFields(c, dom, rows, |rows| - 1);
    }
  }
}
