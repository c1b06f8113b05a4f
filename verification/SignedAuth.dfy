/** Signed console requests: what is signed pins down the request, and a freshly signed request
    is accepted exactly within the clock skew. */
module SignedAuth {
  import opened Wrappers
  import opened Decimal
  import opened Chain
  import opened Console

  const SCHEME := "sentinel-console-auth-1"
  const DEFAULT_MAX_SKEW_SECONDS: int := 300

  /** `upper` is `str.upper`. */
  datatype Request = Request(verb: string, path: string, body: string)

  /** The six lines, joined with newlines. */
  function SigningText(c: Crypto, upper: string -> string, r: Request, adminId: string, ts: int): string {
    SCHEME + "\n" + upper(r.verb) + "\n" + r.path + "\n" + adminId + "\n" + IntText(ts) + "\n" + c.digest(r.body)
  }

  predicate OneLine(s: string) {
    '\n' !in s
  }

  /** Hex digests contain no newline. */
  ghost predicate HexDigests(c: Crypto) {
    forall t :: OneLine(c.digest(t))
  }

  /** Everything before the last newline, and everything after it. */
  lemma LastLine(a: string, x: string, b: string, y: string)
    requires OneLine(x) && OneLine(y)
    requires a + "\n" + x == b + "\n" + y
    ensures a == b && x == y
  {
    LastLineLength(a, x, b, y);
    LastLineLength(b, y, a, x);
    var s, t := a + "\n" + x, b + "\n" + y;
    assert s[..|a|] == a && t[..|b|] == b;
    assert s[|a| + 1..] == x && t[|b| + 1..] == y;
  }

  lemma LastLineLength(a: string, x: string, b: string, y: string)
    requires OneLine(y) && a + "\n" + x == b + "\n" + y
    ensures |a| <= |b|
  {
    assert (a + "\n" + x)[|a|] == '\n';
    assert forall k :: |b| < k < |b + "\n" + y| ==> (b + "\n" + y)[k] == y[k - |b| - 1];
  }

  lemma {:induction false} NatTextOneLine(n: nat)
    ensures OneLine(NatText(n))
  {
    if n >= 10 {
      NatTextOneLine(n / 10);
    }
  }

  lemma IntTextOneLine(n: int)
    ensures OneLine(IntText(n))
  {
    NatTextOneLine(if n < 0 then -n else n);
  }

  lemma IntTextInjective(a: int, b: int)
    requires IntText(a) == IntText(b)
    ensures a == b
  {
    IntTextUnambiguous(a, b, "", "");
  }

  /** When path and admin id are single lines on both sides, equal signing texts agree part by
      part, read from the last line back; the method may hold anything. */
  lemma LinesDetermine(c: Crypto, upper: string -> string, r: Request, s: Request, idR: string, idS: string,
                       tsR: int, tsS: int)
    requires HexDigests(c)
    requires OneLine(r.path) && OneLine(s.path) && OneLine(idR) && OneLine(idS)
    requires SigningText(c, upper, r, idR, tsR) == SigningText(c, upper, s, idS, tsS)
    ensures SameParts(c, upper, r, s, idR, idS, tsR, tsS)
  {
    var n := "\n";
    var a1, b1 := SCHEME + n + upper(r.verb), SCHEME + n + upper(s.verb);
    var a2, b2 := a1 + n + r.path, b1 + n + s.path;
    var a3, b3 := a2 + n + idR, b2 + n + idS;
    IntTextOneLine(tsR);
    IntTextOneLine(tsS);
    LastLine(a3 + n + IntText(tsR), c.digest(r.body), b3 + n + IntText(tsS), c.digest(s.body));
    LastLine(a3, IntText(tsR), b3, IntText(tsS));
    LastLine(a2, idR, b2, idS);
    LastLine(a1, r.path, b1, s.path);
    assert a1[|SCHEME| + 1..] == upper(r.verb) && b1[|SCHEME| + 1..] == upper(s.verb);
    IntTextInjective(tsR, tsS);
  }

  /** The same upper-cased method, path, admin, timestamp and body digest. */
  predicate SameParts(c: Crypto, upper: string -> string, r: Request, s: Request, idR: string, idS: string,
                      tsR: int, tsS: int)
  {
    && upper(r.verb) == upper(s.verb) && r.path == s.path && idR == idS && tsR == tsS
    && c.digest(r.body) == c.digest(s.body)
  }

  /** The text cut at its newlines. */
  function Lines(s: string): seq<string> {
    LinesAfter("", s)
  }

  function LinesAfter(line: string, rest: string): seq<string>
    decreases rest
  {
    if rest == "" then [line]
    else if rest[0] == '\n' then [line] + LinesAfter("", rest[1..])
    else LinesAfter(line + [rest[0]], rest[1..])
  }

  lemma {:induction false} FirstLine(line: string, x: string, y: string)
    requires OneLine(x)
    ensures LinesAfter(line, x + "\n" + y) == [line + x] + Lines(y)
    ensures LinesAfter(line, x) == [line + x]
    decreases x
  {
    var s := x + "\n" + y;
    if x == "" {
      assert s[1..] == y && line + x == line;
    } else {
      assert s[0] == x[0] && s[1..] == x[1..] + "\n" + y;
      assert line + [x[0]] + x[1..] == line + x;
      FirstLine(line + [x[0]], x[1..], y);
    }
  }

  lemma LineThenRest(x: string, y: string)
    requires OneLine(x)
    ensures Lines(x + "\n" + y) == [x] + Lines(y) && Lines(x) == [x]
  {
    FirstLine("", x, y);
    assert "" + x == x;
  }

  /** The signed text has six lines: scheme, method, path, admin id, timestamp and body digest. */
  lemma SignedLines(c: Crypto, upper: string -> string, r: Request, id: string, ts: int)
    requires HexDigests(c) && OneLine(upper(r.verb)) && OneLine(r.path) && OneLine(id)
    ensures Lines(SigningText(c, upper, r, id, ts))
         == ["sentinel-console-auth-1", upper(r.verb), r.path, id, IntText(ts), c.digest(r.body)]
  {
    hide Lines, IntText;
    var n := "\n";
    var l5 := IntText(ts) + n + c.digest(r.body);
    var l4 := id + n + l5;
    var l3 := r.path + n + l4;
    var l2 := upper(r.verb) + n + l3;
    assert SigningText(c, upper, r, id, ts) == SCHEME + n + l2;
    SchemeOneLine();
    IntTextOneLine(ts);
    LineThenRest(SCHEME, l2);
    LineThenRest(upper(r.verb), l3);
    LineThenRest(r.path, l4);
    LineThenRest(id, l5);
    LineThenRest(IntText(ts), c.digest(r.body));
    LineThenRest(c.digest(r.body), "");
  }

  /** Line breaks in a text. */
  function Breaks(s: string): nat {
    if s == "" then 0 else (if s[0] == '\n' then 1 else 0) + Breaks(s[1..])
  }

  lemma {:induction false} BreaksAppend(s: string, t: string)
    ensures Breaks(s + t) == Breaks(s) + Breaks(t)
  {
    if s == "" {
      assert s + t == t;
    } else {
      assert (s + t)[1..] == s[1..] + t;
      BreaksAppend(s[1..], t);
    }
  }

  lemma {:induction false} NoBreaks(s: string)
    ensures Breaks(s) == 0 <==> OneLine(s)
  {
    if s != "" {
      assert s == [s[0]] + s[1..];
      NoBreaks(s[1..]);
    }
  }

  lemma BreaksOfLines(s: string, t: string)
    ensures Breaks(s + "\n" + t) == Breaks(s) + 1 + Breaks(t)
  {
    BreaksAppend(s + "\n", t);
    BreaksAppend(s, "\n");
    assert "\n"[1..] == "";
  }

  lemma SigningBreaks(c: Crypto, upper: string -> string, r: Request, id: string, ts: int)
    requires HexDigests(c)
    ensures Breaks(SigningText(c, upper, r, id, ts)) == 5 + Breaks(upper(r.verb)) + Breaks(r.path) + Breaks(id)
  {
    var n := "\n";
    var l1 := SCHEME + n + upper(r.verb);
    var l2 := l1 + n + r.path;
    var l3 := l2 + n + id;
    var l4 := l3 + n + IntText(ts);
    BreaksOfLines(SCHEME, upper(r.verb));
    BreaksOfLines(l1, r.path);
    BreaksOfLines(l2, id);
    BreaksOfLines(l3, IntText(ts));
    BreaksOfLines(l4, c.digest(r.body));
    IntTextOneLine(ts);
    NoBreaks(IntText(ts));
    NoBreaks(c.digest(r.body));
    SchemeOneLine();
    NoBreaks(SCHEME);
  }

  lemma SchemeOneLine()
    ensures OneLine(SCHEME)
  {
  }

  /** If the signed request is made of single lines, any request with the same signing text,
      whatever it holds, agrees with it in every part that is signed. */
  lemma SigningTextDetermines(c: Crypto, upper: string -> string, r: Request, s: Request, idR: string, idS: string,
                              tsR: int, tsS: int)
    requires HexDigests(c) && OneLine(upper(r.verb)) && OneLine(r.path) && OneLine(idR)
    requires SigningText(c, upper, r, idR, tsR) == SigningText(c, upper, s, idS, tsS)
    ensures SameParts(c, upper, r, s, idR, idS, tsR, tsS)
  {
    hide SigningText;
    SigningBreaks(c, upper, r, idR, tsR);
    SigningBreaks(c, upper, s, idS, tsS);
    NoBreaks(upper(r.verb));
    NoBreaks(r.path);
    NoBreaks(idR);
    NoBreaks(s.path);
    NoBreaks(idS);
    LinesDetermine(c, upper, r, s, idR, idS, tsR, tsS);
  }

  /** A newline moved from the path into the admin id leaves the signing text as it is. */
  lemma NewlinesConfuse(c: Crypto, upper: string -> string, verb: string, p: string, q: string, id: string,
                        body: string, ts: int)
    ensures SigningText(c, upper, Request(verb, p + "\n" + q, body), id, ts)
         == SigningText(c, upper, Request(verb, p, body), q + "\n" + id, ts)
  {
    hide IntText;
    var head := SCHEME + "\n" + upper(verb) + "\n";
    assert head + (p + "\n" + q) + "\n" + id == head + p + "\n" + (q + "\n" + id);
  }

  ghost predicate Shares(c: Crypto, upper: string -> string, r: Request, id: string, ts: int, s: Request,
                         idS: string, tsS: int)
  {
    SigningText(c, upper, r, id, ts) == SigningText(c, upper, s, idS, tsS)
  }

  /** No request that differs in a signed part has this request's signing text. */
  ghost predicate Unmistakable(c: Crypto, upper: string -> string, r: Request, id: string, ts: int) {
    forall s: Request, idS: string, tsS: int ::
      Shares(c, upper, r, id, ts, s, idS, tsS) ==> SameParts(c, upper, r, s, id, idS, ts, tsS)
  }

  /** With a single-line method, a signed request cannot be taken for another if and only if its
      path and its admin id are single lines. */
  lemma UnmistakableExactly(c: Crypto, upper: string -> string, r: Request, id: string, ts: int)
    requires HexDigests(c) && OneLine(upper(r.verb))
    ensures Unmistakable(c, upper, r, id, ts) <==> OneLine(r.path) && OneLine(id)
  {
    hide SigningText;
    if OneLine(r.path) && OneLine(id) {
      forall s: Request, idS: string, tsS: int | Shares(c, upper, r, id, ts, s, idS, tsS)
        ensures SameParts(c, upper, r, s, id, idS, ts, tsS)
      {
        SigningTextDetermines(c, upper, r, s, id, idS, ts, tsS);
      }
    } else if !OneLine(r.path) {
      var i :| 0 <= i < |r.path| && r.path[i] == '\n';
      var p, q := r.path[..i], r.path[i + 1..];
      assert r.path == p + "\n" + q;
      NewlinesConfuse(c, upper, r.verb, p, q, id, r.body, ts);
      assert Shares(c, upper, r, id, ts, Request(r.verb, p, r.body), q + "\n" + id, ts);
    } else {
      var i :| 0 <= i < |id| && id[i] == '\n';
      var q, rest := id[..i], id[i + 1..];
      assert id == q + "\n" + rest;
      NewlinesConfuse(c, upper, r.verb, r.path, q, rest, r.body, ts);
      assert Shares(c, upper, r, id, ts, Request(r.verb, r.path + "\n" + q, r.body), rest, ts);
      assert |r.path + "\n" + q| > |r.path|;
    }
  }

  // ---- headers ----

  /** The three identity headers; `None` is an absent header. */
  datatype Headers = Headers(adminId: Option<string>, timestamp: Option<string>, signature: Option<string>)

  datatype KeyEntry = KeyEntry(checks: (string, string) -> bool, role: Role)
  type Registry = map<string, KeyEntry>

  /** `int(now)`: towards zero. */
  function Truncated(now: real): int {
    if now >= 0.0 then now.Floor else -((-now).Floor)
  }

  /** The reading without its fraction is n whole seconds. */
  predicate WholeSeconds(n: int, reading: real) {
    if reading >= 0.0 then n as real <= reading < n as real + 1.0 else n as real - 1.0 < reading <= n as real
  }

  lemma TruncatedMeans(n: int, reading: real)
    ensures Truncated(reading) == n <==> WholeSeconds(n, reading)
  {
    var up := -reading;
    assert up.Floor as real <= up < up.Floor as real + 1.0;
  }

  function SignHeaders(c: Crypto, upper: string -> string, sign: string -> string, adminId: string, r: Request,
                       now: real): Headers
  {
    var ts := Truncated(now);
    Headers(Some(adminId), Some(IntText(ts)), Some(c.encode(sign(SigningText(c, upper, r, adminId, ts)))))
  }

  /** Absent or empty. */
  predicate Blank(h: Option<string>) {
    h.None? || h.value == ""
  }

  function Abs(n: int): nat {
    if n < 0 then -n else n
  }

  /** `verify`: the authenticated admin, or `None`. */
  function Verify(c: Crypto, upper: string -> string, registry: Registry, r: Request, h: Headers, now: real,
                  maxSkew: int := DEFAULT_MAX_SKEW_SECONDS): Option<Admin> {
    if Blank(h.adminId) || Blank(h.timestamp) || Blank(h.signature) then None
    else if h.adminId.value !in registry then None
    else
      var entry := registry[h.adminId.value];
      var ts := ReadInt(h.timestamp.value);
      if ts.None? then None
      else if Abs(Truncated(now) - ts.value) > maxSkew then None
      else
        var sig := c.decodeStrict(h.signature.value);
        if sig.None? then None
        else if !entry.checks(sig.value, SigningText(c, upper, r, h.adminId.value, ts.value)) then None
        else Some(Admin(h.adminId.value, entry.role))
  }

  /** The private key that belongs to a registry entry; a signature is never empty text. */
  ghost predicate KeyPair(c: Crypto, sign: string -> string, entry: KeyEntry) {
    forall m: string :: entry.checks(sign(m), m) && c.encode(sign(m)) != ""
  }

  /** The header is there and holds something. */
  predicate Filled(h: Option<string>) {
    h.Some? && |h.value| > 0
  }

  /** A request is authenticated, as this admin, if and only if all three headers hold something, the
      first names the admin and the registry gives it that role, the second reads as a whole number
      within the skew of the clock, and the third is strict base64 of a signature that the
      registered key checks over the signed text. */
  lemma AuthenticatedExactly(c: Crypto, upper: string -> string, registry: Registry, r: Request, h: Headers,
                             now: real, maxSkew: int, admin: Admin, clock: int)
    requires WholeSeconds(clock, now)
    ensures Verify(c, upper, registry, r, h, now, maxSkew) == Some(admin) <==>
      && Filled(h.adminId) && Filled(h.timestamp) && Filled(h.signature)
      && h.adminId.value == admin.id && admin.id in registry && registry[admin.id].role == admin.role
      && var ts, sig := ReadInt(h.timestamp.value), c.decodeStrict(h.signature.value);
      && ts.Some? && -maxSkew <= clock - ts.value <= maxSkew
      && sig.Some? && registry[admin.id].checks(sig.value, SigningText(c, upper, r, admin.id, ts.value))
  {
    hide SigningText, ReadInt, Truncated, WholeSeconds;
    TruncatedMeans(clock, now);
  }

  /** A request signed by a registered admin is accepted, as that admin and with the registered
      role, if and only if the clocks, both in whole seconds, differ by at most the skew; by at most
      five minutes where no skew is given. */
  lemma VerifyExactly(c: Crypto, upper: string -> string, sign: string -> string, registry: Registry, adminId: string,
                      r: Request, signedAt: real, now: real, maxSkew: int, signer: int, clock: int)
    requires c.Lawful() && adminId != "" && adminId in registry && KeyPair(c, sign, registry[adminId])
    requires WholeSeconds(signer, signedAt) && WholeSeconds(clock, now)
    ensures var h := SignHeaders(c, upper, sign, adminId, r, signedAt);
      && Verify(c, upper, registry, r, h, now, maxSkew)
         == (if -maxSkew <= clock - signer <= maxSkew then Some(Admin(adminId, registry[adminId].role)) else None)
      && Verify(c, upper, registry, r, h, now)
         == (if -300 <= clock - signer <= 300 then Some(Admin(adminId, registry[adminId].role)) else None)
  {
    hide SigningText, Truncated, WholeSeconds, ReadInt;
    TruncatedMeans(signer, signedAt);
    TruncatedMeans(clock, now);
    ReadIntOfText(signer);
    var text := SigningText(c, upper, r, adminId, signer);
    assert registry[adminId].checks(sign(text), text) && c.encode(sign(text)) != "";
    assert c.decodeStrict(c.encode(sign(text))) == Some(sign(text));
  }

  /** A signature made for a request of single lines gets another request accepted, whatever that one
      and its other headers hold, only if the two agree in all that is signed, or the key the other
      request names takes one signature for two different texts. */
  lemma SignatureBindsRequest(c: Crypto, upper: string -> string, sign: string -> string, registry: Registry,
                              adminId: string, r: Request, other: Request, h: Headers,
                              signedAt: real, now: real, maxSkew: int)
    requires c.Lawful() && HexDigests(c) && OneLine(upper(r.verb)) && OneLine(r.path) && OneLine(adminId)
    requires h.signature == SignHeaders(c, upper, sign, adminId, r, signedAt).signature
    requires Verify(c, upper, registry, other, h, now, maxSkew).Some?
    ensures h.adminId.Some? && h.adminId.value in registry
    ensures h.timestamp.Some? && ReadInt(h.timestamp.value).Some?
    ensures var ts, ts' := Truncated(signedAt), ReadInt(h.timestamp.value).value;
      var text, text' := SigningText(c, upper, r, adminId, ts), SigningText(c, upper, other, h.adminId.value, ts');
      || SameParts(c, upper, r, other, adminId, h.adminId.value, ts, ts')
      || (text != text' && registry[h.adminId.value].checks(sign(text), text'))
  {
    hide SigningText;
    var ts, ts' := Truncated(signedAt), ReadInt(h.timestamp.value).value;
    var text, text' := SigningText(c, upper, r, adminId, ts), SigningText(c, upper, other, h.adminId.value, ts');
    assert c.decodeStrict(c.encode(sign(text))) == Some(sign(text));
    if text == text' {
      SigningTextDetermines(c, upper, r, other, adminId, h.adminId.value, ts, ts');
    }
  }
}
