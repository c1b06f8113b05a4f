/** What the canonical text is: JSON text that reads back as the value, whatever follows it. */
module JsonText {
  import opened Wrappers
  import opened Decimal
  import opened Json
  import opened JsonReader

  /** What may follow a value inside a larger canonical text. */
  predicate ClosesValue(x: string) {
    x == "" || x[0] in {',', ']', '}'}
  }

  lemma Regroup(p: string, q: string, x: string)
    ensures (p + q) + x == p + (q + x)
  {
  }

  // ---- numbers ----

  lemma {:induction false} DigitsRun(s: string, x: string)
    requires AllDigits(s) && (x == "" || !Digit(x[0]))
    ensures DigitRun(s + x) == |s|
  {
    if s == "" {
      assert s + x == x;
    } else {
      assert (s + x)[1..] == s[1..] + x;
      DigitsRun(s[1..], x);
    }
  }

  /** Digits before text that starts with none are read as the number they stand for. */
  lemma {:induction false} DigitsNumber(s: string, x: string, acc: nat)
    requires AllDigits(s) && (x == "" || !Digit(x[0]))
    ensures NumberIn(s + x, acc) == Shifted(acc, s)
    decreases |s|
  {
    if s == "" {
      assert s + x == x;
    } else {
      assert (s + x)[1..] == s[1..] + x;
      DigitsNumber(s[1..], x, 10 * acc + DigitValue(s[0]));
    }
  }

  lemma {:induction false} NoLeadingZero(n: nat)
    ensures n < 10 ==> |NatText(n)| == 1
    ensures n >= 10 ==> NatText(n)[0] != '0'
  {
    if n >= 10 {
      NoLeadingZero(n / 10);
      assert n < 100 ==> NatText(n / 10) == [DigitChar(n / 10)] && DigitValue(DigitChar(n / 10)) > 0;
    }
  }

  lemma ReadsNatural(n: nat, x: string)
    requires ClosesValue(x)
    ensures ReadNatural(NatText(n) + x) == Some((n, x))
  {
    var s := NatText(n);
    DigitsRun(s, x);
    DigitsNumber(s, x, 0);
    ShiftedIsValue(s);
    NatValueOfText(n);
    NoLeadingZero(n);
    assert (s + x)[|s|..] == x;
  }

  // ---- strings ----

  lemma HexRead(d: nat)
    requires d < 16
    ensures HexValue(HexDigit(d)) == Some(d)
  {
  }

  lemma HexDigitsOf(n: nat)
    requires n < 0x10000
    ensures n == 4096 * (n / 4096) + 256 * (n / 256 % 16) + 16 * (n / 16 % 16) + n % 16
  {
    assert n / 16 == 16 * (n / 256) + n / 16 % 16;
    assert n / 256 == 16 * (n / 4096) + n / 256 % 16;
  }

  lemma ReadsUnit(n: nat, x: string)
    requires n < 0x10000
    ensures ReadUnit(Hex4(n) + x) == Some(n) && (Hex4(n) + x)[4..] == x
  {
    hide HexDigit, HexValue;
    var a, b, c, d := n / 4096, n / 256 % 16, n / 16 % 16, n % 16;
    HexDigitsOf(n);
    HexRead(a);
    HexRead(b);
    HexRead(c);
    HexRead(d);
    var s := Hex4(n) + x;
    assert s[0] == HexDigit(a) && s[1] == HexDigit(b) && s[2] == HexDigit(c) && s[3] == HexDigit(d);
  }

  lemma PairValue(n: nat)
    requires 0x10000 <= n < 0x110000
    ensures 0x10000 + 0x400 * (HighSurrogate(n) - 0xD800) + (LowSurrogate(n) - 0xDC00) == n
  {
  }

  lemma ReadsPair(c: char, x: string)
    requires c as int >= 0x10000
    ensures ReadEscape(Hex4(HighSurrogate(c as int)) + ("\\u" + (Hex4(LowSurrogate(c as int)) + x))) == Some((c, x))
  {
    hide ReadUnit, Hex4, HighSurrogate, LowSurrogate;
    var hi, lo := HighSurrogate(c as int), LowSurrogate(c as int);
    var tail := Hex4(lo) + x;
    var s := Hex4(hi) + ("\\u" + tail);
    ReadsUnit(hi, "\\u" + tail);
    ReadsUnit(lo, x);
    PairValue(c as int);
    assert s[4] == '\\' && s[5] == 'u' && s[6..] == tail && s[10..] == tail[4..];
  }

  lemma ReadsBasic(c: char, x: string)
    requires c as int < 0x10000
    ensures ReadEscape(Hex4(c as int) + x) == Some((c, x))
  {
    hide ReadUnit, Hex4;
    ReadsUnit(c as int, x);
  }

  lemma ReadsEscaped(c: char, x: string)
    requires !IsPlain(c) && ShortEscape(c).None?
    ensures ReadChar(EscapeChar(c) + x) == Some((c, x))
  {
    hide ReadEscape, Hex4, HighSurrogate, LowSurrogate, ShortEscape;
    var n, s := c as int, EscapeChar(c) + x;
    if n < 0x10000 {
      ReadsBasic(c, x);
      assert s[2..] == Hex4(n) + x;
    } else {
      ReadsPair(c, x);
      assert s[2..] == Hex4(HighSurrogate(n)) + ("\\u" + (Hex4(LowSurrogate(n)) + x));
    }
    assert s[0] == '\\' && s[1] == 'u';
  }

  /** Each character is read back from the way it is printed. */
  lemma ReadsChar(c: char, x: string)
    ensures EscapeChar(c) + x != "" && (EscapeChar(c) + x)[0] != '"'
    ensures ReadChar(EscapeChar(c) + x) == Some((c, x))
  {
    if IsPlain(c) {
      assert ([c] + x)[1..] == x;
    } else if ShortEscape(c).Some? {
      assert (['\\', ShortEscape(c).value] + x)[2..] == x;
    } else {
      ReadsEscaped(c, x);
    }
  }

  lemma {:induction false} ReadsText(s: string, x: string)
    ensures ReadText(Escape(s) + ("\"" + x)) == Some((s, x))
  {
    hide EscapeChar, ReadChar;
    if s == "" {
      assert Escape(s) + ("\"" + x) == "\"" + x;
    } else {
      var rest := Escape(s[1..]) + ("\"" + x);
      Regroup(EscapeChar(s[0]), Escape(s[1..]), "\"" + x);
      ReadsChar(s[0], rest);
      ReadsText(s[1..], x);
      assert s == [s[0]] + s[1..];
    }
  }

  lemma QuotedSplits(s: string, x: string)
    ensures Quoted(s) + x == "\"" + (Escape(s) + ("\"" + x))
  {
    Regroup("\"", Escape(s) + "\"", x);
    Regroup(Escape(s), "\"", x);
  }

  // ---- values ----

  lemma NotLiteral(s: string)
    requires s != "" && s[0] !in {'n', 't', 'f'}
    ensures !("null" <= s) && !("true" <= s) && !("false" <= s)
  {
  }

  lemma ReadsBool(b: bool, x: string)
    ensures ReadValue(Canonical(JBool(b)) + x) == Some((JBool(b), x))
  {
    if b {
      assert ("true" + x)[..4] == "true" && ("true" + x)[4..] == x && ("true" + x)[0] == 't';
    } else {
      assert ("false" + x)[..5] == "false" && ("false" + x)[5..] == x && ("false" + x)[0] == 'f';
    }
  }

  lemma ReadsNull(x: string)
    ensures ReadValue(Canonical(JNull) + x) == Some((JNull, x))
  {
    assert ("null" + x)[..4] == "null" && ("null" + x)[4..] == x;
  }

  lemma ReadsInt(n: int, x: string)
    requires ClosesValue(x)
    ensures ReadValue(Canonical(JInt(n)) + x) == Some((JInt(n), x))
  {
    hide ReadNatural, NatText, IntText;
    var s := IntText(n) + x;
    SignOf(n);
    FirstChar(IntText(n), x);
    NotLiteral(s);
    if n < 0 {
      ReadsNatural(-n, x);
      assert s[1..] == NatText(-n) + x;
    } else {
      ReadsNatural(n, x);
    }
  }

  lemma ReadsStr(t: string, x: string)
    ensures ReadValue(Canonical(JStr(t)) + x) == Some((JStr(t), x))
  {
    var s := Quoted(t) + x;
    QuotedSplits(t, x);
    NotLiteral(s);
    ReadsText(t, x);
    assert s[1..] == Escape(t) + ("\"" + x);
  }

  /** The canonical text of a value, before anything that can follow a value, is read as that value
      and nothing more: it is the value's JSON text, without white space. */
  lemma {:induction false} CanonicalReads(j: Json, x: string)
    requires ClosesValue(x)
    ensures ReadValue(Canonical(j) + x) == Some((j, x))
    decreases j, 2
  {
    hide Canonical, ReadValue;
    match j
    case JNull => ReadsNull(x);
    case JBool(b) => ReadsBool(b, x);
    case JInt(n) => ReadsInt(n, x);
    case JStr(t) => ReadsStr(t, x);
    case JList(items) =>
      if items != [] {
        ReadsItems(items, x);
      }
      ReadsList(items, x);
    case JObj(fields) =>
      var ks := SortedKeys(fields.Keys);
      SortedKeysMeans(fields.Keys);
      if ks != [] {
        ReadsMembers(j, ks, x);
      }
      ReadsObject(j, ks, x);
  }

  /** The items as the reader meets them: after the opening bracket, without the first comma. */
  function ItemsText(items: seq<Json>): string
    requires items != []
  {
    Canonical(items[0]) + ItemsTail(items[1..])
  }

  lemma ReadsList(items: seq<Json>, x: string)
    requires items != [] ==> ReadItems(ItemsText(items) + x) == Some((items, x))
    ensures ReadValue(Canonical(JList(items)) + x) == Some((JList(items), x))
  {
    hide ReadItems;
    var s := Canonical(JList(items)) + x;
    if items == [] {
      assert s == "[]" + x && s[2..] == x;
    } else {
      assert ItemsTail(items) == "," + ItemsText(items);
      assert Canonical(JList(items)) == "[" + ItemsText(items);
      assert s[1..] == ItemsText(items) + x;
      assert s[1] == Canonical(items[0])[0];
    }
    NotLiteral(s);
  }

  lemma {:induction false} ReadsItems(items: seq<Json>, x: string)
    requires items != []
    ensures ReadItems(ItemsText(items) + x) == Some((items, x))
    decreases items, 1
  {
    hide Canonical, ReadValue;
    var rest := ItemsTail(items[1..]) + x;
    Regroup(Canonical(items[0]), ItemsTail(items[1..]), x);
    FirstChar(ItemsTail(items[1..]), x);
    CanonicalReads(items[0], rest);
    if items[1..] == [] {
      assert rest == "]" + x && rest[1..] == x;
      assert items == [items[0]];
    } else {
      ReadsItems(items[1..], x);
      assert rest[1..] == ItemsText(items[1..]) + x;
      assert items == [items[0]] + items[1..];
    }
  }

  /** The members as the reader meets them. */
  function MembersText(j: Json, keys: seq<string>): string
    requires j.JObj? && keys != [] && forall k :: k in keys ==> k in j.fields
  {
    Quoted(keys[0]) + (":" + (Canonical(j.fields[keys[0]]) + MembersTail(j, keys[1..])))
  }

  /** The fields of j under these keys. */
  function Under(j: Json, keys: seq<string>): Fields
    requires j.JObj? && forall k :: k in keys ==> k in j.fields
  {
    map k | k in keys :: j.fields[k]
  }

  lemma ObjectText(j: Json)
    requires j.JObj?
    ensures forall k :: k in SortedKeys(j.fields.Keys) <==> k in j.fields
    ensures Canonical(j) == "{" + AfterFirstComma(MembersTail(j, SortedKeys(j.fields.Keys)))
  {
    SortedKeysMeans(j.fields.Keys);
  }

  lemma MembersStart(j: Json, keys: seq<string>)
    requires j.JObj? && keys != [] && forall k :: k in keys ==> k in j.fields
    ensures MembersText(j, keys) != "" && MembersText(j, keys)[0] == '"'
    ensures AfterFirstComma(MembersTail(j, keys)) == MembersText(j, keys)
  {
    hide Canonical, Escape;
    MembersTailIs(j, keys);
  }

  lemma NoMembers(j: Json)
    requires j.JObj?
    ensures AfterFirstComma(MembersTail(j, [])) == "}"
  {
  }

  lemma ReadsObject(j: Json, keys: seq<string>, x: string)
    requires j.JObj? && keys == SortedKeys(j.fields.Keys)
    requires forall k :: k in keys <==> k in j.fields
    requires keys != [] ==> ReadMembers(MembersText(j, keys) + x) == Some((Under(j, keys), x))
    ensures ReadValue(Canonical(j) + x) == Some((j, x))
  {
    hide ReadMembers, SortedKeys, Canonical, MembersTail, MembersText, AfterFirstComma, ReadText, ReadItems;
    var s := Canonical(j) + x;
    ObjectText(j);
    assert Under(j, keys) == j.fields;
    if keys == [] {
      NoMembers(j);
      assert s == "{}" + x && s[2..] == x;
    } else {
      MembersStart(j, keys);
      assert s[1..] == MembersText(j, keys) + x;
      assert s[0] == '{' && s[1] == '"';
    }
    NotLiteral(s);
  }

  lemma MembersSplit(j: Json, keys: seq<string>, x: string)
    requires j.JObj? && keys != [] && forall k :: k in keys ==> k in j.fields
    ensures var value := Canonical(j.fields[keys[0]]) + (MembersTail(j, keys[1..]) + x);
      MembersText(j, keys) + x == "\"" + (Escape(keys[0]) + ("\"" + (":" + value)))
  {
    hide Canonical, Escape;
    var v, t := Canonical(j.fields[keys[0]]), MembersTail(j, keys[1..]);
    Regroup(Quoted(keys[0]), ":" + (v + t), x);
    Regroup(":", v + t, x);
    Regroup(v, t, x);
    QuotedSplits(keys[0], ":" + (v + (t + x)));
  }

  lemma {:induction false} ReadsMembers(j: Json, keys: seq<string>, x: string)
    requires j.JObj? && keys != [] && forall k :: k in keys ==> k in j.fields
    ensures ReadMembers(MembersText(j, keys) + x) == Some((Under(j, keys), x))
    decreases j, 1, |keys|
  {
    hide Canonical, ReadValue, MembersText, Escape, ReadText;
    var k, tail := keys[0], MembersTail(j, keys[1..]) + x;
    var value := Canonical(j.fields[k]) + tail;
    var s := MembersText(j, keys) + x;
    MembersSplit(j, keys, x);
    assert s[0] == '"' && s[1..] == Escape(k) + ("\"" + (":" + value));
    ReadsText(k, ":" + value);
    assert (":" + value)[1..] == value;
    FirstChar(MembersTail(j, keys[1..]), x);
    CanonicalReads(j.fields[k], tail);
    if keys[1..] == [] {
      assert tail == "}" + x && tail[1..] == x;
      assert Under(j, keys) == map[k := j.fields[k]];
    } else {
      ReadsMembers(j, keys[1..], x);
      MembersTailIs(j, keys[1..]);
      assert tail[1..] == MembersText(j, keys[1..]) + x;
      assert forall o :: o in keys <==> o == k || o in keys[1..];
      assert Under(j, keys) == map[k := j.fields[k]] + Under(j, keys[1..]);
    }
  }

  lemma MembersTailIs(j: Json, keys: seq<string>)
    requires j.JObj? && keys != [] && forall k :: k in keys ==> k in j.fields
    ensures MembersTail(j, keys) == "," + MembersText(j, keys)
  {
  }

  /** Two values whose canonical texts agree, each followed by text that closes a value, are the
      same value. */
  lemma CanonicalUnambiguous(a: Json, b: Json, x: string, y: string)
    requires Canonical(a) + x == Canonical(b) + y
    requires ClosesValue(x) && ClosesValue(y)
    ensures a == b && x == y
  {
    hide Canonical, ReadValue;
    CanonicalReads(a, x);
    CanonicalReads(b, y);
  }

  /** The canonical text determines the value. */
  lemma CanonicalInjective(a: Json, b: Json)
    requires Canonical(a) == Canonical(b)
    ensures a == b
  {
    hide Canonical, ReadValue;
    assert Canonical(a) + "" == Canonical(a) && Canonical(b) + "" == Canonical(b);
    CanonicalUnambiguous(a, b, "", "");
  }

  // ---- the choices JSON leaves open ----

  lemma LowerCaseHex(n: nat)
    requires n < 0x10000
    ensures forall i :: 0 <= i < 4 ==> '0' <= Hex4(n)[i] <= '9' || 'a' <= Hex4(n)[i] <= 'f'
  {
    HexLetters(n / 4096);
    HexLetters(n / 256 % 16);
    HexLetters(n / 16 % 16);
    HexLetters(n % 16);
  }

  lemma HexLetters(d: nat)
    requires d < 16
    ensures '0' <= HexDigit(d) <= '9' || 'a' <= HexDigit(d) <= 'f'
  {
  }

  /** The spelling JSON has for a character by a letter, if it has one. */
  lemma LettersOf(c: char)
    ensures c == '"' ==> EscapeChar(c) == "\\\""
    ensures c == '\\' ==> EscapeChar(c) == "\\\\"
    ensures c as int == 8 ==> EscapeChar(c) == "\\b"
    ensures c as int == 9 ==> EscapeChar(c) == "\\t"
    ensures c as int == 10 ==> EscapeChar(c) == "\\n"
    ensures c as int == 12 ==> EscapeChar(c) == "\\f"
    ensures c as int == 13 ==> EscapeChar(c) == "\\r"
  {
  }

  /** One escape of a code unit, in lower case. */
  predicate IsUnit(s: string) {
    |s| == 6 && s[0] == '\\' && s[1] == 'u'
    && forall i :: 2 <= i < 6 ==> '0' <= s[i] <= '9' || 'a' <= s[i] <= 'f'
  }

  lemma UnitIsUnit(n: nat)
    requires n < 0x10000
    ensures IsUnit(UnicodeEscape(n))
  {
    hide Hex4;
    LowerCaseHex(n);
    var s := UnicodeEscape(n);
    forall i | 2 <= i < 6 ensures '0' <= s[i] <= '9' || 'a' <= s[i] <= 'f' {
      assert s[i] == Hex4(n)[i - 2];
    }
  }

  /** Which of its JSON spellings a character gets that has no letter: itself if it is printable
      ASCII, else one or two units of four lower-case hexadecimal digits. */
  lemma SpellingOf(c: char)
    requires c != '"' && c != '\\' && c as int !in {8, 9, 10, 12, 13}
    ensures 0x20 <= c as int < 0x7f ==> EscapeChar(c) == [c]
    ensures (c as int < 0x20 || 0x7f <= c as int < 0x10000) ==> IsUnit(EscapeChar(c))
    ensures c as int >= 0x10000 ==>
      |EscapeChar(c)| == 12 && IsUnit(EscapeChar(c)[..6]) && IsUnit(EscapeChar(c)[6..])
  {
    hide UnicodeEscape, IsUnit;
    if c as int >= 0x10000 {
      UnitIsUnit(HighSurrogate(c as int));
      UnitIsUnit(LowSurrogate(c as int));
      assert EscapeChar(c)[..6] == UnicodeEscape(HighSurrogate(c as int));
      assert EscapeChar(c)[6..] == UnicodeEscape(LowSurrogate(c as int));
    } else if c as int < 0x20 || 0x7f <= c as int {
      UnitIsUnit(c as int);
    }
  }

  /** Members come in the order of their names' code points, a prefix first. */
  lemma {:induction false} TextLeqMeans(a: string, b: string)
    ensures TextLeq(a, b) <==> a <= b || exists i :: DiffersAt(a, b, i) && a[i] as int < b[i] as int
  {
    if a != "" && b != "" {
      if a[0] == b[0] {
        TextLeqMeans(a[1..], b[1..]);
        assert a == [a[0]] + a[1..] && b == [b[0]] + b[1..];
        if i :| DiffersAt(a[1..], b[1..], i) && a[1..][i] as int < b[1..][i] as int {
          assert a[..i + 1] == [a[0]] + a[1..][..i] && b[..i + 1] == [b[0]] + b[1..][..i];
          assert DiffersAt(a, b, i + 1);
        }
        if i :| DiffersAt(a, b, i) && a[i] as int < b[i] as int {
          assert i > 0;
          assert a[1..][..i - 1] == a[..i][1..] && b[1..][..i - 1] == b[..i][1..];
          assert DiffersAt(a[1..], b[1..], i - 1);
        }
      } else {
        assert DiffersAt(a, b, 0);
        assert forall i :: DiffersAt(a, b, i) ==> i == 0;
      }
    }
  }

  /** Index i is the first at which the two texts differ. */
  predicate DiffersAt(a: string, b: string, i: int) {
    0 <= i < |a| && i < |b| && a[..i] == b[..i] && a[i] != b[i]
  }

  // ---- ASCII ----

  predicate Printable(s: string) {
    forall i :: 0 <= i < |s| ==> ' ' <= s[i] <= '~'
  }

  lemma UnicodeEscapePrintable(n: nat)
    requires n < 0x10000
    ensures Printable(UnicodeEscape(n))
  {
    forall d: nat | d < 16 ensures ' ' <= HexDigit(d) <= '~' {
    }
  }

  lemma JoinPrintable(s: string, t: string)
    requires Printable(s) && Printable(t)
    ensures Printable(s + t)
  {
  }

  lemma EscapeCharPrintable(c: char)
    ensures Printable(EscapeChar(c))
  {
    if IsPlain(c) || ShortEscape(c).Some? {
    } else if (c as int) < 0x10000 {
      UnicodeEscapePrintable(c as int);
    } else {
      UnicodeEscapePrintable(HighSurrogate(c as int));
      UnicodeEscapePrintable(LowSurrogate(c as int));
      JoinPrintable(UnicodeEscape(HighSurrogate(c as int)), UnicodeEscape(LowSurrogate(c as int)));
    }
  }

  lemma {:induction false} EscapePrintable(s: string)
    ensures Printable(Escape(s))
  {
    if s != "" {
      EscapeCharPrintable(s[0]);
      EscapePrintable(s[1..]);
    }
  }

  lemma {:induction false} NatTextPrintable(n: nat)
    ensures Printable(NatText(n))
  {
    if n >= 10 {
      NatTextPrintable(n / 10);
    }
  }

  lemma QuotedPrintable(s: string)
    ensures Printable(Quoted(s))
  {
    EscapePrintable(s);
    JoinPrintable(Escape(s), "\"");
    JoinPrintable("\"", Escape(s) + "\"");
  }

  lemma BracketPrintable(open: char, tail: string)
    requires ' ' <= open <= '~' && Printable(tail)
    ensures Printable([open] + AfterFirstComma(tail))
  {
  }

  /** Every character of a canonical text is printable ASCII, so its UTF-8 encoding is one
      byte per character. */
  lemma {:induction false} CanonicalPrintable(j: Json)
    ensures Printable(Canonical(j))
    decreases j, 2
  {
    match j
    case JNull =>
    case JBool(_) =>
    case JInt(n) => NatTextPrintable(if n < 0 then -n else n);
    case JStr(s) => QuotedPrintable(s);
    case JList(items) =>
      ItemsPrintable(items);
      BracketPrintable('[', ItemsTail(items));
    case JObj(fields) =>
      SortedKeysMeans(fields.Keys);
      MembersPrintable(j, SortedKeys(fields.Keys));
      BracketPrintable('{', MembersTail(j, SortedKeys(fields.Keys)));
  }

  lemma {:induction false} ItemsPrintable(items: seq<Json>)
    ensures Printable(ItemsTail(items))
    decreases items, 1
  {
    if items != [] {
      CanonicalPrintable(items[0]);
      ItemsPrintable(items[1..]);
      JoinPrintable(Canonical(items[0]), ItemsTail(items[1..]));
      JoinPrintable(",", Canonical(items[0]) + ItemsTail(items[1..]));
    }
  }

  lemma {:induction false} MembersPrintable(j: Json, keys: seq<string>)
    requires j.JObj? && forall k :: k in keys ==> k in j.fields
    ensures Printable(MembersTail(j, keys))
    decreases j, 1, |keys|
  {
    if keys != [] {
      var k, v, t := Quoted(keys[0]), Canonical(j.fields[keys[0]]), MembersTail(j, keys[1..]);
      QuotedPrintable(keys[0]);
      CanonicalPrintable(j.fields[keys[0]]);
      MembersPrintable(j, keys[1..]);
      JoinPrintable(v, t);
      JoinPrintable(":", v + t);
      JoinPrintable(k, ":" + (v + t));
      JoinPrintable(",", k + (":" + (v + t)));
    }
  }
}
