/** Decimal numerals as the source prints and reads them: `str(n)` on one side,
    `int(text)` on the other.  */
module Decimal {

  import opened Wrappers

  predicate IsDigit(c: char) {
    '0' <= c <= '9'
  }

  predicate AllDigits(s: string) {
    forall i :: 0 <= i < |s| ==> IsDigit(s[i])
  }

  function DigitChar(d: nat): (c: char)
    requires d < 10
    ensures IsDigit(c) && DigitValue(c) == d
  {
    "0123456789"[d]
  }

  function DigitValue(c: char): nat
    requires IsDigit(c)
  {
    c as int - '0' as int
  }

  /** The decimal numeral of a natural number, without leading zeros. */
  function NatText(n: nat): (s: string)
    ensures |s| > 0 && AllDigits(s)
  {
    if n < 10 then [DigitChar(n)] else NatText(n / 10) + [DigitChar(n % 10)]
  }

  function NatValue(s: string): nat
    requires AllDigits(s)
  {
    if s == "" then 0 else 10 * NatValue(s[..|s| - 1]) + DigitValue(s[|s| - 1])
  }

  lemma {:induction false} NatValueOfText(n: nat)
    ensures NatValue(NatText(n)) == n
  {
    var s := NatText(n);
    if n >= 10 {
      assert s[..|s| - 1] == NatText(n / 10);
      NatValueOfText(n / 10);
    }
  }

  function IntText(n: int): (s: string)
    ensures |s| > 0 && (s[0] == '-' || IsDigit(s[0]))
  {
    if n < 0 then "-" + NatText(-n) else NatText(n)
  }

  predicate StartsWithDigit(s: string) {
    s != "" && IsDigit(s[0])
  }

  /** A run of digits cannot outlast an equal text whose tail starts with no digit. */
  lemma DigitRunEnds(s: string, t: string, x: string, y: string)
    requires AllDigits(t) && s + x == t + y && !StartsWithDigit(x)
    ensures |t| <= |s|
  {
    assert x != "" ==> (s + x)[|s|] == x[0];
  }

  lemma NatTextUnambiguous(a: nat, b: nat, x: string, y: string)
    requires NatText(a) + x == NatText(b) + y
    requires !StartsWithDigit(x) && !StartsWithDigit(y)
    ensures a == b && x == y
  {
    var s, t := NatText(a), NatText(b);
    DigitRunEnds(s, t, x, y);
    DigitRunEnds(t, s, y, x);
    assert s == (s + x)[..|s|] == (t + y)[..|t|] == t;
    assert x == (s + x)[|s|..] == (t + y)[|t|..] == y;
    NatValueOfText(a);
    NatValueOfText(b);
  }

  lemma FirstChar(s: string, x: string)
    requires s != ""
    ensures s + x != "" && (s + x)[0] == s[0] && (s + x)[1..] == s[1..] + x
  {
  }

  /** A numeral followed by anything but a digit can be read back in one way only. */
  lemma IntTextUnambiguous(a: int, b: int, x: string, y: string)
    requires IntText(a) + x == IntText(b) + y
    requires !StartsWithDigit(x) && !StartsWithDigit(y)
    ensures a == b && x == y
  {
    hide IntText, NatText;
    FirstChar(IntText(a), x);
    FirstChar(IntText(b), y);
    SignOf(a);
    SignOf(b);
    if a < 0 {
      NatTextUnambiguous(-a, -b, x, y);
    } else {
      NatTextUnambiguous(a, b, x, y);
    }
  }

  lemma SignOf(n: int)
    ensures n < 0 ==> IntText(n)[0] == '-' && IntText(n)[1..] == NatText(-n)
    ensures n >= 0 ==> IntText(n) == NatText(n) && IsDigit(IntText(n)[0])
  {
  }

  // ---- reading: Python's int(text) ----

  /** `str.isspace`. */
  predicate IsSpace(c: char) {
    || '\t' <= c <= '\r' || '\U{1C}' <= c <= ' ' || c in {'\U{85}', '\U{A0}', '\U{1680}'}
    || '\U{2000}' <= c <= '\U{200A}' || c in {'\U{2028}', '\U{2029}', '\U{202F}', '\U{205F}', '\U{3000}'}
  }

  /** What `int` skips around a numeral: the four separators below the space are not among it. */
  predicate IsNumeralSpace(c: char) {
    IsSpace(c) && !('\U{1C}' <= c <= '\U{1F}')
  }

  /** White space by code point, as Python has it. */
  lemma SpaceMeans(c: char)
    ensures IsSpace(c) <==>
      || 9 <= c as int <= 13 || 28 <= c as int <= 32 || 0x2000 <= c as int <= 0x200A
      || c as int in {0x85, 0xA0, 0x1680, 0x2028, 0x2029, 0x202F, 0x205F, 0x3000}
    ensures IsNumeralSpace(c) <==> IsSpace(c) && c as int !in {28, 29, 30, 31}
  {
  }

  function Strip(s: string, space: char -> bool): string {
    if s != "" && space(s[0]) then Strip(s[1..], space)
    else if s != "" && space(s[|s| - 1]) then Strip(s[..|s| - 1], space)
    else s
  }

  /** Nothing is left exactly when there was nothing but space. */
  lemma {:induction false} StripEmpties(s: string, space: char -> bool)
    ensures Strip(s, space) == "" <==> forall i :: 0 <= i < |s| ==> space(s[i])
  {
    if s != "" && space(s[0]) {
      StripEmpties(s[1..], space);
      assert forall i :: 1 <= i < |s| ==> s[i] == s[1..][i - 1];
    } else if s != "" && space(s[|s| - 1]) {
      StripEmpties(s[..|s| - 1], space);
    }
  }

  /** Digits with single underscores between them: `1_000` reads as 1000. */
  function ReadDigits(s: string, acc: nat): Option<nat>
    decreases |s|
  {
    if s == "" || !IsDigit(s[0]) then None
    else
      var acc' := 10 * acc + DigitValue(s[0]);
      if |s| == 1 then Some(acc')
      else if s[1] == '_' then ReadDigits(s[2..], acc')
      else ReadDigits(s[1..], acc')
  }

  function ReadInt(text: string): Option<int> {
    var s := Strip(text, IsNumeralSpace);
    if s != "" && s[0] == '-' then
      match ReadDigits(s[1..], 0) case None => None case Some(n) => Some(-(n as int))
    else if s != "" && s[0] == '+' then
      match ReadDigits(s[1..], 0) case None => None case Some(n) => Some(n)
    else
      match ReadDigits(s, 0) case None => None case Some(n) => Some(n)
  }

  function Shifted(acc: nat, s: string): nat
    requires AllDigits(s)
    decreases s
  {
    if s == "" then acc else Shifted(10 * acc + DigitValue(s[0]), s[1..])
  }

  lemma {:induction false} ShiftedAppend(acc: nat, s: string, d: char)
    requires AllDigits(s) && IsDigit(d)
    ensures AllDigits(s + [d])
    ensures Shifted(acc, s + [d]) == 10 * Shifted(acc, s) + DigitValue(d)
    decreases s
  {
    if s == "" {
      assert s + [d] == [d];
      assert Shifted(acc, [d]) == Shifted(10 * acc + DigitValue(d), [d][1..]);
    } else {
      assert (s + [d])[1..] == s[1..] + [d];
      ShiftedAppend(10 * acc + DigitValue(s[0]), s[1..], d);
    }
  }

  lemma {:induction false} ShiftedIsValue(s: string)
    requires AllDigits(s)
    ensures Shifted(0, s) == NatValue(s)
  {
    if s != "" {
      var init := s[..|s| - 1];
      ShiftedIsValue(init);
      assert s == init + [s[|s| - 1]];
      ShiftedAppend(0, init, s[|s| - 1]);
    }
  }

  lemma {:induction false} ReadDigitsOfDigits(s: string, acc: nat)
    requires s != "" && AllDigits(s)
    ensures ReadDigits(s, acc) == Some(Shifted(acc, s))
    decreases s
  {
    var acc' := 10 * acc + DigitValue(s[0]);
    if |s| == 1 {
      assert s[1..] == "";
    } else {
      ReadDigitsOfDigits(s[1..], acc');
    }
  }

  /** `int(str(n)) == n` for every integer. */
  lemma ReadIntOfText(n: int)
    ensures ReadInt(IntText(n)) == Some(n)
  {
    var s := IntText(n);
    var digits := NatText(if n < 0 then -n else n);
    assert !IsNumeralSpace(s[0]);
    assert s[|s| - 1] == digits[|digits| - 1];
    assert Strip(s, IsNumeralSpace) == s;
    NatValueOfText(if n < 0 then -n else n);
    ShiftedIsValue(digits);
    ReadDigitsOfDigits(digits, 0);
    if n < 0 {
      assert s[1..] == digits;
    }
  }

  // ---- every text int() takes ----

  /** Digits, with underscores only between two of them. */
  predicate Numeral(s: string) {
    && s != "" && s[0] != '_' && s[|s| - 1] != '_'
    && (forall i :: 0 <= i < |s| ==> IsDigit(s[i]) || s[i] == '_')
    && forall i :: 0 <= i < |s| - 1 ==> s[i] != '_' || s[i + 1] != '_'
  }

  /** The text without its underscores. */
  function Figures(s: string): (t: string)
    ensures (forall i :: 0 <= i < |s| ==> IsDigit(s[i]) || s[i] == '_') ==> AllDigits(t)
  {
    if s == "" then ""
    else
      assert forall i :: 0 <= i < |s| - 1 ==> s[1..][i] == s[i + 1];
      (if s[0] == '_' then "" else [s[0]]) + Figures(s[1..])
  }

  lemma NumeralRest(s: string)
    requires |s| > 1 && IsDigit(s[0])
    ensures s[1] == '_' ==> (Numeral(s) <==> Numeral(s[2..]))
    ensures s[1] != '_' ==> (Numeral(s) <==> Numeral(s[1..]))
  {
    var n := if s[1] == '_' then 2 else 1;
    var rest := s[n..];
    assert forall i :: 0 <= i < |rest| ==> rest[i] == s[i + n];
    if Numeral(rest) {
      forall i | 0 <= i < |s| ensures IsDigit(s[i]) || s[i] == '_' {
        assert i >= n ==> rest[i - n] == s[i];
      }
      forall i | 0 <= i < |s| - 1 ensures s[i] != '_' || s[i + 1] != '_' {
        assert i >= n ==> rest[i - n] == s[i] && rest[i - n + 1] == s[i + 1];
      }
    }
  }

  lemma {:induction false} ReadDigitsExactly(s: string, acc: nat)
    ensures ReadDigits(s, acc).Some? <==> Numeral(s)
    ensures Numeral(s) ==> ReadDigits(s, acc) == Some(Shifted(acc, Figures(s)))
    decreases |s|
  {
    if s != "" && IsDigit(s[0]) {
      var acc' := 10 * acc + DigitValue(s[0]);
      if |s| == 1 {
        assert s[1..] == "" && [s[0]] + "" == [s[0]] && [s[0]][1..] == "";
        assert Shifted(acc, [s[0]]) == Shifted(acc', "");
      } else {
        NumeralRest(s);
        ReadDigitsExactly(if s[1] == '_' then s[2..] else s[1..], acc');
        if Numeral(s) {
          FiguresRest(s, acc);
        }
      }
    }
  }

  lemma FiguresRest(s: string, acc: nat)
    requires |s| > 1 && Numeral(s)
    ensures Shifted(acc, Figures(s))
         == Shifted(10 * acc + DigitValue(s[0]), Figures(if s[1] == '_' then s[2..] else s[1..]))
  {
    var rest := Figures(s[1..]);
    assert s[1] == '_' ==> s[1..][1..] == s[2..] && rest == Figures(s[2..]);
    assert ([s[0]] + rest)[1..] == rest;
  }

  /** The text is a numeral with perhaps a sign before it and white space around both. */
  predicate Spelled(text: string, lead: string, sign: string, numeral: string, trail: string) {
    && text == lead + sign + numeral + trail
    && sign in {"", "+", "-"} && Numeral(numeral)
    && (forall i :: 0 <= i < |lead| ==> IsNumeralSpace(lead[i]))
    && forall i :: 0 <= i < |trail| ==> IsNumeralSpace(trail[i])
  }

  /** What stripping leaves has no space at its ends, and what it takes off is space. */
  lemma {:induction false} StripSplits(s: string, space: char -> bool) returns (lead: string, trail: string)
    ensures s == lead + Strip(s, space) + trail
    ensures (forall i :: 0 <= i < |lead| ==> space(lead[i])) && forall i :: 0 <= i < |trail| ==> space(trail[i])
  {
    if s != "" && space(s[0]) {
      lead, trail := StripSplits(s[1..], space);
      lead := [s[0]] + lead;
      assert s == [s[0]] + s[1..];
    } else if s != "" && space(s[|s| - 1]) {
      lead, trail := StripSplits(s[..|s| - 1], space);
      trail := trail + [s[|s| - 1]];
      assert s == s[..|s| - 1] + [s[|s| - 1]];
    } else {
      lead, trail := "", "";
    }
  }

  lemma {:induction false} StripOf(lead: string, core: string, trail: string, space: char -> bool)
    requires core != "" && !space(core[0]) && !space(core[|core| - 1])
    requires forall i :: 0 <= i < |lead| ==> space(lead[i])
    requires forall i :: 0 <= i < |trail| ==> space(trail[i])
    ensures Strip(lead + core + trail, space) == core
    decreases |lead| + |trail|
  {
    var s := lead + core + trail;
    if lead != "" {
      assert s[0] == lead[0] && s[1..] == lead[1..] + core + trail;
      StripOf(lead[1..], core, trail, space);
    } else if trail != "" {
      assert s[0] == core[0] && s[|s| - 1] == trail[|trail| - 1];
      assert s[..|s| - 1] == lead + core + trail[..|trail| - 1];
      StripOf(lead, core, trail[..|trail| - 1], space);
    } else {
      assert s == core;
    }
  }

  /** Every way to spell an integer is read as the number its figures write, with its sign. */
  lemma ReadIntSpelled(text: string, lead: string, sign: string, numeral: string, trail: string)
    requires Spelled(text, lead, sign, numeral, trail)
    ensures var n := NatValue(Figures(numeral));
      ReadInt(text) == Some(if sign == "-" then -(n as int) else n)
  {
    hide Strip, ReadDigits, Figures, NatValue, Shifted, IsNumeralSpace, Numeral;
    var core := sign + numeral;
    NumeralEnds(numeral);
    assert core[|core| - 1] == numeral[|numeral| - 1];
    NoSpace(core[0]);
    NoSpace(core[|core| - 1]);
    assert text == lead + core + trail;
    StripOf(lead, core, trail, IsNumeralSpace);
    ReadDigitsExactly(numeral, 0);
    ShiftedIsValue(Figures(numeral));
    if sign == "" {
      assert core == numeral;
    } else {
      assert core[0] == sign[0] && core[1..] == numeral;
    }
  }

  lemma NumeralEnds(s: string)
    requires Numeral(s)
    ensures s != "" && IsDigit(s[0]) && IsDigit(s[|s| - 1])
    ensures AllDigits(Figures(s))
  {
  }

  lemma NoSpace(c: char)
    requires IsDigit(c) || c in {'+', '-'}
    ensures !IsNumeralSpace(c)
  {
  }

  lemma ReadIsSpelled(text: string)
    requires ReadInt(text).Some?
    ensures exists lead, sign, numeral, trail :: Spelled(text, lead, sign, numeral, trail)
  {
    hide ReadDigits, Strip, Numeral, Figures, IsNumeralSpace;
    var s := Strip(text, IsNumeralSpace);
    var lead, trail := StripSplits(text, IsNumeralSpace);
    var sign := if s != "" && s[0] in {'+', '-'} then [s[0]] else "";
    var numeral := s[|sign|..];
    SignCut(s);
    ReadDigitsExactly(numeral, 0);
    assert lead + s + trail == lead + sign + numeral + trail;
    assert Spelled(text, lead, sign, numeral, trail);
  }

  lemma SignCut(s: string)
    ensures var sign := if s != "" && s[0] in {'+', '-'} then [s[0]] else "";
      s == sign + s[|sign|..] && sign in {"", "+", "-"}
  {
    if s != "" && s[0] in {'+', '-'} {
      assert [s[0]] == "+" || [s[0]] == "-";
    }
  }

  /** And nothing else is read. */
  lemma ReadIntExactly(text: string)
    ensures ReadInt(text).Some? <==> exists lead, sign, numeral, trail :: Spelled(text, lead, sign, numeral, trail)
  {
    hide ReadInt, Spelled;
    if ReadInt(text).Some? {
      ReadIsSpelled(text);
    }
    if lead, sign, numeral, trail :| Spelled(text, lead, sign, numeral, trail) {
      ReadIntSpelled(text, lead, sign, numeral, trail);
    }
  }
}
