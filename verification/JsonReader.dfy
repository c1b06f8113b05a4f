/** A reader of JSON text after RFC 8259, sections 3 to 7, for text without insignificant white
    space. It knows nothing of the printer. */
module JsonReader {
  import opened Wrappers
  import opened Json

  // ---- numbers (section 6), integers only ----

  predicate Digit(c: char) {
    '0' <= c <= '9'
  }

  /** How many digits the text starts with. */
  function DigitRun(s: string): (n: nat)
    ensures n <= |s|
  {
    if s == "" || !Digit(s[0]) then 0 else 1 + DigitRun(s[1..])
  }

  /** The number those digits write after `acc`. */
  function NumberIn(s: string, acc: nat): nat {
    if s == "" || !Digit(s[0]) then acc else NumberIn(s[1..], 10 * acc + (s[0] as int - '0' as int))
  }

  /** No leading zeros; a fraction or an exponent is no integer. */
  function ReadNatural(s: string): (r: Option<(nat, string)>)
    ensures r.Some? ==> |r.value.1| < |s|
  {
    var n := DigitRun(s);
    if n == 0 || (n > 1 && s[0] == '0') then None
    else if n < |s| && s[n] in {'.', 'e', 'E'} then None
    else Some((NumberIn(s, 0), s[n..]))
  }

  // ---- strings (section 7) ----

  function HexValue(c: char): Option<nat> {
    if '0' <= c <= '9' then Some(c as int - '0' as int)
    else if 'a' <= c <= 'f' then Some(c as int - 'a' as int + 10)
    else if 'A' <= c <= 'F' then Some(c as int - 'A' as int + 10)
    else None
  }

  /** Four hexadecimal digits. */
  function ReadUnit(s: string): (u: Option<nat>)
    ensures u.Some? ==> |s| >= 4 && u.value < 0x10000
  {
    if |s| < 4 then None
    else
      match (HexValue(s[0]), HexValue(s[1]), HexValue(s[2]), HexValue(s[3]))
      case (Some(a), Some(b), Some(c), Some(d)) =>
        if a < 16 && b < 16 && c < 16 && d < 16 then Some(0x1000 * a + 0x100 * b + 0x10 * c + d) else None
      case _ => None
  }

  /** After `\u`: one code unit, or a surrogate pair. */
  function ReadEscape(s: string): (r: Option<(char, string)>)
    ensures r.Some? ==> |r.value.1| < |s|
  {
    match ReadUnit(s)
    case None => None
    case Some(u) =>
      if 0xD800 <= u < 0xDC00 then
        if |s| >= 6 && s[4] == '\\' && s[5] == 'u' then
          match ReadUnit(s[6..])
          case None => None
          case Some(v) =>
            if 0xDC00 <= v < 0xE000
            then Some(((0x10000 + 0x400 * (u - 0xD800) + (v - 0xDC00)) as char, s[10..]))
            else None
        else None
      else if 0xDC00 <= u < 0xE000 then None
      else Some((u as char, s[4..]))
  }

  /** One character of a string, escaped or not. */
  function ReadChar(s: string): (r: Option<(char, string)>)
    ensures r.Some? ==> |r.value.1| < |s|
  {
    if s == "" || s[0] < ' ' || s[0] == '"' then None
    else if s[0] != '\\' then Some((s[0], s[1..]))
    else if |s| < 2 then None
    else
      match s[1]
      case '"' => Some(('"', s[2..]))
      case '\\' => Some(('\\', s[2..]))
      case '/' => Some(('/', s[2..]))
      case 'b' => Some(('\U{08}', s[2..]))
      case 'f' => Some(('\U{0C}', s[2..]))
      case 'n' => Some(('\U{0A}', s[2..]))
      case 'r' => Some(('\U{0D}', s[2..]))
      case 't' => Some(('\U{09}', s[2..]))
      case 'u' => ReadEscape(s[2..])
      case _ => None
  }

  /** After the opening quote. */
  function ReadText(s: string): (r: Option<(string, string)>)
    ensures r.Some? ==> |r.value.1| < |s|
    decreases |s|
  {
    if s == "" then None
    else if s[0] == '"' then Some(("", s[1..]))
    else
      match ReadChar(s)
      case None => None
      case Some((c, t)) =>
        match ReadText(t)
        case None => None
        case Some((cs, u)) => Some(([c] + cs, u))
  }

  // ---- values (sections 3 to 5) ----

  function ReadValue(s: string): (r: Option<(Json, string)>)
    ensures r.Some? ==> |r.value.1| < |s|
    decreases |s|, 1
  {
    if s == "" then None
    else if "null" <= s then Some((JNull, s[4..]))
    else if "true" <= s then Some((JBool(true), s[4..]))
    else if "false" <= s then Some((JBool(false), s[5..]))
    else
      match s[0]
      case '"' =>
        (match ReadText(s[1..])
         case None => None
         case Some((t, u)) => Some((JStr(t), u)))
      case '[' =>
        if |s| > 1 && s[1] == ']' then Some((JList([]), s[2..]))
        else
          (match ReadItems(s[1..])
           case None => None
           case Some((items, u)) => Some((JList(items), u)))
      case '{' =>
        if |s| > 1 && s[1] == '}' then Some((JObj(map[]), s[2..]))
        else
          (match ReadMembers(s[1..])
           case None => None
           case Some((fields, u)) => Some((JObj(fields), u)))
      case '-' =>
        (match ReadNatural(s[1..])
         case None => None
         case Some((n, u)) => Some((JInt(-(n as int)), u)))
      case _ =>
        (match ReadNatural(s)
         case None => None
         case Some((n, u)) => Some((JInt(n), u)))
  }

  /** Values between commas, up to the closing bracket. */
  function ReadItems(s: string): (r: Option<(seq<Json>, string)>)
    ensures r.Some? ==> |r.value.1| < |s|
    decreases |s|, 2
  {
    match ReadValue(s)
    case None => None
    case Some((v, t)) =>
      if t == "" then None
      else if t[0] == ']' then Some(([v], t[1..]))
      else if t[0] == ',' then
        match ReadItems(t[1..])
        case None => None
        case Some((vs, u)) => Some(([v] + vs, u))
      else None
  }

  /** Members between commas, up to the closing brace; of equal names the last one counts. */
  function ReadMembers(s: string): (r: Option<(Fields, string)>)
    ensures r.Some? ==> |r.value.1| < |s|
    decreases |s|, 2
  {
    if s == "" || s[0] != '"' then None
    else
      match ReadText(s[1..])
      case None => None
      case Some((k, t)) =>
        if t == "" || t[0] != ':' then None
        else
          match ReadValue(t[1..])
          case None => None
          case Some((v, u)) =>
            if u == "" then None
            else if u[0] == '}' then Some((map[k := v], u[1..]))
            else if u[0] == ',' then
              match ReadMembers(u[1..])
              case None => None
              case Some((fields, w)) => Some((map[k := v] + fields, w))
            else None
  }
}
