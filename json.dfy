/**
 * JSON values and their text, as far as the menu serializer uses Python's
 * `json.dumps` and `json.loads`.
 *
 * `Dumps` writes what `json.dumps(v, ensure_ascii=False)` writes with its
 * default separators (", " between elements, ": " after a key): characters
 * outside ASCII appear as they are, not as `\u` escapes. `Loads` parses the
 * grammar of RFC 8259 (section 2 whitespace, section 3 values, section 4
 * objects, section 5 arrays, section 7 strings) with numbers restricted to
 * integers (section 6 without fraction and exponent) and `\u` escapes
 * restricted to code points outside the surrogate range U+D800 to U+DFFF.
 * `ValidJson` is acceptance by this parser: text that `json.loads` reads
 * without raising, as far as its numbers are integers and its `\u` escapes
 * are outside the surrogate range. The round trip `Loads(Dumps(v)) == Some(v)` is proved
 * (LoadsDumps), not assumed.
 */
module Json {
  import opened Wrappers

  datatype Json =
    | JNull
    | JBool(b: bool)
    | JNum(n: int)
    | JStr(s: string)
    | JArr(items: seq<Json>)
    | JObj(fields: seq<Field>)

  /** One member of a JSON object, in the order it is written. */
  datatype Field = Field(key: string, value: Json)

  // ----------------------------------------------------------------------
  // Characters

  predicate IsWs(c: char) {
    c == ' ' || c == '\t' || c == '\n' || c == '\r'
  }

  predicate IsDigit(c: char) {
    '0' <= c <= '9'
  }

  function Digit(d: nat): (c: char)
    requires d < 10
    ensures IsDigit(c)
  {
    (('0' as int) + d) as char
  }

  function HexDigit(d: nat): char
    requires d < 16
  {
    if d < 10 then (('0' as int) + d) as char else (('a' as int) + d - 10) as char
  }

  /** The value of a hexadecimal digit, in either case. */
  function HexValue(c: char): (r: Option<nat>)
    ensures r.Some? ==> r.value < 16
  {
    if '0' <= c <= '9' then Some(c as int - '0' as int)
    else if 'a' <= c <= 'f' then Some(c as int - 'a' as int + 10)
    else if 'A' <= c <= 'F' then Some(c as int - 'A' as int + 10)
    else None
  }

  // ----------------------------------------------------------------------
  // Encoding: json.dumps with ensure_ascii=False

  function Dumps(v: Json): string
  {
    match v
    case JNull => "null"
    case JBool(b) => if b then "true" else "false"
    case JNum(n) => IntText(n)
    case JStr(s) => Quote(s)
    case JArr(items) => "[" + DumpsItems(items) + "]"
    case JObj(fields) => "{" + DumpsFields(fields) + "}"
  }

  function DumpsItems(items: seq<Json>): string
  {
    if items == [] then ""
    else if |items| == 1 then Dumps(items[0])
    else Dumps(items[0]) + ", " + DumpsItems(items[1..])
  }

  function DumpsFields(fields: seq<Field>): string
  {
    if fields == [] then ""
    else if |fields| == 1 then DumpsField(fields[0])
    else DumpsField(fields[0]) + ", " + DumpsFields(fields[1..])
  }

  function DumpsField(f: Field): string
  {
    Quote(f.key) + ": " + Dumps(f.value)
  }

  /** Decimal digits of n, most significant first, without leading zeros. */
  function NatText(n: nat): string
  {
    if n < 10 then [Digit(n)] else NatText(n / 10) + [Digit(n % 10)]
  }

  function IntText(n: int): string
  {
    if n < 0 then "-" + NatText(-n) else NatText(n)
  }

  function Quote(s: string): string
  {
    "\"" + Escape(s) + "\""
  }

  function Escape(s: string): string
  {
    if s == [] then "" else EscapeChar(s[0]) + Escape(s[1..])
  }

  /** The quote, the backslash and the control characters are escaped, with
      the short forms where RFC 8259 has one and \u00XX otherwise; every other
      character is written as it is. */
  function EscapeChar(c: char): string
  {
    if c == '"' then "\\\""
    else if c == '\\' then "\\\\"
    else if c as int == 8 then "\\b"
    else if c as int == 12 then "\\f"
    else if c == '\n' then "\\n"
    else if c == '\r' then "\\r"
    else if c == '\t' then "\\t"
    else if c as int < 0x20 then "\\u00" + [HexDigit(c as int / 16), HexDigit(c as int % 16)]
    else [c]
  }

  // ----------------------------------------------------------------------
  // Decoding: json.loads

  function SkipWs(s: string): (r: string)
    ensures |r| <= |s|
    ensures r == [] || !IsWs(r[0])
  {
    if s != [] && IsWs(s[0]) then SkipWs(s[1..]) else s
  }

  /** `json.loads(s)` for integer numbers and non-surrogate escapes: one value, surrounded by optional whitespace. */
  function Loads(s: string): Option<Json>
  {
    match ParseValue(SkipWs(s))
    case None => None
    case Some((v, rest)) => if SkipWs(rest) == [] then Some(v) else None
  }

  /** s parses: text json.loads reads without raising, restricted to integer
      numbers and to `\u` escapes outside the surrogate range. */
  predicate ValidJson(s: string)
  {
    Loads(s).Some?
  }

  /** A value at the start of s (no leading whitespace), and what follows it. */
  function ParseValue(s: string): (r: Option<(Json, string)>)
    ensures r.Some? ==> |r.value.1| < |s|
    decreases |s|, 0
  {
    if s == [] then None
    else if s[0] == 'n' then
      if |s| >= 4 && s[..4] == "null" then Some((JNull, s[4..])) else None
    else if s[0] == 't' then
      if |s| >= 4 && s[..4] == "true" then Some((JBool(true), s[4..])) else None
    else if s[0] == 'f' then
      if |s| >= 5 && s[..5] == "false" then Some((JBool(false), s[5..])) else None
    else if s[0] == '"' then
      match ParseString(s[1..])
      case None => None
      case Some((str, rest)) => Some((JStr(str), rest))
    else if s[0] == '[' then
      ParseArray(SkipWs(s[1..]))
    else if s[0] == '{' then
      ParseObject(SkipWs(s[1..]))
    else if s[0] == '-' || IsDigit(s[0]) then
      ParseNumber(s)
    else None
  }

  /** What follows an opening bracket and its whitespace. */
  function ParseArray(s: string): (r: Option<(Json, string)>)
    ensures r.Some? ==> |r.value.1| < |s|
    decreases |s|, 2
  {
    if s != [] && s[0] == ']' then Some((JArr([]), s[1..]))
    else
      match ParseItems(s)
      case None => None
      case Some((items, rest)) => Some((JArr(items), rest))
  }

  /** One or more comma-separated values and the closing bracket. */
  function ParseItems(s: string): (r: Option<(seq<Json>, string)>)
    ensures r.Some? ==> |r.value.0| > 0 && |r.value.1| < |s|
    decreases |s|, 1
  {
    match ParseValue(s)
    case None => None
    case Some((v, after)) => MoreItems(v, SkipWs(after))
  }

  /** After the value v of an array: the closing bracket, or a comma and
      further values. */
  function MoreItems(v: Json, rest: string): (r: Option<(seq<Json>, string)>)
    ensures r.Some? ==> |r.value.0| > 0 && |r.value.1| < |rest|
    decreases |rest|, 2
  {
    if rest == [] then None
    else if rest[0] == ']' then Some(([v], rest[1..]))
    else if rest[0] == ',' then
      match ParseItems(SkipWs(rest[1..]))
      case None => None
      case Some((vs, rest')) => Some(([v] + vs, rest'))
    else None
  }

  /** What follows an opening brace and its whitespace. */
  function ParseObject(s: string): (r: Option<(Json, string)>)
    ensures r.Some? ==> |r.value.1| < |s|
    decreases |s|, 2
  {
    if s != [] && s[0] == '}' then Some((JObj([]), s[1..]))
    else
      match ParseMembers(s)
      case None => None
      case Some((fields, rest)) => Some((JObj(fields), rest))
  }

  /** One or more comma-separated members and the closing brace. */
  function ParseMembers(s: string): (r: Option<(seq<Field>, string)>)
    ensures r.Some? ==> |r.value.0| > 0 && |r.value.1| < |s|
    decreases |s|, 1
  {
    if s == [] || s[0] != '"' then None
    else
      match ParseString(s[1..])
      case None => None
      case Some((key, afterKey)) =>
        var colon := SkipWs(afterKey);
        if colon == [] || colon[0] != ':' then None
        else
          match ParseValue(SkipWs(colon[1..]))
          case None => None
          case Some((v, after)) => MoreMembers(Field(key, v), SkipWs(after))
  }

  /** After the member f of an object: the closing brace, or a comma and
      further members. */
  function MoreMembers(f: Field, rest: string): (r: Option<(seq<Field>, string)>)
    ensures r.Some? ==> |r.value.0| > 0 && |r.value.1| < |rest|
    decreases |rest|, 2
  {
    if rest == [] then None
    else if rest[0] == '}' then Some(([f], rest[1..]))
    else if rest[0] == ',' then
      match ParseMembers(SkipWs(rest[1..]))
      case None => None
      case Some((fs, rest')) => Some(([f] + fs, rest'))
    else None
  }

  /** The characters of a string literal after its opening quote, up to and
      including the closing quote. Unescaped control characters are refused,
      as `json.loads` does by default. */
  function ParseString(s: string): (r: Option<(string, string)>)
    ensures r.Some? ==> |r.value.1| < |s|
  {
    if s == [] then None
    else if s[0] == '"' then Some(([], s[1..]))
    else if s[0] == '\\' then
      match ParseEscape(s[1..])
      case None => None
      case Some((c, rest)) => Prepend(c, ParseString(rest))
    else if (s[0] as int) < 0x20 then None
    else Prepend(s[0], ParseString(s[1..]))
  }

  function Prepend(c: char, r: Option<(string, string)>): Option<(string, string)>
  {
    match r
    case None => None
    case Some((str, rest)) => Some(([c] + str, rest))
  }

  /** An escape sequence after its backslash. A \u escape that names a
      surrogate code unit is refused (surrogate pairs are not modelled). */
  function ParseEscape(s: string): (r: Option<(char, string)>)
    ensures r.Some? ==> |r.value.1| < |s|
  {
    if s == [] then None
    else if s[0] == 'u' then
      if |s| < 5 then None
      else
        match Hex4(s[1], s[2], s[3], s[4])
        case None => None
        case Some(code) =>
          if 0xD800 <= code < 0xE000 then None else Some((code as char, s[5..]))
    else
      match ShortEscape(s[0])
      case None => None
      case Some(c) => Some((c, s[1..]))
  }

  function Hex4(a: char, b: char, c: char, d: char): (r: Option<nat>)
    ensures r.Some? ==> r.value < 0x10000
  {
    match (HexValue(a), HexValue(b), HexValue(c), HexValue(d))
    case (Some(x), Some(y), Some(z), Some(w)) => Some(((x * 16 + y) * 16 + z) * 16 + w)
    case _ => None
  }

  /** The one-letter escapes of RFC 8259 section 7. */
  function ShortEscape(e: char): Option<char>
  {
    if e == '"' then Some('"')
    else if e == '\\' then Some('\\')
    else if e == '/' then Some('/')
    else if e == 'b' then Some(8 as char)
    else if e == 'f' then Some(12 as char)
    else if e == 'n' then Some('\n')
    else if e == 'r' then Some('\r')
    else if e == 't' then Some('\t')
    else None
  }

  /** An optional minus sign and an integer without leading zeros. */
  function ParseNumber(s: string): (r: Option<(Json, string)>)
    ensures r.Some? ==> |r.value.1| < |s|
  {
    if s != [] && s[0] == '-' then
      match ParseNat(s[1..])
      case None => None
      case Some((n, rest)) => Some((JNum(-(n as int)), rest))
    else
      match ParseNat(s)
      case None => None
      case Some((n, rest)) => Some((JNum(n), rest))
  }

  function ParseNat(s: string): (r: Option<(nat, string)>)
    ensures r.Some? ==> |r.value.1| < |s|
  {
    var ds := DigitRun(s);
    if ds == [] || (|ds| > 1 && ds[0] == '0') then None
    else Some((DigitsValue(ds), s[|ds|..]))
  }

  /** The longest prefix of s made of digits. */
  function DigitRun(s: string): (r: string)
    ensures |r| <= |s|
    ensures forall i :: 0 <= i < |r| ==> IsDigit(r[i])
  {
    if s != [] && IsDigit(s[0]) then [s[0]] + DigitRun(s[1..]) else []
  }

  function DigitsValue(ds: string): nat
    requires forall i :: 0 <= i < |ds| ==> IsDigit(ds[i])
  {
    if ds == [] then 0
    else DigitsValue(ds[..|ds| - 1]) * 10 + DigitValue(ds[|ds| - 1])
  }

  function DigitValue(c: char): nat
    requires IsDigit(c)
  {
    c as int - '0' as int
  }

  // ----------------------------------------------------------------------
  // The round trip

  /** Text that cannot extend a number written just before it. */
  predicate Delimited(t: string)
  {
    t == [] || !IsDigit(t[0])
  }

  /** Every encoded value parses and decodes to itself. */
  lemma LoadsDumps(v: Json)
    ensures Loads(Dumps(v)) == Some(v)
    ensures ValidJson(Dumps(v))
  {
    DumpsStart(v);
    ParseDumps(v, []);
    assert Dumps(v) + [] == Dumps(v);
  }

  /** An encoded value starts with a character that opens a value. */
  lemma DumpsStart(v: Json)
    ensures Dumps(v) != []
    ensures var c := Dumps(v)[0]; c == 'n' || c == 't' || c == 'f' || c == '"' || c == '[' || c == '{' || c == '-' || IsDigit(c)
  {
    match v
    case JNum(n) => NatTextDigits(if n < 0 then -n else n);
    case _ =>
  }

  lemma {:induction false} ParseDumps(v: Json, t: string)
    requires Delimited(t)
    ensures ParseValue(Dumps(v) + t) == Some((v, t))
    decreases v, 2
  {
    match v
    case JNull => ParseLiteral("null", t);
    case JBool(b) => if b { ParseLiteral("true", t); } else { ParseLiteral("false", t); }
    case JNum(n) => ParseIntText(n, t);
    case JStr(str) => ParseDumpsString(str, t);
    case JArr(items) => ParseDumpsArray(items, t);
    case JObj(fields) => ParseDumpsObject(fields, t);
  }

  lemma ParseLiteral(lit: string, t: string)
    requires lit == "null" || lit == "true" || lit == "false"
    ensures ParseValue(lit + t) == Some((if lit == "null" then JNull else JBool(lit == "true"), t))
  {
    var s := lit + t;
    assert s[..|lit|] == lit && s[|lit|..] == t;
  }

  lemma ParseDumpsString(str: string, t: string)
    ensures ParseValue(Quote(str) + t) == Some((JStr(str), t))
  {
    var s := Quote(str) + t;
    assert s[0] == '"';
    assert s[1..] == Escape(str) + "\"" + t;
    ParseQuoted(str, t);
  }

  lemma {:induction false} ParseDumpsArray(items: seq<Json>, t: string)
    ensures ParseValue("[" + DumpsItems(items) + "]" + t) == Some((JArr(items), t))
    decreases items, 1
  {
    if items == [] {
      ArrayFrame([], t);
    } else {
      DumpsItemsStart(items);
      ParseDumpsItems(items, t);
      NonEmptyArrayFrame(DumpsItems(items), items, t);
    }
  }

  /** The text after an opening bracket or brace. */
  lemma Enclosed(open: char, d: string, close: char, t: string)
    requires d != []
    ensures ([open] + d + [close] + t)[0] == open
    ensures ([open] + d + [close] + t)[1..] == d + [close] + t
    ensures (d + [close] + t)[0] == d[0]
  {
    assert [open] + d + [close] + t == [open] + (d + [close] + t);
  }

  lemma ArrayFrame(d: string, t: string)
    requires d == []
    ensures ParseValue("[" + d + "]" + t) == Some((JArr([]), t))
  {
    var s := "[" + d + "]" + t;
    assert s[0] == '[' && s[1..] == "]" + t;
    EmptyArrayText(s, t);
  }

  lemma NonEmptyArrayFrame(d: string, items: seq<Json>, t: string)
    requires d != [] && !IsWs(d[0]) && d[0] != ']'
    requires ParseItems(d + "]" + t) == Some((items, t))
    ensures ParseValue("[" + d + "]" + t) == Some((JArr(items), t))
  {
    Enclosed('[', d, ']', t);
    ParseArrayText("[" + d + "]" + t, d + "]" + t, items, t);
  }

  lemma ParseArrayText(s: string, inner: string, items: seq<Json>, t: string)
    requires s != [] && s[0] == '[' && s[1..] == inner
    requires inner != [] && !IsWs(inner[0]) && inner[0] != ']'
    requires ParseItems(inner) == Some((items, t))
    ensures ParseValue(s) == Some((JArr(items), t))
  {
    OpenBracket(s);
    assert SkipWs(inner) == inner;
    NonEmptyArray(inner);
  }

  lemma EmptyArrayText(s: string, t: string)
    requires s != [] && s[0] == '[' && s[1..] == "]" + t
    ensures ParseValue(s) == Some((JArr([]), t))
  {
    OpenBracket(s);
    assert s[1..][1..] == t;
  }

  lemma OpenBracket(s: string)
    requires s != [] && s[0] == '['
    ensures ParseValue(s) == ParseArray(SkipWs(s[1..]))
  {
  }

  lemma NonEmptyArray(s: string)
    requires s != [] && s[0] != ']'
    ensures ParseArray(s) == match ParseItems(s) case None => None case Some((items, rest)) => Some((JArr(items), rest))
  {
  }

  lemma {:induction false} ParseDumpsObject(fields: seq<Field>, t: string)
    ensures ParseValue("{" + DumpsFields(fields) + "}" + t) == Some((JObj(fields), t))
    decreases fields, 2
  {
    if fields == [] {
      ObjectFrame([], t);
    } else {
      DumpsFieldsStart(fields);
      ParseDumpsFields(fields, t);
      NonEmptyObjectFrame(DumpsFields(fields), fields, t);
    }
  }

  lemma ObjectFrame(d: string, t: string)
    requires d == []
    ensures ParseValue("{" + d + "}" + t) == Some((JObj([]), t))
  {
    var s := "{" + d + "}" + t;
    assert s[0] == '{' && s[1..] == "}" + t;
    EmptyObjectText(s, t);
  }

  lemma NonEmptyObjectFrame(d: string, fields: seq<Field>, t: string)
    requires d != [] && d[0] == '"'
    requires ParseMembers(d + "}" + t) == Some((fields, t))
    ensures ParseValue("{" + d + "}" + t) == Some((JObj(fields), t))
  {
    Enclosed('{', d, '}', t);
    ParseObjectText("{" + d + "}" + t, d + "}" + t, fields, t);
  }

  lemma ParseObjectText(s: string, inner: string, fields: seq<Field>, t: string)
    requires s != [] && s[0] == '{' && s[1..] == inner
    requires inner != [] && inner[0] == '"'
    requires ParseMembers(inner) == Some((fields, t))
    ensures ParseValue(s) == Some((JObj(fields), t))
  {
    OpenBrace(s);
    assert SkipWs(inner) == inner;
    NonEmptyObject(inner);
  }

  lemma EmptyObjectText(s: string, t: string)
    requires s != [] && s[0] == '{' && s[1..] == "}" + t
    ensures ParseValue(s) == Some((JObj([]), t))
  {
    OpenBrace(s);
    assert s[1..][1..] == t;
  }

  lemma OpenBrace(s: string)
    requires s != [] && s[0] == '{'
    ensures ParseValue(s) == ParseObject(SkipWs(s[1..]))
  {
  }

  lemma NonEmptyObject(s: string)
    requires s != [] && s[0] != '}'
    ensures ParseObject(s) == match ParseMembers(s) case None => None case Some((fields, rest)) => Some((JObj(fields), rest))
  {
  }

  lemma DumpsItemsStart(items: seq<Json>)
    requires items != []
    ensures DumpsItems(items) != [] && DumpsItems(items)[0] == Dumps(items[0])[0]
    ensures !IsWs(DumpsItems(items)[0]) && DumpsItems(items)[0] != ']'
  {
    DumpsStart(items[0]);
  }

  lemma DumpsFieldsStart(fields: seq<Field>)
    requires fields != []
    ensures DumpsFields(fields) != [] && DumpsFields(fields)[0] == '"'
  {
  }

  /** Skipping whitespace before a separator and one space after it. */
  lemma SkipSeparator(sep: char, tail: string)
    requires !IsWs(sep)
    requires tail == [] || !IsWs(tail[0])
    ensures SkipWs([sep, ' '] + tail) == [sep, ' '] + tail
    ensures ([sep, ' '] + tail)[0] == sep
    ensures SkipWs(([sep, ' '] + tail)[1..]) == tail
  {
    assert ([sep, ' '] + tail)[1..] == [' '] + tail;
    assert ([' '] + tail)[1..] == tail;
  }

  lemma {:induction false} ParseDumpsItems(items: seq<Json>, t: string)
    requires items != []
    ensures ParseItems(DumpsItems(items) + "]" + t) == Some((items, t))
    decreases items, 0
  {
    var s := DumpsItems(items) + "]" + t;
    if |items| == 1 {
      assert s == Dumps(items[0]) + ("]" + t);
      ParseDumps(items[0], "]" + t);
      ItemStep(s, items[0], "]" + t);
      LastItem(items[0], t);
      assert [items[0]] == items;
    } else {
      var tail := DumpsItems(items[1..]) + "]" + t;
      assert s == Dumps(items[0]) + ([',', ' '] + tail);
      ParseDumps(items[0], [',', ' '] + tail);
      ItemStep(s, items[0], [',', ' '] + tail);
      DumpsItemsStart(items[1..]);
      ParseDumpsItems(items[1..], t);
      NextItem(items[0], tail, items[1..], t);
      assert [items[0]] + items[1..] == items;
    }
  }

  /** ParseItems once the first value has been read, when no whitespace follows it. */
  lemma ItemStep(s: string, v: Json, after: string)
    requires ParseValue(s) == Some((v, after))
    requires after != [] && !IsWs(after[0])
    ensures ParseItems(s) == MoreItems(v, after)
  {
  }

  lemma LastItem(v: Json, t: string)
    ensures MoreItems(v, "]" + t) == Some(([v], t))
  {
    assert ("]" + t)[1..] == t;
  }

  lemma NextItem(v: Json, tail: string, vs: seq<Json>, t: string)
    requires tail == [] || !IsWs(tail[0])
    requires ParseItems(tail) == Some((vs, t))
    ensures MoreItems(v, [',', ' '] + tail) == Some(([v] + vs, t))
  {
    SkipSeparator(',', tail);
  }

  /** What follows the first member of a non-empty member list. */
  function FieldsTail(fields: seq<Field>, t: string): string
    requires fields != []
  {
    if |fields| == 1 then "}" + t else [',', ' '] + (DumpsFields(fields[1..]) + "}" + t)
  }

  lemma FirstField(fields: seq<Field>, t: string)
    requires fields != []
    ensures DumpsFields(fields) + "}" + t ==
      "\"" + (Escape(fields[0].key) + "\"" + ([':', ' '] + (Dumps(fields[0].value) + FieldsTail(fields, t))))
  {
    var f := fields[0];
    if |fields| == 1 {
      OneField(fields, "}" + t);
    } else {
      MoreFields(fields);
      Separated(DumpsField(f), DumpsFields(fields[1..]), t);
    }
    QuotedKey(f.key, Dumps(f.value), FieldsTail(fields, t));
  }

  lemma OneField(fields: seq<Field>, t: string)
    requires |fields| == 1
    ensures DumpsFields(fields) + t == DumpsField(fields[0]) + t
  {
  }

  lemma MoreFields(fields: seq<Field>)
    requires |fields| > 1
    ensures DumpsFields(fields) == DumpsField(fields[0]) + ", " + DumpsFields(fields[1..])
  {
  }

  lemma Separated(a: string, b: string, t: string)
    ensures a + ", " + b + "}" + t == a + ([',', ' '] + (b + "}" + t))
  {
  }

  lemma QuotedKey(key: string, value: string, rest: string)
    ensures Quote(key) + ": " + value + rest == "\"" + (Escape(key) + "\"" + ([':', ' '] + (value + rest)))
  {
  }

  /** A member written as quote, key literal, ": " and a value. */
  lemma ParseMemberText(s: string, key: string, d: string, rest: string, v: Json)
    requires s != [] && s[0] == '"'
    requires ParseString(s[1..]) == Some((key, [':', ' '] + (d + rest)))
    requires d != [] && !IsWs(d[0])
    requires ParseValue(d + rest) == Some((v, rest))
    requires rest == [] || !IsWs(rest[0])
    ensures ParseMembers(s) == MoreMembers(Field(key, v), rest)
  {
    SkipSeparator(':', d + rest);
    MemberStep(s, key, [':', ' '] + (d + rest));
  }

  /** ParseMembers once the key and the colon have been found. */
  lemma MemberStep(s: string, key: string, afterKey: string)
    requires s != [] && s[0] == '"'
    requires ParseString(s[1..]) == Some((key, afterKey))
    requires SkipWs(afterKey) != [] && SkipWs(afterKey)[0] == ':'
    ensures ParseMembers(s) ==
      match ParseValue(SkipWs(SkipWs(afterKey)[1..]))
      case None => None
      case Some((v, after)) => MoreMembers(Field(key, v), SkipWs(after))
  {
  }

  lemma {:induction false} ParseDumpsFields(fields: seq<Field>, t: string)
    requires fields != []
    ensures ParseMembers(DumpsFields(fields) + "}" + t) == Some((fields, t))
    decreases fields, 1
  {
    var f := fields[0];
    FirstMember(fields, t);
    if |fields| == 1 {
      LastMember(f, t);
      assert [f] == fields;
    } else {
      var tail := DumpsFields(fields[1..]) + "}" + t;
      DumpsFieldsStart(fields[1..]);
      ParseDumpsFields(fields[1..], t);
      NextMember(f, tail, fields[1..], t);
      assert [f] + fields[1..] == fields;
    }
  }

  /** Parsing the first member leaves what FieldsTail describes. */
  lemma FirstMember(fields: seq<Field>, t: string)
    requires fields != []
    ensures ParseMembers(DumpsFields(fields) + "}" + t) == MoreMembers(fields[0], FieldsTail(fields, t))
    decreases fields, 0
  {
    var f := fields[0];
    var rest := FieldsTail(fields, t);
    FirstField(fields, t);
    ParseQuoted(f.key, [':', ' '] + (Dumps(f.value) + rest));
    DumpsStart(f.value);
    ParseDumps(f.value, rest);
    var s := "\"" + (Escape(f.key) + "\"" + ([':', ' '] + (Dumps(f.value) + rest)));
    assert s[1..] == Escape(f.key) + "\"" + ([':', ' '] + (Dumps(f.value) + rest));
    ParseMemberText(s, f.key, Dumps(f.value), rest, f.value);
    assert Field(f.key, f.value) == f;
  }

  lemma LastMember(f: Field, t: string)
    ensures MoreMembers(f, "}" + t) == Some(([f], t))
  {
    assert ("}" + t)[1..] == t;
  }

  lemma NextMember(f: Field, tail: string, fs: seq<Field>, t: string)
    requires tail == [] || !IsWs(tail[0])
    requires ParseMembers(tail) == Some((fs, t))
    ensures MoreMembers(f, [',', ' '] + tail) == Some(([f] + fs, t))
  {
    SkipSeparator(',', tail);
  }

  // Strings

  lemma {:induction false} ParseQuoted(str: string, t: string)
    ensures ParseString(Escape(str) + "\"" + t) == Some((str, t))
  {
    var s := Escape(str) + "\"" + t;
    if str == [] {
      assert s == "\"" + t;
      assert s[1..] == t;
    } else {
      var rest := Escape(str[1..]) + "\"" + t;
      assert s == EscapeChar(str[0]) + rest;
      ParseEscapeChar(str[0], rest);
      ParseQuoted(str[1..], t);
      assert [str[0]] + str[1..] == str;
    }
  }

  /** One encoded character is read back, whatever follows it. */
  lemma ParseEscapeChar(c: char, rest: string)
    ensures ParseString(EscapeChar(c) + rest) == Prepend(c, ParseString(rest))
  {
    var s := EscapeChar(c) + rest;
    if c == '"' || c == '\\' || c as int == 8 || c as int == 12 || c == '\n' || c == '\r' || c == '\t' {
      assert s[0] == '\\';
      assert s[1..] == [EscapeChar(c)[1]] + rest;
      assert s[1..][1..] == rest;
    } else if c as int < 0x20 {
      var hi, lo := c as int / 16, c as int % 16;
      assert s[0] == '\\';
      assert s[1..] == ['u', '0', '0', HexDigit(hi), HexDigit(lo)] + rest;
      assert s[1..][5..] == rest;
      assert HexValue(HexDigit(hi)) == Some(hi);
      assert HexValue(HexDigit(lo)) == Some(lo);
      assert Hex4('0', '0', HexDigit(hi), HexDigit(lo)) == Some(c as int);
    } else {
      assert s[1..] == rest;
    }
  }

  // Numbers

  lemma {:induction false} NatTextDigits(n: nat)
    ensures NatText(n) != []
    ensures forall i :: 0 <= i < |NatText(n)| ==> IsDigit(NatText(n)[i])
    ensures |NatText(n)| > 1 ==> NatText(n)[0] != '0'
  {
    if n >= 10 {
      NatTextDigits(n / 10);
      assert NatText(n)[0] == NatText(n / 10)[0];
      if |NatText(n / 10)| == 1 {
        assert n / 10 < 10 && n / 10 != 0;
      }
    }
  }

  lemma {:induction false} NatTextValue(n: nat)
    ensures forall i :: 0 <= i < |NatText(n)| ==> IsDigit(NatText(n)[i])
    ensures DigitsValue(NatText(n)) == n
  {
    NatTextDigits(n);
    if n >= 10 {
      NatTextValue(n / 10);
      var ds := NatText(n);
      assert ds[..|ds| - 1] == NatText(n / 10);
    }
  }

  lemma {:induction false} DigitRunOf(ds: string, t: string)
    requires forall i :: 0 <= i < |ds| ==> IsDigit(ds[i])
    requires Delimited(t)
    ensures DigitRun(ds + t) == ds
  {
    if ds != [] {
      assert (ds + t)[1..] == ds[1..] + t;
      DigitRunOf(ds[1..], t);
      assert [ds[0]] + ds[1..] == ds;
    } else {
      assert ds + t == t;
    }
  }

  lemma ParseNatText(n: nat, t: string)
    requires Delimited(t)
    ensures ParseNat(NatText(n) + t) == Some((n, t))
  {
    NatTextDigits(n);
    NatTextValue(n);
    DigitRunOf(NatText(n), t);
    assert (NatText(n) + t)[|NatText(n)|..] == t;
  }

  lemma ParseIntText(n: int, t: string)
    requires Delimited(t)
    ensures ParseValue(IntText(n) + t) == Some((JNum(n), t))
  {
    var m := if n < 0 then -n else n;
    var u := NatText(m) + t;
    NatTextDigits(m);
    ParseNatText(m, t);
    assert u[0] == NatText(m)[0];
    if n < 0 {
      var s := "-" + u;
      assert IntText(n) + t == s && s[1..] == u;
      NegativeText(s, u, m, t);
    } else {
      assert IntText(n) + t == u;
      NonNegativeText(u, m, t);
    }
  }

  lemma NegativeText(s: string, u: string, m: nat, t: string)
    requires s != [] && s[0] == '-' && s[1..] == u
    requires ParseNat(u) == Some((m, t))
    ensures ParseValue(s) == Some((JNum(-(m as int)), t))
  {
    NumberStart(s);
  }

  lemma NonNegativeText(u: string, m: nat, t: string)
    requires u != [] && IsDigit(u[0])
    requires ParseNat(u) == Some((m, t))
    ensures ParseValue(u) == Some((JNum(m), t))
  {
    NumberStart(u);
  }

  lemma NumberStart(s: string)
    requires s != [] && (s[0] == '-' || IsDigit(s[0]))
    ensures ParseValue(s) == ParseNumber(s)
  {
  }
}
