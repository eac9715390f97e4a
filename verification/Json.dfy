// JSON values as `serde_json` holds them, and a reader for JSON text (RFC 8259) that
// keeps the order in which a document lists the members of an object.
module Json {
  import opened Common

  // Numbers are kept as written (section 6 of RFC 8259).
  datatype Json =
    | Null
    | Bool(b: bool)
    | Num(lexeme: string)
    | Str(s: string)
    | Arr(items: seq<Json>)
    | Obj(entries: seq<Entry>)

  datatype Entry = Entry(key: string, val: Json)

  // ----------------------------------------------------------------------- numbers

  predicate Digit(c: char) { '0' <= c <= '9' }

  predicate NumChar(c: char) { Digit(c) || c in "+-.eE" }

  function LeadingDigits(s: string): (n: nat)
    ensures n <= |s|
  {
    if s == [] || !Digit(s[0]) then 0 else 1 + LeadingDigits(s[1..])
  }

  // The number a string of digits denotes.
  function FromDecimal(s: string): nat {
    if s == [] then 0
    else 10 * FromDecimal(s[..|s| - 1]) + (if Digit(s[|s| - 1]) then s[|s| - 1] as int - '0' as int else 0)
  }

  predicate ExponentPart(s: string) {
    s == [] || (
      && s[0] in "eE"
      && var t := if |s| > 1 && s[1] in "+-" then s[2..] else s[1..];
         t != [] && LeadingDigits(t) == |t|)
  }

  predicate FractionPart(s: string) {
    if s != [] && s[0] == '.' then
      var n := LeadingDigits(s[1..]);
      0 < n && ExponentPart(s[1 + n..])
    else ExponentPart(s)
  }

  predicate IsNumber(s: string) {
    var t := if s != [] && s[0] == '-' then s[1..] else s;
    var n := LeadingDigits(t);
    && 0 < n
    && (t[0] == '0' ==> n == 1)
    && FractionPart(t[n..])
    && forall i :: 0 <= i < |s| ==> NumChar(s[i])
  }

  function NumberPrefix(s: string): (p: string)
    ensures p <= s
  {
    if s == [] || !NumChar(s[0]) then [] else [s[0]] + NumberPrefix(s[1..])
  }

  // ----------------------------------------------------------------------- strings

  function HexDigit(n: nat): char
    requires n < 16
  {
    "0123456789abcdef"[n]
  }

  function HexValue(c: char): Option<nat> {
    if '0' <= c <= '9' then Some(c as int - '0' as int)
    else if 'a' <= c <= 'f' then Some(c as int - 'a' as int + 10)
    else if 'A' <= c <= 'F' then Some(c as int - 'A' as int + 10)
    else None
  }

  // Section 7 of RFC 8259, as `serde_json` writes it.
  function Escape(c: char): string {
    if c == '"' then ['\\', '"']
    else if c == '\\' then ['\\', '\\']
    else if c == 8 as char then ['\\', 'b']
    else if c == 9 as char then ['\\', 't']
    else if c == 10 as char then ['\\', 'n']
    else if c == 12 as char then ['\\', 'f']
    else if c == 13 as char then ['\\', 'r']
    else if c < ' ' then ['\\', 'u', '0', '0', HexDigit(c as int / 16), HexDigit(c as int % 16)]
    else [c]
  }

  function EscapeAll(s: string): string {
    if s == [] then [] else Escape(s[0]) + EscapeAll(s[1..])
  }

  function Quote(s: string): string {
    ['"'] + EscapeAll(s) + ['"']
  }

  function SimpleEscape(c: char): Option<char> {
    if c == '"' || c == '\\' || c == '/' then Some(c)
    else if c == 'b' then Some(8 as char)
    else if c == 't' then Some(9 as char)
    else if c == 'n' then Some(10 as char)
    else if c == 'f' then Some(12 as char)
    else if c == 'r' then Some(13 as char)
    else None
  }

  // The character four hex digits name; a surrogate names none.
  function UnicodeEscape(s: string): Option<char>
    requires |s| == 4
  {
    match (HexValue(s[0]), HexValue(s[1]), HexValue(s[2]), HexValue(s[3]))
    case (Some(a), Some(b), Some(c), Some(d)) =>
      var n := 4096 * a + 256 * b + 16 * c + d;
      if n < 0xD800 || 0xE000 <= n < 0x10000 then Some(n as char) else None
    case _ => None
  }

  // The string whose opening quote has been read, and the text after its closing quote.
  function ReadString(s: string): (r: Option<(string, string)>)
    ensures r.Some? ==> |r.value.1| < |s|
  {
    if s == [] || s[0] < ' ' then None
    else if s[0] == '"' then Some(([], s[1..]))
    else if s[0] != '\\' then
      match ReadString(s[1..])
      case Some((t, rest)) => Some(([s[0]] + t, rest))
      case None => None
    else if |s| < 2 then None
    else if s[1] == 'u' then
      if |s| < 6 then None
      else
        match (UnicodeEscape(s[2..6]), ReadString(s[6..]))
        case (Some(c), Some((t, rest))) => Some(([c] + t, rest))
        case _ => None
    else
      match (SimpleEscape(s[1]), ReadString(s[2..]))
      case (Some(c), Some((t, rest))) => Some(([c] + t, rest))
      case _ => None
  }

  // ------------------------------------------------------------------------ values

  predicate White(c: char) {
    c == ' ' || c == 9 as char || c == 10 as char || c == 13 as char
  }

  function SkipWhite(s: string): (r: string)
    ensures |r| <= |s|
  {
    if s != [] && White(s[0]) then SkipWhite(s[1..]) else s
  }

  function LeadingNumber(t: string): (r: Option<(Json, string)>)
    ensures r.Some? ==> |r.value.1| < |t|
  {
    var n := NumberPrefix(t);
    if n != [] && IsNumber(n) then Some((Num(n), t[|n|..])) else None
  }

  function ReadValue(s: string): (r: Option<(Json, string)>)
    ensures r.Some? ==> |r.value.1| < |s|
    decreases |s|, 0
  {
    var t := SkipWhite(s);
    if t == [] then None
    else if t[0] == 'n' then if "null" <= t then Some((Null, t[4..])) else None
    else if t[0] == 't' then if "true" <= t then Some((Bool(true), t[4..])) else None
    else if t[0] == 'f' then if "false" <= t then Some((Bool(false), t[5..])) else None
    else if t[0] == '"' then
      match ReadString(t[1..])
      case Some((str, rest)) => Some((Str(str), rest))
      case None => None
    else if t[0] == '[' then
      var u := SkipWhite(t[1..]);
      if u != [] && u[0] == ']' then Some((Arr([]), u[1..]))
      else
        match ReadItems(t[1..])
        case Some((items, rest)) => Some((Arr(items), rest))
        case None => None
    else if t[0] == '{' then
      var u := SkipWhite(t[1..]);
      if u != [] && u[0] == '}' then Some((Obj([]), u[1..]))
      else
        match ReadEntries(t[1..])
        case Some((entries, rest)) => Some((Obj(entries), rest))
        case None => None
    else LeadingNumber(t)
  }

  // One or more array items and the closing bracket.
  function ReadItems(s: string): (r: Option<(seq<Json>, string)>)
    ensures r.Some? ==> |r.value.1| < |s|
    decreases |s|, 1
  {
    match ReadValue(s)
    case None => None
    case Some((v, rest)) =>
      var t := SkipWhite(rest);
      if t != [] && t[0] == ']' then Some(([v], t[1..]))
      else if t != [] && t[0] == ',' then
        match ReadItems(t[1..])
        case Some((vs, end)) => Some(([v] + vs, end))
        case None => None
      else None
  }

  // One or more object members and the closing brace.
  function ReadEntries(s: string): (r: Option<(seq<Entry>, string)>)
    ensures r.Some? ==> |r.value.1| < |s|
    decreases |s|, 1
  {
    var k := SkipWhite(s);
    if k == [] || k[0] != '"' then None
    else
      match ReadString(k[1..])
      case None => None
      case Some((key, afterKey)) =>
        var c := SkipWhite(afterKey);
        if c == [] || c[0] != ':' then None
        else
          match ReadValue(c[1..])
          case None => None
          case Some((v, rest)) =>
            var t := SkipWhite(rest);
            if t != [] && t[0] == '}' then Some(([Entry(key, v)], t[1..]))
            else if t != [] && t[0] == ',' then
              match ReadEntries(t[1..])
              case Some((es, end)) => Some(([Entry(key, v)] + es, end))
              case None => None
            else None
  }

  // A whole document, members in document order.
  function ReadDocument(s: string): Option<Json> {
    match ReadValue(s)
    case Some((d, rest)) => if SkipWhite(rest) == [] then Some(d) else None
    case None => None
  }

  // ------------------------------------------------- the value a document stands for

  // Strict order of keys, by code point.
  predicate Before(a: string, b: string) {
    if b == [] then false
    else if a == [] then true
    else a[0] < b[0] || (a[0] == b[0] && Before(a[1..], b[1..]))
  }

  // Insertion into a sorted map: a later member of the same name replaces an earlier one.
  function InsertEntry(m: seq<Entry>, e: Entry): seq<Entry> {
    if m == [] then [e]
    else if m[0].key == e.key then [e] + m[1..]
    else if Before(e.key, m[0].key) then [e] + m
    else [m[0]] + InsertEntry(m[1..], e)
  }

  function InsertAll(m: seq<Entry>, es: seq<Entry>): seq<Entry>
    decreases |es|
  {
    if es == [] then m else InsertAll(InsertEntry(m, es[0]), es[1..])
  }

  // `serde_json::Value` of a document: every object a sorted map.
  function ToValue(d: Json): Json
    decreases d
  {
    match d
    case Arr(items) => Arr(ToValues(items))
    case Obj(entries) => Obj(InsertAll([], EntryValues(entries)))
    case _ => d
  }

  function ToValues(ds: seq<Json>): seq<Json>
    decreases ds
  {
    if ds == [] then [] else [ToValue(ds[0])] + ToValues(ds[1..])
  }

  function EntryValues(es: seq<Entry>): seq<Entry>
    decreases es
  {
    if es == [] then [] else [Entry(es[0].key, ToValue(es[0].val))] + EntryValues(es[1..])
  }

  function FromStr(s: string): Option<Json> {
    match ReadDocument(s)
    case Some(d) => Some(ToValue(d))
    case None => None
  }

  predicate SortedEntries(es: seq<Entry>) {
    forall i, j :: 0 <= i < j < |es| ==> Before(es[i].key, es[j].key)
  }

  // Well-formed values: objects sorted by key, numbers in JSON's grammar.
  predicate IsValue(v: Json)
    decreases v
  {
    match v
    case Num(lexeme) => IsNumber(lexeme)
    case Arr(items) => forall i :: 0 <= i < |items| ==> IsValue(items[i])
    case Obj(entries) => SortedEntries(entries) && forall i :: 0 <= i < |entries| ==> IsValue(entries[i].val)
    case _ => true
  }
}
