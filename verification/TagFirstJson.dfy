// Re-emitting a JSON value with the `tag` member first in every object, for a reader that
// honours document order.
module TagFirstJson {
  import opened Common
  import opened Json

  const TAG: string := "tag"

  function Join(parts: seq<string>): string {
    if parts == [] then []
    else if |parts| == 1 then parts[0]
    else parts[0] + [','] + Join(parts[1..])
  }

  // `to_tag_first_json`.
  function ToTagFirstJson(v: Json): string
    decreases v, 1
  {
    match v
    case Obj(entries) => ['{'] + Join(TagPart(entries) + OtherParts(entries)) + ['}']
    case Arr(items) => ['['] + Join(EmitAll(items)) + [']']
    case Str(s) => Quote(s)
    case Num(lexeme) => lexeme
    case Bool(b) => if b then "true" else "false"
    case Null => "null"
  }

  function EmitAll(items: seq<Json>): seq<string>
    decreases items, 0
  {
    if items == [] then [] else [ToTagFirstJson(items[0])] + EmitAll(items[1..])
  }

  // The `tag` member found by lookup, if there is one.
  function TagPart(es: seq<Entry>): seq<string>
    decreases es, 0
  {
    if es == [] then []
    else if es[0].key == TAG then [['"', 't', 'a', 'g', '"', ':'] + ToTagFirstJson(es[0].val)]
    else TagPart(es[1..])
  }

  // The other members in map order.
  function OtherParts(es: seq<Entry>): seq<string>
    decreases es, 0
  {
    if es == [] then []
    else if es[0].key == TAG then OtherParts(es[1..])
    else [Quote(es[0].key) + [':'] + ToTagFirstJson(es[0].val)] + OtherParts(es[1..])
  }

  // ------------------------------------------------------------ the document emitted

  function TagEntry(es: seq<Entry>): seq<Entry> {
    if es == [] then []
    else if es[0].key == TAG then [es[0]]
    else TagEntry(es[1..])
  }

  function Others(es: seq<Entry>): seq<Entry> {
    if es == [] then []
    else if es[0].key == TAG then Others(es[1..])
    else [es[0]] + Others(es[1..])
  }

  // The value as a document: at every depth the tag member moved to the front.
  function Ordered(v: Json): Json
    decreases v, 1
  {
    match v
    case Arr(items) => Arr(OrderedAll(items))
    case Obj(entries) => Obj(TagEntry(OrderedEntries(entries)) + Others(OrderedEntries(entries)))
    case _ => v
  }

  function OrderedAll(items: seq<Json>): (r: seq<Json>)
    ensures |r| == |items|
    decreases items, 0
  {
    if items == [] then [] else [Ordered(items[0])] + OrderedAll(items[1..])
  }

  function OrderedEntries(es: seq<Entry>): (r: seq<Entry>)
    ensures |r| == |es| && forall i :: 0 <= i < |es| ==> r[i].key == es[i].key
    decreases es, 0
  {
    if es == [] then [] else [Entry(es[0].key, Ordered(es[0].val))] + OrderedEntries(es[1..])
  }

  // A document's text without white space, members in document order.
  function Render(d: Json): string
    decreases d, 1
  {
    match d
    case Obj(entries) => ['{'] + Join(RenderEntries(entries)) + ['}']
    case Arr(items) => ['['] + Join(RenderAll(items)) + [']']
    case Str(s) => Quote(s)
    case Num(lexeme) => lexeme
    case Bool(b) => if b then "true" else "false"
    case Null => "null"
  }

  function RenderAll(items: seq<Json>): (r: seq<string>)
    ensures |r| == |items|
    decreases items, 0
  {
    if items == [] then [] else [Render(items[0])] + RenderAll(items[1..])
  }

  function RenderEntries(es: seq<Entry>): (r: seq<string>)
    ensures |r| == |es|
    decreases es, 0
  {
    if es == [] then [] else [Quote(es[0].key) + [':'] + Render(es[0].val)] + RenderEntries(es[1..])
  }

  lemma {:induction false} RenderEntriesAppend(a: seq<Entry>, b: seq<Entry>)
    ensures RenderEntries(a + b) == RenderEntries(a) + RenderEntries(b)
  {
    if a == [] {
      assert a + b == b;
    } else {
      assert (a + b)[0] == a[0] && (a + b)[1..] == a[1..] + b;
      RenderEntriesAppend(a[1..], b);
    }
  }

  lemma QuotedTag()
    ensures Quote(TAG) == ['"', 't', 'a', 'g', '"']
  {
    assert TAG[1..] == "ag" && "ag"[1..] == "g" && "g"[1..] == "";
  }

  lemma {:induction false} EmitsTheOrderedDocument(v: Json)
    ensures ToTagFirstJson(v) == Render(Ordered(v))
    decreases v, 1
  {
    match v
    case Arr(items) => EmitsAll(items);
    case Obj(entries) =>
      var es := OrderedEntries(entries);
      EmitsEntries(entries);
      RenderEntriesAppend(TagEntry(es), Others(es));
    case _ =>
  }

  lemma {:induction false} EmitsAll(items: seq<Json>)
    ensures EmitAll(items) == RenderAll(OrderedAll(items))
    decreases items, 0
  {
    if items == [] {
    } else {
      EmitsTheOrderedDocument(items[0]);
      EmitsAll(items[1..]);
    }
  }

  lemma RenderOne(e: Entry)
    ensures RenderEntries([e]) == [Quote(e.key) + [':'] + Render(e.val)]
  {
    assert [e][1..] == [];
  }

  lemma {:induction false} EmitsEntries(es: seq<Entry>)
    ensures TagPart(es) == RenderEntries(TagEntry(OrderedEntries(es)))
    ensures OtherParts(es) == RenderEntries(Others(OrderedEntries(es)))
    decreases es, 0
  {
    if es == [] {
    } else {
      EmitsTheOrderedDocument(es[0].val);
      EmitsEntries(es[1..]);
      QuotedTag();
      var first := Entry(es[0].key, Ordered(es[0].val));
      var others := Others(OrderedEntries(es[1..]));
      assert OrderedEntries(es)[1..] == OrderedEntries(es[1..]);
      RenderOne(first);
      RenderEntriesAppend([first], others);
      assert ['"', 't', 'a', 'g', '"', ':'] == ['"', 't', 'a', 'g', '"'] + [':'];
    }
  }

  // -------------------------------------------------------------- reading it back

  predicate Lexed(d: Json)
    decreases d
  {
    match d
    case Num(lexeme) => IsNumber(lexeme)
    case Arr(items) => forall i :: 0 <= i < |items| ==> Lexed(items[i])
    case Obj(entries) => forall i :: 0 <= i < |entries| ==> Lexed(entries[i].val)
    case _ => true
  }

  // What may follow a number without being read as part of it.
  predicate Follows(rest: string) {
    rest == [] || !NumChar(rest[0])
  }

  lemma HexRoundTrip(n: nat)
    requires n < 16
    ensures HexValue(HexDigit(n)) == Some(n)
  {
  }

  lemma ControlEscape(c: char, s: string)
    requires c < ' ' && s == ['0', '0', HexDigit(c as int / 16), HexDigit(c as int % 16)]
    ensures UnicodeEscape(s) == Some(c)
  {
    HexRoundTrip(0);
    HexRoundTrip(c as int / 16);
    HexRoundTrip(c as int % 16);
  }

  lemma ReadsEscape(c: char, s: string)
    ensures ReadString(Escape(c) + s)
         == match ReadString(s) case Some((t, rest)) => Some(([c] + t, rest)) case None => None
  {
    var e := Escape(c);
    if |e| == 1 {
      assert (e + s)[1..] == s;
    } else if |e| == 2 {
      assert (e + s)[2..] == s;
    } else {
      assert (e + s)[6..] == s && (e + s)[2..6] == e[2..];
      ControlEscape(c, e[2..]);
    }
  }

  lemma {:induction false} ReadsQuoted(s: string, rest: string)
    ensures ReadString(EscapeAll(s) + ['"'] + rest) == Some((s, rest))
  {
    if s == [] {
      assert (EscapeAll(s) + ['"'] + rest)[1..] == rest;
    } else {
      ReadsQuoted(s[1..], rest);
      ReadsEscape(s[0], EscapeAll(s[1..]) + ['"'] + rest);
      assert EscapeAll(s) + ['"'] + rest == Escape(s[0]) + (EscapeAll(s[1..]) + ['"'] + rest);
      assert [s[0]] + s[1..] == s;
    }
  }

  lemma {:induction false} ReadsNumber(n: string, rest: string)
    requires (forall i :: 0 <= i < |n| ==> NumChar(n[i])) && Follows(rest)
    ensures NumberPrefix(n + rest) == n
  {
    if n == [] {
      assert n + rest == rest;
    } else {
      assert (n + rest)[1..] == n[1..] + rest;
      ReadsNumber(n[1..], rest);
    }
  }

  // The first character of a rendered value decides which reader runs.
  lemma RenderedHead(d: Json)
    requires Lexed(d)
    ensures Render(d) != [] && !White(Render(d)[0]) && Render(d)[0] != ']' && Render(d)[0] != '}'
  {
    if d.Num? {
      assert NumChar(d.lexeme[0]);
    }
  }

  // The three literals, a number and a string at the head of a text.
  lemma ReadsLiteral(t: string)
    ensures "null" <= t ==> ReadValue(t) == Some((Null, t[4..]))
    ensures "true" <= t ==> ReadValue(t) == Some((Bool(true), t[4..]))
    ensures "false" <= t ==> ReadValue(t) == Some((Bool(false), t[5..]))
  {
    assert "null" <= t || "true" <= t || "false" <= t ==> SkipWhite(t) == t;
  }

  lemma NumberHead(c: char)
    requires NumChar(c)
    ensures c != 'n' && c != 't' && c != 'f' && c != '"' && c != '[' && c != '{' && !White(c)
  {
  }

  lemma ReadsLeadingNumber(t: string)
    requires t != [] && NumChar(t[0])
    ensures ReadValue(t) == LeadingNumber(t)
  {
    NumberHead(t[0]);
    assert SkipWhite(t) == t;
  }

  lemma ReadsLeadingString(t: string)
    requires t != [] && t[0] == '"' && ReadString(t[1..]).Some?
    ensures ReadValue(t) == Some((Str(ReadString(t[1..]).value.0), ReadString(t[1..]).value.1))
  {
    assert SkipWhite(t) == t;
  }

  lemma ReadsNum(lexeme: string, rest: string)
    requires IsNumber(lexeme) && Follows(rest)
    ensures ReadValue(lexeme + rest) == Some((Num(lexeme), rest))
  {
    ReadsNumber(lexeme, rest);
    assert NumChar(lexeme[0]) && (lexeme + rest)[0] == lexeme[0];
    assert (lexeme + rest)[|lexeme|..] == rest;
    ReadsLeadingNumber(lexeme + rest);
  }

  lemma ReadsStr(s: string, rest: string)
    ensures ReadValue(Quote(s) + rest) == Some((Str(s), rest))
  {
    ReadsQuoted(s, rest);
    assert (Quote(s) + rest)[1..] == EscapeAll(s) + ['"'] + rest;
    ReadsLeadingString(Quote(s) + rest);
  }

  lemma ReadsScalar(d: Json, rest: string)
    requires Lexed(d) && Follows(rest) && !d.Arr? && !d.Obj?
    ensures ReadValue(Render(d) + rest) == Some((d, rest))
  {
    match d
    case Null => ReadsLiteral("null" + rest);
    case Bool(b) => ReadsLiteral((if b then "true" else "false") + rest);
    case Num(lexeme) => ReadsNum(lexeme, rest);
    case Str(s) => ReadsStr(s, rest);
  }

  // One step of each list reader.
  lemma ReadsListStep(s: string, v: Json, rest: string)
    requires ReadValue(s) == Some((v, rest)) && rest != [] && (rest[0] == ']' || rest[0] == ',')
    ensures rest[0] == ']' ==> ReadItems(s) == Some(([v], rest[1..]))
    ensures rest[0] == ',' && ReadItems(rest[1..]).Some? ==>
      ReadItems(s) == Some(([v] + ReadItems(rest[1..]).value.0, ReadItems(rest[1..]).value.1))
  {
    assert SkipWhite(rest) == rest;
  }

  lemma ReadsMemberStep(s: string, key: string, c: string, v: Json, rest: string)
    requires s != [] && s[0] == '"' && ReadString(s[1..]) == Some((key, c))
    requires c != [] && c[0] == ':' && ReadValue(c[1..]) == Some((v, rest))
    requires rest != [] && (rest[0] == '}' || rest[0] == ',')
    ensures rest[0] == '}' ==> ReadEntries(s) == Some(([Entry(key, v)], rest[1..]))
    ensures rest[0] == ',' && ReadEntries(rest[1..]).Some? ==>
      ReadEntries(s) == Some(([Entry(key, v)] + ReadEntries(rest[1..]).value.0, ReadEntries(rest[1..]).value.1))
  {
    assert SkipWhite(s) == s && SkipWhite(c) == c && SkipWhite(rest) == rest;
  }

  lemma ReadsBracket(t: string)
    requires t != [] && (t[0] == '[' || t[0] == '{') && t[1..] != [] && !White(t[1])
    ensures t[0] == '[' && t[1] == ']' ==> ReadValue(t) == Some((Arr([]), t[2..]))
    ensures t[0] == '[' && t[1] != ']' && ReadItems(t[1..]).Some? ==>
      ReadValue(t) == Some((Arr(ReadItems(t[1..]).value.0), ReadItems(t[1..]).value.1))
    ensures t[0] == '{' && t[1] == '}' ==> ReadValue(t) == Some((Obj([]), t[2..]))
    ensures t[0] == '{' && t[1] != '}' && ReadEntries(t[1..]).Some? ==>
      ReadValue(t) == Some((Obj(ReadEntries(t[1..]).value.0), ReadEntries(t[1..]).value.1))
  {
    assert SkipWhite(t) == t && SkipWhite(t[1..]) == t[1..];
    assert t[1..][1..] == t[2..];
  }

  lemma {:induction false} ReadsRendered(d: Json, rest: string)
    requires Lexed(d) && Follows(rest)
    ensures ReadValue(Render(d) + rest) == Some((d, rest))
    decreases d, 2
  {
    if d.Arr? {
      ReadsArray(d.items, rest);
    } else if d.Obj? {
      ReadsObject(d.entries, rest);
    } else {
      ReadsScalar(d, rest);
    }
  }

  lemma JoinedHead(parts: seq<string>)
    requires parts != [] && parts[0] != []
    ensures Join(parts) != [] && Join(parts)[0] == parts[0][0]
  {
  }

  lemma {:induction false} ReadsArray(items: seq<Json>, rest: string)
    requires forall i :: 0 <= i < |items| ==> Lexed(items[i])
    ensures ReadValue(Render(Arr(items)) + rest) == Some((Arr(items), rest))
    decreases items, 1
  {
    var text := Render(Arr(items)) + rest;
    var inner := Join(RenderAll(items)) + ([']'] + rest);
    assert text[1..] == inner && text[1] == inner[0];
    if items == [] {
      assert text[2..] == rest;
    } else {
      ReadsItems(items, rest);
      RenderedHead(items[0]);
      JoinedHead(RenderAll(items));
    }
    ReadsBracket(text);
  }

  lemma {:induction false} ReadsObject(es: seq<Entry>, rest: string)
    requires forall i :: 0 <= i < |es| ==> Lexed(es[i].val)
    ensures ReadValue(Render(Obj(es)) + rest) == Some((Obj(es), rest))
    decreases es, 1
  {
    var text := Render(Obj(es)) + rest;
    var inner := Join(RenderEntries(es)) + (['}'] + rest);
    assert text[1..] == inner && text[1] == inner[0];
    if es == [] {
      assert text[2..] == rest;
    } else {
      ReadsEntries(es, rest);
      JoinedHead(RenderEntries(es));
    }
    ReadsBracket(text);
  }

  // What stands behind the first item.
  function ItemTail(others: seq<Json>, rest: string): string {
    if others == [] then [']'] + rest else [','] + (Join(RenderAll(others)) + ([']'] + rest))
  }

  lemma JoinText(parts: seq<string>, close: string)
    requires parts != []
    ensures Join(parts) + close == parts[0] + (if |parts| == 1 then close else [','] + (Join(parts[1..]) + close))
  {
  }

  lemma ItemsText(items: seq<Json>, rest: string)
    requires items != []
    ensures Join(RenderAll(items)) + ([']'] + rest) == Render(items[0]) + ItemTail(items[1..], rest)
  {
    assert RenderAll(items)[1..] == RenderAll(items[1..]);
    JoinText(RenderAll(items), [']'] + rest);
  }

  lemma ItemTailReads(others: seq<Json>, rest: string)
    ensures ItemTail(others, rest)[1..] == if others == [] then rest else Join(RenderAll(others)) + ([']'] + rest)
  {
  }

  lemma {:induction false} ReadsItems(items: seq<Json>, rest: string)
    requires items != [] && forall i :: 0 <= i < |items| ==> Lexed(items[i])
    ensures ReadItems(Join(RenderAll(items)) + ([']'] + rest)) == Some((items, rest))
    decreases items, 0
  {
    var first, others := items[0], items[1..];
    var tail := ItemTail(others, rest);
    ItemsText(items, rest);
    ItemTailReads(others, rest);
    ReadsRendered(first, tail);
    ReadsListStep(Render(first) + tail, first, tail);
    assert items == [first] + others;
    if others == [] {
      assert [first] + others == [first];
    } else {
      ReadsItems(others, rest);
    }
  }

  // What stands behind the first member's value.
  function MemberTail(others: seq<Entry>, rest: string): string {
    if others == [] then ['}'] + rest else [','] + (Join(RenderEntries(others)) + (['}'] + rest))
  }

  function MemberText(e: Entry, tail: string): string {
    ['"'] + (EscapeAll(e.key) + ['"'] + ([':'] + (Render(e.val) + tail)))
  }

  lemma MemberTextIs(key: string, value: string, tail: string)
    ensures ((['"'] + key + ['"']) + [':'] + value) + tail == ['"'] + (key + ['"'] + ([':'] + (value + tail)))
  {
  }

  lemma MemberTailReads(others: seq<Entry>, rest: string)
    ensures MemberTail(others, rest)[1..] == if others == [] then rest else Join(RenderEntries(others)) + (['}'] + rest)
  {
  }

  lemma EntriesText(es: seq<Entry>, rest: string)
    requires es != []
    ensures Join(RenderEntries(es)) + (['}'] + rest) == MemberText(es[0], MemberTail(es[1..], rest))
  {
    var parts := RenderEntries(es);
    assert parts[1..] == RenderEntries(es[1..]);
    MemberTextIs(EscapeAll(es[0].key), Render(es[0].val), MemberTail(es[1..], rest));
    JoinText(parts, ['}'] + rest);
  }

  lemma ReadsFirstMember(e: Entry, tail: string)
    requires ReadValue(Render(e.val) + tail) == Some((e.val, tail))
    requires tail != [] && (tail[0] == '}' || tail[0] == ',')
    ensures tail[0] == '}' ==> ReadEntries(MemberText(e, tail)) == Some(([e], tail[1..]))
    ensures tail[0] == ',' && ReadEntries(tail[1..]).Some? ==>
      ReadEntries(MemberText(e, tail)) == Some(([e] + ReadEntries(tail[1..]).value.0, ReadEntries(tail[1..]).value.1))
  {
    var body := [':'] + (Render(e.val) + tail);
    ReadsQuoted(e.key, body);
    assert MemberText(e, tail)[1..] == EscapeAll(e.key) + ['"'] + body;
    assert body[1..] == Render(e.val) + tail;
    ReadsMemberStep(MemberText(e, tail), e.key, body, e.val, tail);
  }

  lemma {:induction false} ReadsEntries(es: seq<Entry>, rest: string)
    requires es != [] && forall i :: 0 <= i < |es| ==> Lexed(es[i].val)
    ensures ReadEntries(Join(RenderEntries(es)) + (['}'] + rest)) == Some((es, rest))
    decreases es, 0
  {
    var first, others := es[0], es[1..];
    var tail := MemberTail(others, rest);
    EntriesText(es, rest);
    MemberTailReads(others, rest);
    ReadsRendered(first.val, tail);
    ReadsFirstMember(first, tail);
    assert es == [first] + others;
    if others == [] {
      assert [first] + others == [first];
    } else {
      ReadsEntries(others, rest);
    }
  }

  // ---------------------------------------------------------- and what it stands for

  // An object of the document that has a tag member has it first, at every depth.
  predicate AllTagFirst(d: Json)
    decreases d
  {
    match d
    case Arr(items) => forall i :: 0 <= i < |items| ==> AllTagFirst(items[i])
    case Obj(entries) =>
      && (forall i :: 0 < i < |entries| ==> entries[i].key != TAG)
      && forall i :: 0 <= i < |entries| ==> AllTagFirst(entries[i].val)
    case _ => true
  }

  // What holds of every member holds of the members picked out.
  lemma {:induction false} PickedMembers(es: seq<Entry>)
    ensures forall e :: e in TagEntry(es) + Others(es) ==> e in es
    ensures |TagEntry(es)| <= 1 && forall e :: e in Others(es) ==> e.key != TAG
  {
    if es == [] {
    } else {
      PickedMembers(es[1..]);
      forall e | e in TagEntry(es) + Others(es)
        ensures e in es
      {
        assert e == es[0] || e in TagEntry(es[1..]) + Others(es[1..]);
      }
    }
  }

  lemma {:induction false} OrderedAt(items: seq<Json>, i: nat)
    requires i < |items|
    ensures OrderedAll(items)[i] == Ordered(items[i])
  {
    if i == 0 {
    } else {
      OrderedAt(items[1..], i - 1);
    }
  }

  lemma {:induction false} OrderedEntryAt(es: seq<Entry>, i: nat)
    requires i < |es|
    ensures OrderedEntries(es)[i] == Entry(es[i].key, Ordered(es[i].val))
  {
    if i == 0 {
    } else {
      OrderedEntryAt(es[1..], i - 1);
    }
  }

  lemma {:induction false} OrderedIsGood(v: Json)
    requires IsValue(v)
    ensures Lexed(Ordered(v)) && AllTagFirst(Ordered(v))
    decreases v
  {
    match v
    case Arr(items) =>
      forall i | 0 <= i < |items|
        ensures Lexed(OrderedAll(items)[i]) && AllTagFirst(OrderedAll(items)[i])
      {
        OrderedAt(items, i);
        OrderedIsGood(items[i]);
      }
    case Obj(entries) =>
      var es := OrderedEntries(entries);
      PickedMembers(es);
      var picked := TagEntry(es) + Others(es);
      forall i | 0 <= i < |es|
        ensures Lexed(es[i].val) && AllTagFirst(es[i].val)
      {
        OrderedEntryAt(entries, i);
        OrderedIsGood(entries[i].val);
      }
      forall i | 0 <= i < |picked|
        ensures Lexed(picked[i].val) && AllTagFirst(picked[i].val)
      {
        assert picked[i] in picked;
      }
      forall i | 0 < i < |picked|
        ensures picked[i].key != TAG
      {
        assert picked[i] == Others(es)[i - |TagEntry(es)|];
      }
    case _ =>
  }

  lemma {:induction false} EntryValuesAppend(a: seq<Entry>, b: seq<Entry>)
    ensures EntryValues(a + b) == EntryValues(a) + EntryValues(b)
  {
    if a == [] {
      assert a + b == b;
    } else {
      assert (a + b)[0] == a[0] && (a + b)[1..] == a[1..] + b;
      EntryValuesAppend(a[1..], b);
    }
  }

  lemma {:induction false} EntryValuesPick(es: seq<Entry>)
    ensures EntryValues(TagEntry(es)) == TagEntry(EntryValues(es))
    ensures EntryValues(Others(es)) == Others(EntryValues(es))
  {
    if es == [] {
    } else {
      EntryValuesPick(es[1..]);
      var first := Entry(es[0].key, ToValue(es[0].val));
      assert EntryValues(es)[1..] == EntryValues(es[1..]);
      assert [es[0]][1..] == [];
      assert EntryValues([es[0]]) == [first] + EntryValues([es[0]][1..]);
      if es[0].key != TAG {
        assert ([es[0]] + Others(es[1..]))[1..] == Others(es[1..]);
      }
    }
  }

  lemma {:induction false} BeforeTotal(a: string, b: string)
    ensures !(Before(a, b) && Before(b, a)) && (Before(a, b) ==> a != b)
  {
    if a == [] || b == [] {
    } else {
      BeforeTotal(a[1..], b[1..]);
    }
  }

  // Appending to a sorted map the greatest key so far, before or after a held-back entry.
  lemma {:induction false} InsertAtEnd(m: seq<Entry>, e: Entry, held: seq<Entry>)
    requires |held| <= 1
    requires forall i :: 0 <= i < |m| ==> Before(m[i].key, e.key)
    requires held != [] ==> Before(e.key, held[0].key)
    ensures InsertEntry(m + held, e) == m + [e] + held
  {
    if m == [] {
      assert m + held == held && m + [e] + held == [e] + held;
      if held != [] {
        BeforeTotal(e.key, held[0].key);
      }
    } else {
      BeforeTotal(m[0].key, e.key);
      assert (m + held)[1..] == m[1..] + held;
      InsertAtEnd(m[1..], e, held);
      assert [m[0]] + (m[1..] + [e] + held) == m + [e] + held;
    }
  }

  lemma {:induction false} InsertRun(m: seq<Entry>, es: seq<Entry>, held: seq<Entry>)
    requires |held| <= 1 && SortedEntries(m + es)
    requires held != [] ==> forall i :: 0 <= i < |es| ==> Before(es[i].key, held[0].key)
    ensures InsertAll(m + held, es) == m + es + held
    decreases |es|
  {
    if es == [] {
      assert m + es + held == m + held;
    } else {
      forall i | 0 <= i < |m|
        ensures Before(m[i].key, es[0].key)
      {
        assert (m + es)[i] == m[i] && (m + es)[|m|] == es[0];
      }
      InsertAtEnd(m, es[0], held);
      assert (m + [es[0]]) + es[1..] == m + es;
      InsertRun(m + [es[0]], es[1..], held);
    }
  }

  lemma {:induction false} NoTag(es: seq<Entry>)
    requires forall i :: 0 <= i < |es| ==> es[i].key != TAG
    ensures Others(es) == es
  {
    if es == [] {
    } else {
      NoTag(es[1..]);
    }
  }

  lemma TagAtHead(es: seq<Entry>)
    requires SortedEntries(es) && es != [] && es[0].key == TAG
    ensures TagEntry(es) == [es[0]] && Others(es) == es[1..]
    ensures es == [] + TagEntry(es) + es[1..] && Others(es) == [] + es[1..]
  {
    forall i | 0 < i < |es|
      ensures es[i].key != TAG
    {
      BeforeTotal(es[0].key, es[i].key);
    }
    NoTag(es[1..]);
  }

  lemma OneMore(es: seq<Entry>, tag: seq<Entry>, a: seq<Entry>, b: seq<Entry>)
    requires es != [] && es[1..] == a + tag + b
    ensures es == ([es[0]] + a) + tag + b && [es[0]] + (a + b) == ([es[0]] + a) + b
  {
    assert es == [es[0]] + es[1..];
  }

  // A sorted object splits around its tag member.
  lemma {:induction false} SplitsAtTag(es: seq<Entry>) returns (a: seq<Entry>, b: seq<Entry>)
    requires SortedEntries(es)
    ensures es == a + TagEntry(es) + b && Others(es) == a + b && |TagEntry(es)| <= 1
    ensures TagEntry(es) == [] ==> b == []
    ensures forall e :: e in TagEntry(es) ==> e.key == TAG
  {
    if es == [] {
      a, b := [], [];
    } else if es[0].key == TAG {
      a, b := [], es[1..];
      TagAtHead(es);
    } else {
      var a', b' := SplitsAtTag(es[1..]);
      a, b := [es[0]] + a', b';
      OneMore(es, TagEntry(es), a', b');
    }
  }

  lemma {:induction false} InsertAllAppend(m: seq<Entry>, a: seq<Entry>, b: seq<Entry>)
    ensures InsertAll(m, a + b) == InsertAll(InsertAll(m, a), b)
    decreases |a|
  {
    if a == [] {
      assert a + b == b;
    } else {
      assert (a + b)[0] == a[0] && (a + b)[1..] == a[1..] + b;
      InsertAllAppend(InsertEntry(m, a[0]), a[1..], b);
    }
  }

  lemma InsertsBefore(a: seq<Entry>, tag: Entry)
    requires SortedEntries(a) && forall i :: 0 <= i < |a| ==> Before(a[i].key, tag.key)
    ensures InsertAll([tag], a) == a + [tag]
  {
    assert [] + a == a && [] + [tag] == [tag];
    InsertRun([], a, [tag]);
  }

  lemma InsertsBehind(m: seq<Entry>, b: seq<Entry>)
    requires SortedEntries(m + b)
    ensures InsertAll(m, b) == m + b
  {
    assert m + [] == m && m + b + [] == m + b;
    InsertRun(m, b, []);
  }

  lemma InsertsAround(a: seq<Entry>, tag: Entry, b: seq<Entry>)
    requires SortedEntries(a + [tag] + b)
    ensures InsertAll([tag], a + b) == a + [tag] + b
  {
    var es := a + [tag] + b;
    InsertAllAppend([tag], a, b);
    forall i | 0 <= i < |a|
      ensures Before(a[i].key, tag.key)
    {
      assert es[i] == a[i] && es[|a|] == tag;
    }
    assert SortedEntries(a) by {
      assert forall i :: 0 <= i < |a| ==> es[i] == a[i];
    }
    InsertsBefore(a, tag);
    InsertsBehind(a + [tag], b);
  }

  // Inserting the tag member and then the others one by one restores the sorted object.
  lemma InsertsBack(es: seq<Entry>)
    requires SortedEntries(es)
    ensures InsertAll([], TagEntry(es) + Others(es)) == es
  {
    var a, b := SplitsAtTag(es);
    var tag := TagEntry(es);
    if tag == [] {
      assert es == a && [] + a == a && [] + a + [] == a && tag + Others(es) == a;
      InsertRun([], a, []);
    } else {
      assert tag == [tag[0]];
      assert (tag + Others(es))[1..] == a + b;
      InsertsAround(a, tag[0], b);
    }
  }

  lemma {:induction false} ValueOfOrdered(v: Json)
    requires IsValue(v)
    ensures ToValue(Ordered(v)) == v
    decreases v, 1
  {
    match v
    case Arr(items) => ValuesOfOrdered(items);
    case Obj(entries) =>
      var es := OrderedEntries(entries);
      EntryValuesOfOrdered(entries);
      EntryValuesPick(es);
      EntryValuesAppend(TagEntry(es), Others(es));
      InsertsBack(entries);
    case _ =>
  }

  lemma {:induction false} ValuesOfOrdered(items: seq<Json>)
    requires forall i :: 0 <= i < |items| ==> IsValue(items[i])
    ensures ToValues(OrderedAll(items)) == items
    decreases items, 0
  {
    if items == [] {
    } else {
      ValueOfOrdered(items[0]);
      ValuesOfOrdered(items[1..]);
    }
  }

  lemma {:induction false} EntryValuesOfOrdered(es: seq<Entry>)
    requires forall i :: 0 <= i < |es| ==> IsValue(es[i].val)
    ensures EntryValues(OrderedEntries(es)) == es
    decreases es, 0
  {
    if es == [] {
    } else {
      ValueOfOrdered(es[0].val);
      EntryValuesOfOrdered(es[1..]);
    }
  }

  // Reading the emitted text gives a document in which every tag comes first, and that
  // document stands for exactly the value emitted.
  lemma TagFirstRoundTrip(v: Json)
    requires IsValue(v)
    ensures exists d :: ReadDocument(ToTagFirstJson(v)) == Some(d) && AllTagFirst(d) && ToValue(d) == v
    ensures FromStr(ToTagFirstJson(v)) == Some(v)
  {
    EmitsTheOrderedDocument(v);
    OrderedIsGood(v);
    ReadsRendered(Ordered(v), []);
    ValueOfOrdered(v);
    assert Render(Ordered(v)) + [] == Render(Ordered(v));
    assert ReadDocument(ToTagFirstJson(v)) == Some(Ordered(v));
  }
}
