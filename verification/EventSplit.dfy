// Splitting a concatenation of tagged events on their common prefix, the in-memory
// counterpart of one event per line.
module EventSplit {
  import opened Common
  import Json
  import opened Replay

  // What events start with, as text and in hex: dust cuts before the version, shielded after.
  const DUST_TAG: string := "midnight:event[v"
  const ZSWAP_TAG: string := "midnight:event[v9]:"
  const DUST_PREFIX: string := "6d69646e696768743a6576656e745b76"
  const ZSWAP_PREFIX: string := "6d69646e696768743a6576656e745b76395d3a"

  predicate StartsAt(p: string, s: string, i: nat) {
    i <= |s| && p <= s[i..]
  }

  function Find(p: string, s: string): (r: Option<nat>)
    ensures r.Some? ==> r.value + |p| <= |s|
  {
    if p <= s then Some(0)
    else if s == [] then None
    else
      match Find(p, s[1..])
      case Some(i) => Some(i + 1)
      case None => None
  }

  predicate NoneBefore(p: string, s: string, n: nat) {
    forall j :: 0 <= j < n ==> !StartsAt(p, s, j)
  }

  // Find finds the first occurrence.
  lemma {:induction false} FindsFirst(p: string, s: string)
    ensures match Find(p, s)
      case Some(i) => StartsAt(p, s, i) && NoneBefore(p, s, i)
      case None => NoneBefore(p, s, |s| + 1)
  {
    assert s[0..] == s;
    if !(p <= s) && s != [] {
      FindsFirst(p, s[1..]);
      forall j | 0 < j <= |s|
        ensures StartsAt(p, s, j) <==> StartsAt(p, s[1..], j - 1)
      {
        assert s[j..] == s[1..][j - 1..];
      }
    }
  }

  // `str::split`: cut at every non-overlapping occurrence, from the left.
  function Split(p: string, s: string): (parts: seq<string>)
    requires p != []
    ensures parts != []
    decreases |s|
  {
    match Find(p, s)
    case Some(i) => [s[..i]] + Split(p, s[i + |p|..])
    case None => [s]
  }

  function NonEmpty(parts: seq<string>): (r: seq<string>)
    ensures |r| <= |parts|
  {
    if parts == [] then []
    else if parts[0] == [] then NonEmpty(parts[1..])
    else [parts[0]] + NonEmpty(parts[1..])
  }

  // Dropping empty parts keeps the others in order.
  lemma {:induction false} NonEmptyPicks(parts: seq<string>)
    ensures Picks(parts, NonEmpty(parts), (part: string) => part != [])
  {
    var keep := (part: string) => part != [];
    if parts == [] {
      PicksNone(keep);
    } else {
      NonEmptyPicks(parts[1..]);
      PicksMore(parts, NonEmpty(parts[1..]), keep);
      assert [] + NonEmpty(parts[1..]) == NonEmpty(parts[1..]);
    }
  }

  predicate HexByte(hi: char, lo: char, c: char) {
    Json.HexValue(hi) == Some(c as int / 16) && Json.HexValue(lo) == Some(c as int % 16)
  }

  // Two hex digits for each character of a text.
  predicate IsHexOf(hex: string, text: string) {
    |hex| == 2 * |text| &&
    forall i :: 0 <= i < |text| ==>
      HexByte(hex[2 * i], hex[2 * i + 1], text[i])
  }

  lemma HexOfBoth(a: string, x: string, b: string, y: string)
    requires IsHexOf(a, x) && IsHexOf(b, y)
    ensures IsHexOf(a + b, x + y)
  {
    forall i | 0 <= i < |x + y|
      ensures HexByte((a + b)[2 * i], (a + b)[2 * i + 1], (x + y)[i])
    {
      if i >= |x| {
        var k := i - |x|;
        assert (x + y)[i] == y[k] && (a + b)[2 * i] == b[2 * k] && (a + b)[2 * i + 1] == b[2 * k + 1];
      }
    }
  }

  lemma HexOfWord(hex: string, text: string)
    requires |hex| == 8 && |text| == 4
    requires HexByte(hex[0], hex[1], text[0]) && HexByte(hex[2], hex[3], text[1])
    requires HexByte(hex[4], hex[5], text[2]) && HexByte(hex[6], hex[7], text[3])
    ensures IsHexOf(hex, text)
  {
    forall i | 0 <= i < 4
      ensures HexByte(hex[2 * i], hex[2 * i + 1], text[i])
    {
      if i == 0 {
      } else if i == 1 {
      } else if i == 2 {
      } else {
      }
    }
  }

  lemma HexOfEnd()
    ensures IsHexOf("395d3a", "9]:")
  {
    forall i | 0 <= i < 3
      ensures HexByte("395d3a"[2 * i], "395d3a"[2 * i + 1], "9]:"[i])
    {
      if i == 0 {
      } else if i == 1 {
      } else {
      }
    }
  }

  lemma HexOfWords()
    ensures IsHexOf("6d69646e", "midn") && IsHexOf("69676874", "ight")
    ensures IsHexOf("3a657665", ":eve") && IsHexOf("6e745b76", "nt[v")
  {
    HexOfWord("6d69646e", "midn");
    HexOfWord("69676874", "ight");
    HexOfWord("3a657665", ":eve");
    HexOfWord("6e745b76", "nt[v");
  }

  lemma PrefixWords()
    ensures DUST_PREFIX == "6d69646e" + "69676874" + ("3a657665" + "6e745b76")
    ensures DUST_TAG == "midn" + "ight" + (":eve" + "nt[v")
    ensures ZSWAP_PREFIX == DUST_PREFIX + "395d3a" && ZSWAP_TAG == DUST_TAG + "9]:"
  {
  }

  lemma PrefixesAreHex()
    ensures IsHexOf(DUST_PREFIX, DUST_TAG) && IsHexOf(ZSWAP_PREFIX, ZSWAP_TAG)
  {
    PrefixWords();
    HexOfWords();
    HexOfEnd();
    HexOfBoth("6d69646e", "midn", "69676874", "ight");
    HexOfBoth("3a657665", ":eve", "6e745b76", "nt[v");
    HexOfBoth("6d69646e" + "69676874", "midn" + "ight", "3a657665" + "6e745b76", ":eve" + "nt[v");
    HexOfBoth(DUST_PREFIX, DUST_TAG, "395d3a", "9]:");
  }

  // What the indexer's events look like concatenated.
  function Tagged(p: string, bodies: seq<string>): string {
    if bodies == [] then [] else p + bodies[0] + Tagged(p, bodies[1..])
  }

  // The prefix starts inside no body, not even running on into what follows it.
  predicate Clean(p: string, bodies: seq<string>) {
    bodies == [] || (
      && NoneBefore(p, bodies[0] + Tagged(p, bodies[1..]), |bodies[0]|)
      && Clean(p, bodies[1..]))
  }

  predicate AllNonEmpty(bodies: seq<string>) {
    forall i :: 0 <= i < |bodies| ==> bodies[i] != []
  }

  // Behind a body the next prefix stands, or the text ends.
  lemma NextPrefix(p: string, body: string, rest: seq<string>)
    requires p != []
    ensures rest == [] ==> body + Tagged(p, rest) == body && !StartsAt(p, body, |body|)
    ensures rest != [] ==> StartsAt(p, body + Tagged(p, rest), |body|)
    ensures rest != [] ==> (body + Tagged(p, rest))[|body| + |p|..] == rest[0] + Tagged(p, rest[1..])
    ensures (body + Tagged(p, rest))[..|body|] == body
  {
    var s := body + Tagged(p, rest);
    assert s[|body|..] == Tagged(p, rest);
    if rest != [] {
      assert Tagged(p, rest) == p + (rest[0] + Tagged(p, rest[1..]));
    }
  }

  // One unfolding of a split.
  lemma SplitAt(p: string, s: string, f: nat)
    requires p != [] && Find(p, s) == Some(f)
    ensures Split(p, s) == [s[..f]] + Split(p, s[f + |p|..])
  {
  }

  lemma SplitNowhere(p: string, s: string)
    requires p != [] && Find(p, s) == None
    ensures Split(p, s) == [s]
  {
  }

  // The first occurrence is at n iff one is there and none before.
  lemma FoundAt(p: string, s: string, n: nat)
    requires StartsAt(p, s, n)
    ensures Find(p, s).Some? && Find(p, s).value <= n
    ensures Find(p, s) == Some(n) <==> NoneBefore(p, s, n)
  {
    FindsFirst(p, s);
  }

  lemma SameHeadAndTail(a: string, x: seq<string>, b: string, y: seq<string>)
    ensures [a] + x == [b] + y <==> a == b && x == y
  {
    assert ([a] + x)[0] == a && ([a] + x)[1..] == x;
    assert ([b] + y)[0] == b && ([b] + y)[1..] == y;
  }

  // A text in which the prefix stands behind body splits into body and more iff the prefix
  // starts nowhere earlier and the remaining text splits into the rest.
  lemma SplitBehind(p: string, s: string, body: string, rest: seq<string>)
    requires p != [] && StartsAt(p, s, |body|) && s[..|body|] == body
    ensures Split(p, s) == [body] + rest <==> NoneBefore(p, s, |body|) && Split(p, s[|body| + |p|..]) == rest
  {
    FoundAt(p, s, |body|);
    var f := Find(p, s).value;
    SplitAt(p, s, f);
    SameHeadAndTail(s[..f], Split(p, s[f + |p|..]), body, rest);
    assert |s[..f]| == f;
  }

  lemma SplitLast(p: string, s: string)
    requires p != [] && !StartsAt(p, s, |s|)
    ensures Split(p, s) == [s] <==> NoneBefore(p, s, |s|)
  {
    var f := Find(p, s);
    FindsFirst(p, s);
    if f.Some? {
      SplitAt(p, s, f.value);
      assert !NoneBefore(p, s, |s|);
    } else {
      SplitNowhere(p, s);
    }
  }

  // After the first prefix: the split returns the bodies exactly when the prefix starts
  // inside none of them.
  lemma {:induction false} SplitBodies(p: string, bodies: seq<string>)
    requires p != [] && bodies != []
    ensures Split(p, bodies[0] + Tagged(p, bodies[1..])) == bodies <==> Clean(p, bodies)
  {
    var body, rest := bodies[0], bodies[1..];
    assert bodies == [body] + rest;
    NextPrefix(p, body, rest);
    if rest == [] {
      SplitLast(p, body);
    } else {
      SplitBodies(p, rest);
      SplitBehind(p, body + Tagged(p, rest), body, rest);
    }
  }

  // The parts with the prefix between them.
  function Joined(p: string, parts: seq<string>): string
    requires parts != []
  {
    if |parts| == 1 then parts[0] else parts[0] + p + Joined(p, parts[1..])
  }

  lemma JoinedMore(p: string, part: string, parts: seq<string>)
    requires parts != []
    ensures Joined(p, [part] + parts) == part + p + Joined(p, parts)
  {
    assert ([part] + parts)[1..] == parts;
  }

  lemma OccurrenceAt(p: string, s: string, f: nat)
    requires StartsAt(p, s, f) && NoneBefore(p, s, f)
    ensures s == s[..f] + p + s[f + |p|..]
    ensures p != [] ==> NoneBefore(p, s[..f], f + 1)
  {
    assert s == s[..f] + s[f..] && s[f..] == p + s[f..][|p|..];
    forall j | 0 <= j <= f
      ensures p != [] ==> !StartsAt(p, s[..f], j)
    {
      if p != [] && StartsAt(p, s[..f], j) {
        assert p == s[..f][j..][..|p|] == s[j..][..|p|];
        assert j < f && StartsAt(p, s, j);
        assert false;
      }
    }
  }

  // Joining what a split yields gives the text back, and no part holds the prefix.
  lemma {:induction false} SplitJoins(p: string, s: string)
    requires p != []
    ensures Joined(p, Split(p, s)) == s
    ensures forall i :: 0 <= i < |Split(p, s)| ==> NoneBefore(p, Split(p, s)[i], |Split(p, s)[i]| + 1)
    decreases |s|
  {
    FindsFirst(p, s);
    var f := Find(p, s);
    if f.Some? {
      var rest := s[f.value + |p|..];
      SplitJoins(p, rest);
      SplitAt(p, s, f.value);
      OccurrenceAt(p, s, f.value);
      JoinedMore(p, s[..f.value], Split(p, rest));
    } else {
      SplitNowhere(p, s);
    }
  }

  function TotalLength(parts: seq<string>): nat {
    if parts == [] then 0 else |parts[0]| + TotalLength(parts[1..])
  }

  lemma OneMore(p: nat, n: nat)
    ensures p * (n + 1) == p * n + p
  {
  }

  lemma TotalOf(part: string, parts: seq<string>)
    ensures TotalLength([part] + parts) == |part| + TotalLength(parts)
  {
    assert ([part] + parts)[1..] == parts;
  }

  lemma LengthOf(part: string, parts: seq<string>, n: nat)
    requires parts != []
    ensures TotalLength([part] + parts) + n * (|[part] + parts| - 1)
         == |part| + n + (TotalLength(parts) + n * (|parts| - 1))
  {
    TotalOf(part, parts);
    OneMore(n, |parts| - 1);
  }

  lemma LengthStep(p: string, s: string, f: nat, parts: seq<string>)
    requires p != [] && Find(p, s) == Some(f) && parts == Split(p, s[f + |p|..])
    requires TotalLength(parts) + |p| * (|parts| - 1) == |s| - f - |p|
    ensures TotalLength(Split(p, s)) + |p| * (|Split(p, s)| - 1) == |s|
  {
    SplitAt(p, s, f);
    LengthOf(s[..f], parts, |p|);
  }

  lemma {:induction false} SplitLength(p: string, s: string)
    requires p != []
    ensures TotalLength(Split(p, s)) + |p| * (|Split(p, s)| - 1) == |s|
    decreases |s|
  {
    var f := Find(p, s);
    if f.Some? {
      var rest := s[f.value + |p|..];
      SplitLength(p, rest);
      LengthStep(p, s, f.value, Split(p, rest));
    } else {
      SplitNowhere(p, s);
      TotalOf(s, []);
      assert [s] + [] == [s];
    }
  }

  lemma {:induction false} TaggedLength(p: string, bodies: seq<string>)
    ensures |Tagged(p, bodies)| == TotalLength(bodies) + |p| * |bodies|
  {
    if bodies == [] {
    } else {
      TaggedLength(p, bodies[1..]);
      OneMore(|p|, |bodies[1..]|);
    }
  }

  lemma {:induction false} FilterKeepsLength(parts: seq<string>)
    ensures TotalLength(NonEmpty(parts)) == TotalLength(parts)
    ensures AllNonEmpty(NonEmpty(parts))
    ensures |NonEmpty(parts)| == |parts| ==> NonEmpty(parts) == parts
    ensures AllNonEmpty(parts) ==> NonEmpty(parts) == parts
  {
    if parts == [] {
    } else {
      FilterKeepsLength(parts[1..]);
    }
  }

  lemma SameCount(p: nat, a: nat, b: nat)
    requires 0 < p && p * a == p * b
    ensures a == b
  {
  }

  // The text starts with the prefix, so the split starts with an empty part.
  lemma FirstPart(p: string, bodies: seq<string>)
    requires p != [] && bodies != []
    ensures Split(p, Tagged(p, bodies)) == [[]] + Split(p, bodies[0] + Tagged(p, bodies[1..]))
  {
    var s, tail := Tagged(p, bodies), bodies[0] + Tagged(p, bodies[1..]);
    assert s == p + tail && s[0..] == s && s[0 + |p|..] == tail && s[..0] == [];
    FoundAt(p, s, 0);
    SplitAt(p, s, 0);
  }

  // If the non-empty parts are the bodies, only the leading part was empty.
  lemma OnlyTheFirstIsEmpty(p: string, bodies: seq<string>)
    requires p != [] && bodies != [] && NonEmpty(Split(p, Tagged(p, bodies))) == bodies
    ensures Split(p, Tagged(p, bodies)) == [[]] + bodies
  {
    var parts := Split(p, Tagged(p, bodies));
    FirstPart(p, bodies);
    SplitLength(p, Tagged(p, bodies));
    TaggedLength(p, bodies);
    FilterKeepsLength(parts);
    SameCount(|p|, |parts| - 1, |bodies|);
    FilterKeepsLength(parts[1..]);
  }

  // Splitting and dropping empty parts recovers exactly the events concatenated if and only
  // if every body is non-empty and the prefix starts inside none of them.  (An occurrence
  // overlapping the end of a genuine prefix does no harm.)
  lemma SplitRecoversIff(p: string, bodies: seq<string>)
    requires p != []
    ensures NonEmpty(Split(p, Tagged(p, bodies))) == bodies <==> AllNonEmpty(bodies) && Clean(p, bodies)
  {
    var parts := Split(p, Tagged(p, bodies));
    if bodies == [] {
      assert Tagged(p, bodies) == [] && Find(p, []) == None;
      assert parts[1..] == [] && NonEmpty(parts[1..]) == [];
    } else {
      var inner := Split(p, bodies[0] + Tagged(p, bodies[1..]));
      FirstPart(p, bodies);
      assert parts[1..] == inner;
      SplitBodies(p, bodies);
      FilterKeepsLength(inner);
      if NonEmpty(parts) == bodies {
        OnlyTheFirstIsEmpty(p, bodies);
        assert ([[]] + bodies)[1..] == bodies;
      }
    }
  }

  // -------------------------------------------------------------------- in-memory replay

  // Parses each part, after putting a text in front of it.
  function ParseParts(parse: Parser, front: string, parts: seq<string>): Option<seq<Event>> {
    if parts == [] then Some([])
    else
      match (parse(front + parts[0]), ParseParts(parse, front, parts[1..]))
      case (Some(e), Some(es)) => Some([e] + es)
      case _ => None
  }

  lemma {:induction false} ParsePartsAppend(parse: Parser, front: string, a: seq<string>, b: seq<string>)
    ensures ParseParts(parse, front, a + b)
         == match (ParseParts(parse, front, a), ParseParts(parse, front, b))
            case (Some(x), Some(y)) => Some(x + y)
            case _ => None
  {
    if a == [] {
      assert a + b == b;
      if ParseParts(parse, front, b).Some? {
        assert [] + ParseParts(parse, front, b).value == ParseParts(parse, front, b).value;
      }
    } else {
      assert (a + b)[0] == a[0] && (a + b)[1..] == a[1..] + b;
      ParsePartsAppend(parse, front, a[1..], b);
      var e, x, y := parse(front + a[0]), ParseParts(parse, front, a[1..]), ParseParts(parse, front, b);
      if e.Some? && x.Some? && y.Some? {
        assert [e.value] + (x.value + y.value) == [e.value] + x.value + y.value;
      }
    }
  }

  lemma OnePart(parse: Parser, front: string, part: string)
    ensures ParseParts(parse, front, [part])
         == match parse(front + part) case Some(e) => Some([e]) case None => None
  {
    assert [part][1..] == [] && ParseParts(parse, front, [part][1..]) == Some([]);
    var e := parse(front + part);
    if e.Some? {
      assert [e.value] + [] == [e.value];
    }
  }

  // The parsing loop of both in-memory paths.
  method ParseAll(parse: Parser, front: string, parts: seq<string>) returns (r: Option<seq<Event>>)
    ensures r == ParseParts(parse, front, parts)
  {
    var events: seq<Event> := [];
    for i := 0 to |parts|
      invariant ParseParts(parse, front, parts[..i]) == Some(events)
    {
      assert parts[..i + 1] == parts[..i] + [parts[i]] && parts == parts[..i + 1] + parts[i + 1..];
      OnePart(parse, front, parts[i]);
      ParsePartsAppend(parse, front, parts[..i], [parts[i]]);
      ParsePartsAppend(parse, front, parts[..i + 1], parts[i + 1..]);
      var event := parse(front + parts[i]);
      if event.None? {
        return None;
      }
      events := events + [event.value];
    }
    assert parts[..|parts|] == parts;
    r := Some(events);
  }

  // What `dust_replay_events` does: the prefix is put back before each part is parsed.
  function DustInMemory(l: Ledger, parse: Parser, base: State, text: string): Option<State> {
    match ParseParts(parse, DUST_PREFIX, NonEmpty(Split(DUST_PREFIX, text)))
    case Some(events) => ReplayEvents(l, base, events)
    case None => None
  }

  // And `zswap_replay_events`: an empty text changes nothing, parts are parsed without a tag.
  function ZswapInMemory(l: Ledger, parseBody: Parser, base: State, text: string): Option<State> {
    if text == [] then Some(base)
    else
      match ParseParts(parseBody, [], NonEmpty(Split(ZSWAP_PREFIX, text)))
      case Some(events) => ReplayEvents(l, base, events)
      case None => None
  }

  method DustReplayEvents(l: Ledger, parse: Parser, base: State, text: string) returns (r: Option<State>)
    ensures r == DustInMemory(l, parse, base, text)
    ensures var es := ParseParts(parse, DUST_PREFIX, NonEmpty(Split(DUST_PREFIX, text)));
      if es.Some? then forall x :: r == Some(x) <==> Reaches(l, base, es.value, x) else r == None
  {
    var events := ParseAll(parse, DUST_PREFIX, NonEmpty(Split(DUST_PREFIX, text)));
    if events.None? {
      return None;
    }
    ReplayReaches(l, base, events.value);
    r := ReplayEvents(l, base, events.value);
  }

  method ZswapReplayEvents(l: Ledger, parseBody: Parser, base: State, text: string) returns (r: Option<State>)
    ensures r == ZswapInMemory(l, parseBody, base, text)
    ensures text == [] ==> r == Some(base)
    ensures text != [] ==>
      var es := ParseParts(parseBody, [], NonEmpty(Split(ZSWAP_PREFIX, text)));
      if es.Some? then forall x :: r == Some(x) <==> Reaches(l, base, es.value, x) else r == None
  {
    if text == [] {
      return Some(base);
    }
    var events := ParseAll(parseBody, [], NonEmpty(Split(ZSWAP_PREFIX, text)));
    if events.None? {
      return None;
    }
    ReplayReaches(l, base, events.value);
    r := ReplayEvents(l, base, events.value);
  }

  // The same events in a file, one per line.
  function FileOf(p: string, bodies: seq<string>): seq<Line> {
    if bodies == [] then [] else [Text(p + bodies[0])] + FileOf(p, bodies[1..])
  }

  lemma {:induction false} FileHoldsTheParts(parse: Parser, p: string, bodies: seq<string>)
    requires p != []
    ensures Parsed(parse, FileOf(p, bodies), false) == ParseParts(parse, p, bodies)
  {
    if bodies == [] {
    } else {
      FileHoldsTheParts(parse, p, bodies[1..]);
      assert FileOf(p, bodies)[1..] == FileOf(p, bodies[1..]);
    }
  }

  lemma {:induction false} UntaggedParts(parse: Parser, parseBody: Parser, p: string, bodies: seq<string>)
    requires forall b :: parseBody(b) == parse(p + b)
    ensures ParseParts(parseBody, [], bodies) == ParseParts(parse, p, bodies)
  {
    if bodies == [] {
    } else {
      assert [] + bodies[0] == bodies[0];
      UntaggedParts(parse, parseBody, p, bodies[1..]);
    }
  }

  lemma {:induction false} FileOfAt(p: string, bodies: seq<string>)
    ensures |FileOf(p, bodies)| == |bodies|
    ensures forall i :: 0 <= i < |bodies| ==> FileOf(p, bodies)[i] == Text(p + bodies[i])
  {
    if bodies == [] {
    } else {
      FileOfAt(p, bodies[1..]);
    }
  }

  lemma {:induction false} PartsOfMany(parse: Parser, front: string, parts: seq<string>)
    ensures ParseParts(parse, front, parts).Some? ==> |ParseParts(parse, front, parts).value| == |parts|
  {
    if parts == [] {
    } else {
      PartsOfMany(parse, front, parts[1..]);
    }
  }

  // One or more clean dust events: in memory and streamed from a file they end in the same
  // state or the same failure.
  lemma DustPathsAgree(l: Ledger, parse: Parser, base: State, bodies: seq<string>)
    requires bodies != [] && AllNonEmpty(bodies) && Clean(DUST_PREFIX, bodies)
    ensures DustInMemory(l, parse, base, Tagged(DUST_PREFIX, bodies))
         == FromFile(l, parse, base, FileOf(DUST_PREFIX, bodies), false)
  {
    SplitRecoversIff(DUST_PREFIX, bodies);
    FileHoldsTheParts(parse, DUST_PREFIX, bodies);
    PartsOfMany(parse, DUST_PREFIX, bodies);
  }

  lemma {:induction false} TrimEndIsPrefix(s: string)
    ensures |TrimEnd(s)| <= |s|
  {
    if s == [] {
    } else {
      TrimEndIsPrefix(s[..|s| - 1]);
    }
  }

  // A text is its own trimming iff it neither starts nor ends with white space.
  lemma TrimmedAt(s: string)
    requires s != [] && !White(s[0])
    ensures Trim(s) == s <==> !White(s[|s| - 1])
  {
    TrimEndIsPrefix(s[..|s| - 1]);
  }

  // Without trimming, the shielded events of a file are those in memory.
  lemma ZswapIsUntrimmedFile(l: Ledger, parse: Parser, parseBody: Parser, base: State, bodies: seq<string>)
    requires forall b :: parseBody(b) == parse(ZSWAP_PREFIX + b)
    requires bodies != [] && AllNonEmpty(bodies) && Clean(ZSWAP_PREFIX, bodies)
    ensures ZswapInMemory(l, parseBody, base, Tagged(ZSWAP_PREFIX, bodies))
         == FromFile(l, parse, base, FileOf(ZSWAP_PREFIX, bodies), false)
  {
    SplitRecoversIff(ZSWAP_PREFIX, bodies);
    FileHoldsTheParts(parse, ZSWAP_PREFIX, bodies);
    UntaggedParts(parse, parseBody, ZSWAP_PREFIX, bodies);
    PartsOfMany(parse, ZSWAP_PREFIX, bodies);
  }

  predicate NoneEndsInSpace(bodies: seq<string>) {
    forall i :: 0 <= i < |bodies| && bodies[i] != [] ==> !White(bodies[i][|bodies[i]| - 1])
  }

  lemma TrimmedFile(p: string, bodies: seq<string>)
    requires p != [] && !White(p[0]) && AllNonEmpty(bodies)
    ensures AllTrimmed(FileOf(p, bodies)) <==> NoneEndsInSpace(bodies)
  {
    var lines := FileOf(p, bodies);
    FileOfAt(p, bodies);
    forall i | 0 <= i < |bodies|
      ensures Trim(lines[i].s) == lines[i].s <==> !White(bodies[i][|bodies[i]| - 1])
    {
      TrimmedAt(p + bodies[i]);
    }
  }

  // One or more clean shielded events: in memory and from a file read by the trimming reader
  // they agree exactly when no body ends in white space, or the file fails as well.
  lemma ZswapPathsAgreeIff(l: Ledger, parse: Parser, parseBody: Parser, base: State, bodies: seq<string>)
    requires RefusesSpaces(parse) && forall b :: parseBody(b) == parse(ZSWAP_PREFIX + b)
    requires bodies != [] && AllNonEmpty(bodies) && Clean(ZSWAP_PREFIX, bodies)
    ensures var file := FromFile(l, parse, base, FileOf(ZSWAP_PREFIX, bodies), true);
      ZswapInMemory(l, parseBody, base, Tagged(ZSWAP_PREFIX, bodies)) == file
      <==> file.None? || NoneEndsInSpace(bodies)
  {
    ZswapIsUntrimmedFile(l, parse, parseBody, base, bodies);
    FileReadersAgreeIff(l, parse, base, FileOf(ZSWAP_PREFIX, bodies));
    TrimmedFile(ZSWAP_PREFIX, bodies);
  }
}
