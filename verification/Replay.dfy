// Replaying wallet events: in one call, in chunks of a parsed list, and streamed from a
// file with at most one chunk in memory.
module Replay {
  import opened Common

  type State(==, !new)
  type Event(==, !new)

  // The ledger's replay: apply takes one event, finish is what each call does at its end
  // (collapsing and rehashing trees).
  datatype Ledger = Ledger(apply: (State, Event) -> Option<State>, finish: State -> State)

  function Applied(l: Ledger, s: State, es: seq<Event>): Option<State>
    decreases |es|
  {
    if es == [] then Some(s)
    else
      match l.apply(s, es[0])
      case Some(s') => Applied(l, s', es[1..])
      case None => None
  }

  // One `replay_events` call.
  function ReplayEvents(l: Ledger, s: State, es: seq<Event>): Option<State> {
    match Applied(l, s, es)
    case Some(s') => Some(l.finish(s'))
    case None => None
  }

  // Same outcome up to a later finish.
  predicate Alike(l: Ledger, a: Option<State>, b: Option<State>) {
    match (a, b)
    case (Some(x), Some(y)) => l.finish(x) == l.finish(y)
    case (None, None) => true
    case _ => false
  }

  // Finishing is idempotent, and invisible to whatever is applied afterwards.
  ghost predicate Lawful(l: Ledger) {
    && (forall s :: l.finish(l.finish(s)) == l.finish(s))
    && (forall s, e :: Alike(l, l.apply(l.finish(s), e), l.apply(s, e)))
  }

  lemma {:induction false} FinishIsInvisible(l: Ledger, s: State, t: State, es: seq<Event>)
    requires Lawful(l) && l.finish(s) == l.finish(t)
    ensures Alike(l, Applied(l, s, es), Applied(l, t, es))
    decreases |es|
  {
    if es == [] {
    } else {
      assert Alike(l, l.apply(l.finish(s), es[0]), l.apply(s, es[0]));
      assert Alike(l, l.apply(l.finish(t), es[0]), l.apply(t, es[0]));
      if l.apply(s, es[0]).Some? {
        FinishIsInvisible(l, l.apply(s, es[0]).value, l.apply(t, es[0]).value, es[1..]);
      }
    }
  }

  lemma {:induction false} AppliedAppend(l: Ledger, s: State, a: seq<Event>, b: seq<Event>)
    ensures Applied(l, s, a + b)
         == match Applied(l, s, a) case Some(s') => Applied(l, s', b) case None => None
    decreases |a|
  {
    if a == [] {
      assert a + b == b;
    } else {
      assert (a + b)[0] == a[0] && (a + b)[1..] == a[1..] + b;
      if l.apply(s, a[0]).Some? {
        AppliedAppend(l, l.apply(s, a[0]).value, a[1..], b);
      }
    }
  }

  // Two calls chained are one call on both lists.
  lemma TwoCallsAreOne(l: Ledger, s: State, a: seq<Event>, b: seq<Event>)
    requires Lawful(l)
    ensures ReplayEvents(l, s, a + b)
         == match ReplayEvents(l, s, a) case Some(s') => ReplayEvents(l, s', b) case None => None
  {
    AppliedAppend(l, s, a, b);
    var mid := Applied(l, s, a);
    if mid.Some? {
      FinishIsInvisible(l, l.finish(mid.value), mid.value, b);
    }
  }

  // x is what comes of base by applying the events one after the other, each to the state the
  // one before it left, and finishing once at the end.
  ghost predicate StepsThrough(l: Ledger, base: State, es: seq<Event>, states: seq<State>) {
    && |states| == |es| + 1 && states[0] == base
    && forall i :: 0 <= i < |es| ==> l.apply(states[i], es[i]) == Some(states[i + 1])
  }

  ghost predicate Reaches(l: Ledger, base: State, es: seq<Event>, x: State) {
    exists states :: StepsThrough(l, base, es, states) && x == l.finish(states[|es|])
  }

  lemma {:induction false} AppliedIsLast(l: Ledger, s: State, es: seq<Event>, states: seq<State>)
    requires StepsThrough(l, s, es, states)
    ensures Applied(l, s, es) == Some(states[|es|])
    decreases |es|
  {
    if es == [] {
    } else {
      AppliedIsLast(l, states[1], es[1..], states[1..]);
    }
  }

  lemma {:induction false} AppliedSteps(l: Ledger, s: State, es: seq<Event>) returns (states: seq<State>)
    requires Applied(l, s, es).Some?
    ensures StepsThrough(l, s, es, states)
    decreases |es|
  {
    if es == [] {
      states := [s];
    } else {
      var rest := AppliedSteps(l, l.apply(s, es[0]).value, es[1..]);
      states := [s] + rest;
      forall i | 0 <= i < |es|
        ensures l.apply(states[i], es[i]) == Some(states[i + 1])
      {
        assert i > 0 ==> es[i] == es[1..][i - 1] && states[i] == rest[i - 1];
      }
    }
  }

  // A replay call succeeds with x exactly when the events lead there.
  lemma ReplayReaches(l: Ledger, base: State, es: seq<Event>)
    ensures forall x :: ReplayEvents(l, base, es) == Some(x) <==> Reaches(l, base, es, x)
  {
    if Applied(l, base, es).Some? {
      var states := AppliedSteps(l, base, es);
      AppliedIsLast(l, base, es, states);
      assert Reaches(l, base, es, l.finish(states[|es|]));
    }
    forall x | Reaches(l, base, es, x)
      ensures ReplayEvents(l, base, es) == Some(x)
    {
      var states :| StepsThrough(l, base, es, states) && x == l.finish(states[|es|]);
      AppliedIsLast(l, base, es, states);
    }
  }

  // What any chunking of a list does: no call at all for an empty list.
  function Chunked(l: Ledger, s: State, es: seq<Event>): Option<State> {
    if es == [] then Some(s) else ReplayEvents(l, s, es)
  }

  lemma ChunkedAppend(l: Ledger, s: State, a: seq<Event>, b: seq<Event>)
    requires Lawful(l)
    ensures Chunked(l, s, a + b) == match Chunked(l, s, a) case Some(s') => Chunked(l, s', b) case None => None
  {
    TwoCallsAreOne(l, s, a, b);
    if a == [] {
      assert a + b == b;
    } else if b == [] {
      assert a + b == a;
    }
  }

  // Chunking agrees with a single call, on success and on failure, except that on an empty
  // list it leaves an unfinished base unfinished.
  lemma ChunkedIsOneCall(l: Ledger, s: State, es: seq<Event>)
    ensures Chunked(l, s, es) == ReplayEvents(l, s, es) <==> es != [] || l.finish(s) == s
  {
  }

  // `replay_zswap_events_chunked`.
  method ReplayChunked(l: Ledger, base: State, events: seq<Event>, chunkSize: nat) returns (r: Option<State>)
    requires Lawful(l)
    ensures r == Chunked(l, base, events)
    ensures events == [] ==> r == Some(base)
    ensures events != [] ==> forall x :: r == Some(x) <==> Reaches(l, base, events, x)
  {
    ReplayReaches(l, base, events);
    var size := if chunkSize < 1 then 1 else chunkSize;
    var state := base;
    var i := 0;
    while i < |events|
      invariant 0 <= i <= |events|
      invariant Chunked(l, base, events[..i]) == Some(state)
    {
      var next := if i + size < |events| then i + size else |events|;
      var chunk := events[i..next];
      assert events[..next] == events[..i] + chunk && events == events[..next] + events[next..];
      ChunkedAppend(l, base, events[..i], chunk);
      ChunkedAppend(l, base, events[..next], events[next..]);
      var replayed := ReplayEvents(l, state, chunk);
      if replayed.None? {
        return None;
      }
      state := replayed.value;
      i := next;
    }
    assert events[..i] == events;
    r := Some(state);
  }

  // ------------------------------------------------------------------------ event files

  // A line of an event file, as the reader yields it.
  datatype Line = Unreadable | Text(s: string)

  // Hex decoding and tagged deserialisation of one event.
  type Parser = string -> Option<Event>

  // Unicode white space, which `str::trim` removes.
  predicate White(c: char) {
    var n := c as int;
    || n == 0x20 || 0x9 <= n <= 0xD || n == 0x85 || n == 0xA0 || n == 0x1680 || 0x2000 <= n <= 0x200A
    || n == 0x2028 || n == 0x2029 || n == 0x202F || n == 0x205F || n == 0x3000
  }

  function TrimStart(s: string): string {
    if s != [] && White(s[0]) then TrimStart(s[1..]) else s
  }

  function TrimEnd(s: string): string {
    if s != [] && White(s[|s| - 1]) then TrimEnd(s[..|s| - 1]) else s
  }

  function Trim(s: string): string {
    TrimEnd(TrimStart(s))
  }

  predicate AllWhite(s: string) {
    forall i :: 0 <= i < |s| ==> White(s[i])
  }

  lemma {:induction false} TrimStartSpec(s: string)
    ensures |TrimStart(s)| <= |s| && TrimStart(s) == s[|s| - |TrimStart(s)|..]
    ensures AllWhite(s[..|s| - |TrimStart(s)|])
    ensures TrimStart(s) != [] ==> !White(TrimStart(s)[0])
  {
    if s == [] || !White(s[0]) {
    } else {
      TrimStartSpec(s[1..]);
      var n := |s| - |TrimStart(s)|;
      assert s[..n] == [s[0]] + s[1..][..n - 1] && s[n..] == s[1..][n - 1..];
    }
  }

  lemma {:induction false} TrimEndSpec(s: string)
    ensures TrimEnd(s) <= s && AllWhite(s[|TrimEnd(s)|..])
    ensures TrimEnd(s) != [] ==> !White(TrimEnd(s)[|TrimEnd(s)| - 1])
  {
    if s == [] || !White(s[|s| - 1]) {
    } else {
      var init, n := s[..|s| - 1], |TrimEnd(s)|;
      TrimEndSpec(init);
      assert s[n..] == init[n..] + [s[|s| - 1]];
    }
  }

  // Trimming takes white space off both ends, all of it and nothing else.
  lemma TrimSpec(s: string)
    ensures exists a, b :: s == a + Trim(s) + b && AllWhite(a) && AllWhite(b)
    ensures Trim(s) != [] ==> !White(Trim(s)[0]) && !White(Trim(s)[|Trim(s)| - 1])
  {
    var t, n := TrimStart(s), |Trim(s)|;
    TrimStartSpec(s);
    TrimEndSpec(t);
    assert s == s[..|s| - |t|] + t && t == Trim(s) + t[n..];
    assert s == s[..|s| - |t|] + Trim(s) + t[n..];
  }

  // The events of a file: every line must be readable and parse, empty ones are skipped.
  function Parsed(parse: Parser, lines: seq<Line>, trims: bool): Option<seq<Event>> {
    if lines == [] then Some([])
    else if lines[0].Unreadable? then None
    else
      var text := if trims then Trim(lines[0].s) else lines[0].s;
      if text == [] then Parsed(parse, lines[1..], trims)
      else
        match (parse(text), Parsed(parse, lines[1..], trims))
        case (Some(e), Some(es)) => Some([e] + es)
        case _ => None
  }

  function FromFile(l: Ledger, parse: Parser, base: State, lines: seq<Line>, trims: bool): Option<State> {
    match Parsed(parse, lines, trims)
    case Some(es) => Chunked(l, base, es)
    case None => None
  }

  // How a file's replay ends: in failure when a line does not parse, in the base when there is
  // no event, and else where the events lead, or in failure when they lead nowhere.
  ghost predicate EndsAs(l: Ledger, base: State, parsed: Option<seq<Event>>, r: Option<State>) {
    match parsed
    case None => r == None
    case Some(es) =>
      if es == [] then r == Some(base) else forall x :: r == Some(x) <==> Reaches(l, base, es, x)
  }

  lemma FileEnds(l: Ledger, parse: Parser, base: State, lines: seq<Line>, trims: bool)
    ensures EndsAs(l, base, Parsed(parse, lines, trims), FromFile(l, parse, base, lines, trims))
  {
    var es := Parsed(parse, lines, trims);
    if es.Some? {
      ReplayReaches(l, base, es.value);
    }
  }

  const CHUNK_SIZE: nat := 500

  lemma {:induction false} ParsedAppend(parse: Parser, a: seq<Line>, b: seq<Line>, trims: bool)
    ensures Parsed(parse, a + b, trims)
         == match (Parsed(parse, a, trims), Parsed(parse, b, trims))
            case (Some(x), Some(y)) => Some(x + y)
            case _ => None
  {
    if a == [] {
      assert a + b == b;
      if Parsed(parse, b, trims).Some? {
        assert [] + Parsed(parse, b, trims).value == Parsed(parse, b, trims).value;
      }
    } else {
      assert (a + b)[0] == a[0] && (a + b)[1..] == a[1..] + b;
      ParsedAppend(parse, a[1..], b, trims);
      if a[0].Text? {
        var text := if trims then Trim(a[0].s) else a[0].s;
        var x, y := Parsed(parse, a[1..], trims), Parsed(parse, b, trims);
        if text != [] && parse(text).Some? && x.Some? && y.Some? {
          assert [parse(text).value] + (x.value + y.value) == [parse(text).value] + x.value + y.value;
        }
      }
    }
  }

  // A prefix of the file that fails to parse or to replay fails the whole file.
  lemma FailureStays(l: Ledger, parse: Parser, base: State, lines: seq<Line>, i: nat, trims: bool)
    requires Lawful(l) && i <= |lines| && FromFile(l, parse, base, lines[..i], trims).None?
    ensures FromFile(l, parse, base, lines, trims).None?
  {
    assert lines == lines[..i] + lines[i..];
    ParsedAppend(parse, lines[..i], lines[i..], trims);
    var x, y := Parsed(parse, lines[..i], trims), Parsed(parse, lines[i..], trims);
    if x.Some? && y.Some? {
      ChunkedAppend(l, base, x.value, y.value);
    }
  }

  // One more line of the file.
  lemma OneMoreLine(parse: Parser, lines: seq<Line>, i: nat, trims: bool)
    requires i < |lines| && Parsed(parse, lines[..i], trims).Some?
    ensures Parsed(parse, lines[..i + 1], trims)
         == match Parsed(parse, [lines[i]], trims)
            case Some(y) => Some(Parsed(parse, lines[..i], trims).value + y)
            case None => None
  {
    assert lines[..i + 1] == lines[..i] + [lines[i]];
    ParsedAppend(parse, lines[..i], [lines[i]], trims);
  }

  lemma OneLine(parse: Parser, line: Line, trims: bool)
    ensures Parsed(parse, [line], trims)
         == if line.Unreadable? then None
            else
              var text := if trims then Trim(line.s) else line.s;
              if text == [] then Some([])
              else match parse(text) case Some(e) => Some([e]) case None => None
  {
    assert [line][1..] == [] && Parsed(parse, [line][1..], trims) == Some([]);
    if line.Text? {
      var e := parse(if trims then Trim(line.s) else line.s);
      if e.Some? {
        assert [e.value] + [] == [e.value];
      }
    }
  }

  // `dust_replay_events_from_file`: parse, buffer, flush every CHUNK_SIZE events, flush the
  // rest.  peak is the most events the buffer ever holds.
  method DustReplayEventsFromFile(l: Ledger, parse: Parser, base: State, lines: seq<Line>)
    returns (r: Option<State>, ghost peak: nat)
    requires Lawful(l)
    ensures r == FromFile(l, parse, base, lines, false)
    ensures EndsAs(l, base, Parsed(parse, lines, false), r)
    ensures peak <= CHUNK_SIZE
  {
    FileEnds(l, parse, base, lines, false);
    var state := base;
    var chunk: seq<Event> := [];
    peak := 0;
    ghost var flushed: seq<Event> := [];
    assert flushed + chunk == [];
    for i := 0 to |lines|
      invariant Parsed(parse, lines[..i], false) == Some(flushed + chunk)
      invariant Chunked(l, base, flushed) == Some(state)
      invariant |chunk| < CHUNK_SIZE && peak <= CHUNK_SIZE
    {
      OneMoreLine(parse, lines, i, false);
      OneLine(parse, lines[i], false);
      if lines[i].Unreadable? {
        FailureStays(l, parse, base, lines, i + 1, false);
        return None, peak;
      }
      var line := lines[i].s;
      if line == [] {
        assert flushed + chunk + [] == flushed + chunk;
        continue;
      }
      var event := parse(line);
      if event.None? {
        FailureStays(l, parse, base, lines, i + 1, false);
        return None, peak;
      }
      assert flushed + chunk + [event.value] == flushed + (chunk + [event.value]);
      chunk := chunk + [event.value];
      peak := if peak < |chunk| then |chunk| else peak;
      if |chunk| == CHUNK_SIZE {
        ChunkedAppend(l, base, flushed, chunk);
        var replayed := ReplayEvents(l, state, chunk);
        if replayed.None? {
          FailureStays(l, parse, base, lines, i + 1, false);
          return None, peak;
        }
        state := replayed.value;
        flushed := flushed + chunk;
        chunk := [];
        assert flushed + chunk == flushed;
      }
    }
    assert lines[..|lines|] == lines;
    ChunkedAppend(l, base, flushed, chunk);
    if chunk != [] {
      var replayed := ReplayEvents(l, state, chunk);
      if replayed.None? {
        return None, peak;
      }
      state := replayed.value;
    }
    r := Some(state);
  }

  // `zswap_replay_events_from_file`: parse every trimmed line first, then replay in chunks.
  method ZswapReplayEventsFromFile(l: Ledger, parse: Parser, base: State, lines: seq<Line>)
    returns (r: Option<State>)
    requires Lawful(l)
    ensures r == FromFile(l, parse, base, lines, true)
    ensures EndsAs(l, base, Parsed(parse, lines, true), r)
  {
    FileEnds(l, parse, base, lines, true);
    var events: seq<Event> := [];
    for i := 0 to |lines|
      invariant Parsed(parse, lines[..i], true) == Some(events)
    {
      OneMoreLine(parse, lines, i, true);
      OneLine(parse, lines[i], true);
      if lines[i].Unreadable? {
        FailureStays(l, parse, base, lines, i + 1, true);
        return None;
      }
      var trimmed := Trim(lines[i].s);
      if trimmed == [] {
        assert events + [] == events;
        continue;
      }
      var event := parse(trimmed);
      if event.None? {
        FailureStays(l, parse, base, lines, i + 1, true);
        return None;
      }
      events := events + [event.value];
    }
    assert lines[..|lines|] == lines;
    r := ReplayChunked(l, base, events, CHUNK_SIZE);
  }

  // A hex decoder accepts no white space.
  ghost predicate RefusesSpaces(parse: Parser) {
    forall s :: Trim(s) != s ==> parse(s) == None
  }

  predicate AllTrimmed(lines: seq<Line>) {
    forall i :: 0 <= i < |lines| && lines[i].Text? ==> Trim(lines[i].s) == lines[i].s
  }

  lemma {:induction false} ParsersAgree(parse: Parser, lines: seq<Line>)
    requires AllTrimmed(lines)
    ensures Parsed(parse, lines, true) == Parsed(parse, lines, false)
  {
    if lines == [] {
    } else {
      ParsersAgree(parse, lines[1..]);
    }
  }

  // On files without white space around a line, streaming, parse-all-then-chunk and a single
  // call on all events agree on every outcome.
  lemma FileReplaysAgree(l: Ledger, parse: Parser, base: State, lines: seq<Line>)
    requires AllTrimmed(lines)
    ensures FromFile(l, parse, base, lines, true) == FromFile(l, parse, base, lines, false)
    ensures var es := Parsed(parse, lines, false);
      es.Some? && es.value != [] ==> FromFile(l, parse, base, lines, false) == ReplayEvents(l, base, es.value)
    ensures Parsed(parse, lines, false).None? ==> FromFile(l, parse, base, lines, false).None?
  {
    ParsersAgree(parse, lines);
  }

  lemma TrimOfEmpty()
    ensures Trim("") == ""
  {
  }

  lemma {:induction false} UntrimmedIsRefused(parse: Parser, lines: seq<Line>, i: nat)
    requires RefusesSpaces(parse) && i < |lines| && lines[i].Text? && Trim(lines[i].s) != lines[i].s
    ensures Parsed(parse, lines, false) == None
  {
    if i == 0 {
      TrimOfEmpty();
    } else {
      assert lines[1..][i - 1] == lines[i];
      UntrimmedIsRefused(parse, lines[1..], i - 1);
    }
  }

  // The two readers agree on a file exactly when no line has white space around it, or the
  // trimming reader fails as well.
  lemma FileReadersAgreeIff(l: Ledger, parse: Parser, base: State, lines: seq<Line>)
    requires RefusesSpaces(parse)
    ensures FromFile(l, parse, base, lines, true) == FromFile(l, parse, base, lines, false)
       <==> AllTrimmed(lines) || FromFile(l, parse, base, lines, true).None?
  {
    if AllTrimmed(lines) {
      ParsersAgree(parse, lines);
    } else {
      var i :| 0 <= i < |lines| && lines[i].Text? && Trim(lines[i].s) != lines[i].s;
      UntrimmedIsRefused(parse, lines, i);
    }
  }

  // With white space they differ: a blank line is skipped by one reader and refused by the
  // other, which hands it to a decoder that knows no blanks.
  lemma BlankLineTellsThemApart(l: Ledger, parse: Parser, base: State)
    requires parse(" ") == None
    ensures FromFile(l, parse, base, [Text(" ")], true) == Some(base)
    ensures FromFile(l, parse, base, [Text(" ")], false) == None
  {
    OneLine(parse, Text(" "), true);
    OneLine(parse, Text(" "), false);
    assert " "[1..] == "";
    assert TrimStart(" ") == TrimStart(" "[1..]);
    assert Trim(" ") == [];
  }
}
