/**
  Decoding of a JSON or event-stream answer. Text is a sequence of characters: bytes have been decoded
  and a byte order mark removed. `breaks` is the set of characters at which lines end, so that the line
  splitting of the code can be compared with that of section 9.2.6 of the WHATWG HTML Standard.
 */
module AgentRuntimeAcceptance {
  import opened Wrappers

  // ---------------------------------------------------------------- lines

  /** Where `str.splitlines` ends a line. */
  const PYTHON_BREAKS: set<char> :=
    {'\n', '\r', '\U{0B}', '\U{0C}', '\U{1C}', '\U{1D}', '\U{1E}', '\U{85}', '\U{2028}', '\U{2029}'}

  /** Where the standard ends a line. */
  const STANDARD_BREAKS: set<char> := {'\n', '\r'}

  /** What `str.splitlines` adds. */
  const FURTHER_BREAKS: set<char> :=
    {'\U{0B}', '\U{0C}', '\U{1C}', '\U{1D}', '\U{1E}', '\U{85}', '\U{2028}', '\U{2029}'}

  /** The length of the longest prefix without any of the characters. */
  function Until(s: string, stops: set<char>): (n: nat)
    ensures n <= |s| && (forall i :: 0 <= i < n ==> s[i] !in stops) && (n < |s| ==> s[n] in stops)
  {
    if s == "" || s[0] in stops then 0 else 1 + Until(s[1..], stops)
  }

  /** The lines of a text; a final line end starts no further line, and "\r\n" is one line end. */
  function Lines(s: string, breaks: set<char>): seq<string>
    decreases |s|
  {
    if s == "" then []
    else
      var n := Until(s, breaks);
      if n == |s| then [s]
      else if s[n] == '\r' && n + 1 < |s| && s[n + 1] == '\n' then [s[..n]] + Lines(s[n + 2..], breaks)
      else [s[..n]] + Lines(s[n + 1..], breaks)
  }

  function Unlines(lines: seq<string>, eol: string): string {
    if lines == [] then "" else lines[0] + eol + Unlines(lines[1..], eol)
  }

  predicate IsLineEnd(eol: string) {
    eol == "\n" || eol == "\r" || eol == "\r\n"
  }

  /** The text holds none of the characters. */
  predicate Free(s: string, stops: set<char>) {
    forall i :: 0 <= i < |s| ==> s[i] !in stops
  }

  predicate AllFree(lines: seq<string>, stops: set<char>) {
    forall l :: l in lines ==> Free(l, stops)
  }

  lemma {:induction false} UntilStop(s: string, rest: string, stops: set<char>)
    requires Free(s, stops) && rest != "" && rest[0] in stops
    ensures Until(s + rest, stops) == |s|
  {
    assert forall i :: 0 <= i < |s| ==> (s + rest)[i] == s[i];
    assert (s + rest)[|s|] == rest[0];
  }

  /** The first line of a text ends at its first line end. */
  lemma FirstLine(line: string, eol: string, rest: string, breaks: set<char>)
    requires Free(line, breaks) && IsLineEnd(eol) && '\n' in breaks && '\r' in breaks
    requires KeepsApart(eol, rest)
    ensures Lines(line + eol + rest, breaks) == [line] + Lines(rest, breaks)
  {
    var s, n := line + eol + rest, |line|;
    assert s == line + (eol + rest);
    UntilStop(line, eol + rest, breaks);
    assert s[..n] == line;
    if |eol| == 2 {
      assert s[n] == '\r' && s[n + 1] == '\n';
      assert s[n + 2..] == rest;
    } else {
      assert s[n] == eol[0];
      assert rest != "" ==> s[n + 1] == rest[0];
      assert s[n + 1..] == rest;
    }
  }

  /** A carriage return on its own is not taken for half of a longer line end. */
  predicate KeepsApart(eol: string, rest: string) {
    eol == "\r" && rest != "" ==> rest[0] != '\n'
  }

  lemma LinesKeepApart(lines: seq<string>, eol: string, breaks: set<char>)
    requires AllFree(lines, breaks) && '\n' in breaks
    ensures KeepsApart(eol, Unlines(lines, eol))
  {
    if lines != [] && lines[0] != "" {
      assert Free(lines[0], breaks);
    }
  }

  lemma {:induction false} LinesReadBack(lines: seq<string>, eol: string, breaks: set<char>)
    requires AllFree(lines, breaks) && IsLineEnd(eol) && '\n' in breaks && '\r' in breaks
    ensures Lines(Unlines(lines, eol), breaks) == lines
  {
    if lines != [] {
      var first, later := lines[0], lines[1..];
      var rest := Unlines(later, eol);
      LinesReadBack(later, eol, breaks);
      LinesKeepApart(later, eol, breaks);
      FirstLine(first, eol, rest, breaks);
      assert lines == [first] + later;
    }
  }

  lemma OneMoreLine(first: string, later: seq<string>, breaks: set<char>)
    requires Free(first, breaks) && AllFree(later, breaks)
    ensures AllFree([first] + later, breaks)
  {
  }

  lemma {:induction false} LinesAreFree(s: string, breaks: set<char>)
    ensures AllFree(Lines(s, breaks), breaks)
    decreases |s|
  {
    if s != "" {
      var n := Until(s, breaks);
      if n < |s| {
        var next := if s[n] == '\r' && n + 1 < |s| && s[n + 1] == '\n' then n + 2 else n + 1;
        LinesAreFree(s[next..], breaks);
        OneMoreLine(s[..n], Lines(s[next..], breaks), breaks);
      }
    }
  }

  // ---------------------------------------------------------------- payloads

  /** The value of a `data` line; comments and lines of other fields have none. */
  function DataOf(line: string): Option<string> {
    if line == "" || line[0] == ':' then None
    else
      var n := Until(line, {':'});
      if line[..n] != "data" then None
      else if n == |line| then Some("")
      else if n + 1 < |line| && line[n + 1] == ' ' then Some(line[n + 2..])
      else Some(line[n + 1..])
  }

  function Join(parts: seq<string>): string {
    if parts == [] then ""
    else if |parts| == 1 then parts[0]
    else parts[0] + "\n" + Join(parts[1..])
  }

  /** The payloads of a stream, read with some data lines pending; none if it ends inside an event. */
  function Payloads(lines: seq<string>, pending: seq<string>): Option<seq<string>> {
    if lines == [] then if pending == [] then Some([]) else None
    else if lines[0] == "" then
      if pending == [] then Payloads(lines[1..], [])
      else match Payloads(lines[1..], [])
           case None => None
           case Some(later) => Some([Join(pending)] + later)
    else match DataOf(lines[0])
         case None => Payloads(lines[1..], pending)
         case Some(value) => Payloads(lines[1..], pending + [value])
  }

  /** The values of the data lines of one event. */
  function DataLines(event: seq<string>): seq<string> {
    if event == [] then []
    else (match DataOf(event[0]) case None => [] case Some(value) => [value]) + DataLines(event[1..])
  }

  /** What a stream of events carries: one payload for each event that has a data line. */
  function Carried(events: seq<seq<string>>): seq<string> {
    if events == [] then []
    else (if DataLines(events[0]) == [] then [] else [Join(DataLines(events[0]))]) + Carried(events[1..])
  }

  /** The lines of a stream: each event is ended by a blank line. */
  function Stream(events: seq<seq<string>>): seq<string> {
    if events == [] then [] else events[0] + [""] + Stream(events[1..])
  }

  predicate IsEvent(event: seq<string>, breaks: set<char>) {
    AllFree(event, breaks) && "" !in event
  }

  lemma {:induction false} OneEvent(event: seq<string>, rest: seq<string>, pending: seq<string>)
    requires "" !in event
    ensures Payloads(event + [""] + rest, pending) == Payloads([""] + rest, pending + DataLines(event))
  {
    var lines := event + [""] + rest;
    if event == [] {
      assert lines == [""] + rest && pending + [] == pending;
    } else {
      assert event[0] in event && lines[0] == event[0];
      assert lines[1..] == event[1..] + [""] + rest;
      match DataOf(event[0])
      case None =>
        OneEvent(event[1..], rest, pending);
        assert [] + DataLines(event[1..]) == DataLines(event[1..]);
      case Some(value) =>
        OneEvent(event[1..], rest, pending + [value]);
        assert pending + [value] + DataLines(event[1..]) == pending + ([value] + DataLines(event[1..]));
    }
  }

  /** Lines after the last blank one: an event that is not ended is refused if it has data. */
  lemma {:induction false} LastLines(last: seq<string>, pending: seq<string>)
    requires "" !in last
    ensures Payloads(last, pending) == if pending == [] && DataLines(last) == [] then Some([]) else None
  {
    if last != [] {
      assert last[0] in last;
      match DataOf(last[0])
      case None =>
        LastLines(last[1..], pending);
        assert [] + DataLines(last[1..]) == DataLines(last[1..]);
      case Some(value) =>
        LastLines(last[1..], pending + [value]);
    }
  }

  lemma {:induction false} StreamCarries(events: seq<seq<string>>, last: seq<string>)
    requires "" !in last && forall e :: e in events ==> "" !in e
    ensures Payloads(Stream(events) + last, []) == if DataLines(last) == [] then Some(Carried(events)) else None
  {
    if events == [] {
      assert Stream(events) + last == last;
      LastLines(last, []);
    } else {
      var rest := Stream(events[1..]) + last;
      StreamCarries(events[1..], last);
      assert Stream(events) + last == events[0] + [""] + rest;
      OneEvent(events[0], rest, []);
      assert [] + DataLines(events[0]) == DataLines(events[0]);
      assert ([""] + rest)[1..] == rest;
      assert [] + Carried(events[1..]) == Carried(events[1..]);
    }
  }

  lemma {:induction false} StreamIsFree(events: seq<seq<string>>, breaks: set<char>)
    requires forall e :: e in events ==> AllFree(e, breaks)
    ensures AllFree(Stream(events), breaks)
  {
    if events != [] {
      StreamIsFree(events[1..], breaks);
      assert AllFree(events[0], breaks);
    }
  }

  /** The payloads of a text. */
  function Decode(text: string, breaks: set<char>): Option<seq<string>> {
    Payloads(Lines(text, breaks), [])
  }

  lemma RawStreamReadsBack(events: seq<seq<string>>, last: seq<string>, eol: string, breaks: set<char>)
    requires IsLineEnd(eol) && STANDARD_BREAKS <= breaks
    requires IsEvent(last, breaks) && forall e :: e in events ==> IsEvent(e, breaks)
    ensures Decode(Unlines(Stream(events) + last, eol), breaks)
         == if DataLines(last) == [] then Some(Carried(events)) else None
  {
    StreamIsFree(events, breaks);
    LinesReadBack(Stream(events) + last, eol, breaks);
    StreamCarries(events, last);
  }

  // ---------------------------------------------------------------- streams line by line

  /** A line that is not blank: a comment, a field with what follows its colon, or a name without a colon. */
  datatype Line = Comment(text: string) | Field(name: string, rest: string) | Bare(name: string)

  predicate IsLine(line: Line) {
    match line
    case Comment(_) => true
    case Field(name, _) => Free(name, {':'})
    case Bare(name) => name != "" && Free(name, {':'})
  }

  function TextOf(line: Line): string {
    match line
    case Comment(text) => ":" + text
    case Field(name, rest) => name + ":" + rest
    case Bare(name) => name
  }

  /** A `data` field has a value, less one leading space; no other line has one. */
  function ValueOf(line: Line): Option<string> {
    match line
    case Comment(_) => None
    case Field(name, rest) => if name == "data" then Some(if " " <= rest then rest[1..] else rest) else None
    case Bare(name) => if name == "data" then Some("") else None
  }

  lemma DataOfText(line: Line)
    requires IsLine(line)
    ensures DataOf(TextOf(line)) == ValueOf(line)
  {
    var text := TextOf(line);
    match line
    case Comment(_) =>
    case Field(name, rest) =>
      assert text == name + (":" + rest);
      UntilStop(name, ":" + rest, {':'});
      assert text[..|name|] == name && text[|name| + 1..] == rest;
      assert " " <= rest ==> text[|name| + 2..] == rest[1..];
      assert rest != "" ==> text[|name| + 1] == rest[0];
    case Bare(name) => assert Until(name, {':'}) == |name| && name[..|name|] == name;
  }

  /** There is no other kind of line. */
  lemma EveryLine(text: string) returns (line: Line)
    requires text != ""
    ensures IsLine(line) && TextOf(line) == text
  {
    var n := Until(text, {':'});
    if text[0] == ':' {
      line := Comment(text[1..]);
    } else if n == |text| {
      line := Bare(text);
    } else {
      line := Field(text[..n], text[n + 1..]);
      assert text == text[..n] + ":" + text[n + 1..];
    }
  }

  function Texts(event: seq<Line>): seq<string> {
    if event == [] then [] else [TextOf(event[0])] + Texts(event[1..])
  }

  function AllTexts(events: seq<seq<Line>>): seq<seq<string>> {
    if events == [] then [] else [Texts(events[0])] + AllTexts(events[1..])
  }

  function Values(event: seq<Line>): seq<string> {
    if event == [] then []
    else (match ValueOf(event[0]) case None => [] case Some(value) => [value]) + Values(event[1..])
  }

  /** One payload for each event with a value: its values, joined by newlines. */
  function Sent(events: seq<seq<Line>>): seq<string> {
    if events == [] then []
    else (if Values(events[0]) == [] then [] else [Join(Values(events[0]))]) + Sent(events[1..])
  }

  predicate Printable(event: seq<Line>, breaks: set<char>) {
    forall k :: 0 <= k < |event| ==> IsLine(event[k]) && Free(TextOf(event[k]), breaks)
  }

  lemma {:induction false} TextsCarry(event: seq<Line>, breaks: set<char>)
    requires Printable(event, breaks)
    ensures IsEvent(Texts(event), breaks) && DataLines(Texts(event)) == Values(event)
  {
    if event != [] {
      TextsCarry(event[1..], breaks);
      DataOfText(event[0]);
      assert Texts(event)[1..] == Texts(event[1..]);
    }
  }

  lemma {:induction false} AllTextsCarry(events: seq<seq<Line>>, breaks: set<char>)
    requires forall k :: 0 <= k < |events| ==> Printable(events[k], breaks)
    ensures Carried(AllTexts(events)) == Sent(events)
    ensures forall e :: e in AllTexts(events) ==> IsEvent(e, breaks)
  {
    if events != [] {
      AllTextsCarry(events[1..], breaks);
      TextsCarry(events[0], breaks);
      assert AllTexts(events)[1..] == AllTexts(events[1..]);
    }
  }

  /**
    Every stream of comments and fields, with whichever line end: the payloads come back in order, each the values of
    the `data` fields of one event. Lines after the last event count for nothing unless they hold data, which is
    refused.
   */
  lemma StreamReadsBack(events: seq<seq<Line>>, last: seq<Line>, eol: string, breaks: set<char>)
    requires IsLineEnd(eol) && STANDARD_BREAKS <= breaks
    requires Printable(last, breaks) && forall k :: 0 <= k < |events| ==> Printable(events[k], breaks)
    ensures Decode(Unlines(Stream(AllTexts(events)) + Texts(last), eol), breaks)
         == if Values(last) == [] then Some(Sent(events)) else None
  {
    AllTextsCarry(events, breaks);
    TextsCarry(last, breaks);
    RawStreamReadsBack(AllTexts(events), Texts(last), eol, breaks);
  }

  // ---------------------------------------------------------------- the sender

  /** A payload cut at its newlines, as a sender has to print it. */
  function Cut(s: string): (parts: seq<string>)
    ensures |parts| > 0
    decreases |s|
  {
    var n := Until(s, {'\n'});
    if n == |s| then [s] else [s[..n]] + Cut(s[n + 1..])
  }

  function Print(parts: seq<string>): seq<string> {
    if parts == [] then [] else ["data: " + parts[0]] + Print(parts[1..])
  }

  function Events(payloads: seq<string>): seq<seq<string>> {
    if payloads == [] then [] else [Print(Cut(payloads[0]))] + Events(payloads[1..])
  }

  /** What a sender puts on the wire: one data line for each line of a payload, and a blank line. */
  function Written(payloads: seq<string>, eol: string): string {
    Unlines(Stream(Events(payloads)), eol)
  }

  lemma JoinNext(first: string, rest: seq<string>)
    requires rest != []
    ensures Join([first] + rest) == first + "\n" + Join(rest)
  {
    assert ([first] + rest)[1..] == rest;
  }

  /** A text around one of its newlines. */
  lemma AroundNewline(s: string, n: nat)
    requires n < |s| && s[n] == '\n'
    ensures s[..n] + "\n" + s[n + 1..] == s
  {
  }

  lemma {:induction false} JoinUndoesCut(s: string)
    ensures Join(Cut(s)) == s
    decreases |s|
  {
    var n := Until(s, {'\n'});
    if n < |s| {
      var rest := s[n + 1..];
      JoinUndoesCut(rest);
      JoinNext(s[..n], Cut(rest));
      AroundNewline(s, n);
    }
  }

  lemma DataLineReadsBack(value: string)
    ensures DataOf("data: " + value) == Some(value)
  {
    var line := "data: " + value;
    assert line == "data" + (": " + value);
    UntilStop("data", ": " + value, {':'});
    assert line[..4] == "data" && line[6..] == value;
  }

  lemma {:induction false} PrintReadsBack(parts: seq<string>)
    ensures DataLines(Print(parts)) == parts && "" !in Print(parts)
  {
    if parts != [] {
      PrintReadsBack(parts[1..]);
      DataLineReadsBack(parts[0]);
      assert Print(parts)[1..] == Print(parts[1..]);
    }
  }

  lemma {:induction false} EventsCarry(payloads: seq<string>)
    ensures Carried(Events(payloads)) == payloads && forall e :: e in Events(payloads) ==> "" !in e
  {
    if payloads != [] {
      EventsCarry(payloads[1..]);
      PrintReadsBack(Cut(payloads[0]));
      JoinUndoesCut(payloads[0]);
      assert Events(payloads)[1..] == Events(payloads[1..]);
    }
  }

  /** A payload without a line boundary other than the newlines at which it is cut. */
  predicate Clean(payload: string, breaks: set<char>) {
    Free(payload, breaks - {'\n'})
  }

  predicate AllClean(payloads: seq<string>, breaks: set<char>) {
    forall p :: p in payloads ==> Clean(p, breaks)
  }

  lemma {:induction false} PartsAreFree(s: string, breaks: set<char>)
    requires Clean(s, breaks)
    ensures AllFree(Cut(s), breaks)
    decreases |s|
  {
    var n := Until(s, {'\n'});
    if n < |s| {
      PartsAreFree(s[n + 1..], breaks);
    }
  }

  /** None of the characters of the field name is a line boundary. */
  predicate Usual(breaks: set<char>) {
    STANDARD_BREAKS <= breaks && breaks !! {'d', 'a', 't', ':', ' '}
  }

  lemma {:induction false} PrintIsFree(parts: seq<string>, breaks: set<char>)
    requires Usual(breaks) && AllFree(parts, breaks)
    ensures AllFree(Print(parts), breaks)
  {
    if parts != [] {
      assert Free(parts[0], breaks);
      PrintIsFree(parts[1..], breaks);
    }
  }

  lemma {:induction false} EventsAreFree(payloads: seq<string>, breaks: set<char>)
    requires Usual(breaks) && AllClean(payloads, breaks)
    ensures forall e :: e in Events(payloads) ==> AllFree(e, breaks)
  {
    if payloads != [] {
      PartsAreFree(payloads[0], breaks);
      PrintIsFree(Cut(payloads[0]), breaks);
      EventsAreFree(payloads[1..], breaks);
    }
  }

  // What comes out of a decoder holds no line boundary but newlines.

  lemma {:induction false} JoinIsClean(parts: seq<string>, breaks: set<char>)
    requires AllFree(parts, breaks)
    ensures Clean(Join(parts), breaks)
  {
    if |parts| == 1 {
      assert Free(parts[0], breaks);
    } else if parts != [] {
      assert Free(parts[0], breaks);
      JoinIsClean(parts[1..], breaks);
    }
  }

  lemma {:induction false} DecodedIsClean(lines: seq<string>, pending: seq<string>, breaks: set<char>)
    requires AllFree(lines, breaks) && AllFree(pending, breaks)
    ensures var r := Payloads(lines, pending); r.Some? ==> AllClean(r.value, breaks)
  {
    if lines != [] {
      assert Free(lines[0], breaks);
      JoinIsClean(pending, breaks);
      DecodedIsClean(lines[1..], [], breaks);
      match DataOf(lines[0])
      case None => DecodedIsClean(lines[1..], pending, breaks);
      case Some(value) => DecodedIsClean(lines[1..], pending + [value], breaks);
    }
  }

  /** A sender's payloads come back exactly when none of them holds a line boundary other than a newline. */
  lemma WrittenReadsBack(payloads: seq<string>, eol: string, breaks: set<char>)
    requires IsLineEnd(eol) && Usual(breaks)
    ensures Decode(Written(payloads, eol), breaks) == Some(payloads) <==> AllClean(payloads, breaks)
  {
    var text := Written(payloads, eol);
    if AllClean(payloads, breaks) {
      EventsAreFree(payloads, breaks);
      EventsCarry(payloads);
      RawStreamReadsBack(Events(payloads), [], eol, breaks);
      assert Stream(Events(payloads)) + [] == Stream(Events(payloads));
    }
    LinesAreFree(text, breaks);
    DecodedIsClean(Lines(text, breaks), [], breaks);
  }

  /**
    Payloads without a carriage return always survive a decoder that follows the standard. They survive this
    one exactly when they hold none of the eight further characters at which `str.splitlines` ends a line.
    JSON text may hold three of them inside a string: U+0085, U+2028 and U+2029.
   */
  lemma AgainstTheStandard(payloads: seq<string>, eol: string)
    requires IsLineEnd(eol) && AllFree(payloads, {'\r'})
    ensures Decode(Written(payloads, eol), STANDARD_BREAKS) == Some(payloads)
    ensures Decode(Written(payloads, eol), PYTHON_BREAKS) == Some(payloads)
       <==> AllFree(payloads, FURTHER_BREAKS)
  {
    WrittenReadsBack(payloads, eol, STANDARD_BREAKS);
    WrittenReadsBack(payloads, eol, PYTHON_BREAKS);
    TheBreaks();
    WithoutReturns(payloads, STANDARD_BREAKS, {});
    WithoutReturns(payloads, PYTHON_BREAKS, FURTHER_BREAKS);
  }

  lemma TheBreaks()
    ensures STANDARD_BREAKS == {'\n', '\r'} + {} && PYTHON_BREAKS == {'\n', '\r'} + FURTHER_BREAKS
    ensures '\n' !in FURTHER_BREAKS
  {
  }

  /** Without carriage returns only the further characters can stand in the way. */
  lemma WithoutReturns(payloads: seq<string>, breaks: set<char>, further: set<char>)
    requires AllFree(payloads, {'\r'}) && breaks == {'\n', '\r'} + further && '\n' !in further
    ensures AllClean(payloads, breaks) <==> AllFree(payloads, further)
  {
    forall p | p in payloads ensures Clean(p, breaks) <==> Free(p, further) {
      assert Free(p, {'\r'});
    }
  }

  /** A payload with one of them is lost, wherever the character stands. */
  lemma FurtherBreakIsLost(before: string, c: char, after: string, eol: string)
    requires IsLineEnd(eol) && c in FURTHER_BREAKS
    ensures var payload := before + [c] + after; Decode(Written([payload], eol), PYTHON_BREAKS) != Some([payload])
  {
    var p := before + [c] + after;
    assert p[|before|] == c;
    WrittenReadsBack([p], eol, PYTHON_BREAKS);
    assert p in [p] && !Clean(p, PYTHON_BREAKS);
  }

  // ---------------------------------------------------------------- messages

  datatype Json =
    | Null
    | Bool(b: bool)
    | Int(i: int)
    | Float(r: real)
    | Str(s: string)
    | Arr(items: seq<Json>)
    | Obj(members: map<string, Json>)

  type Parser = string -> Option<Json>

  /** The message says that it follows JSON-RPC 2.0. */
  predicate IsRpc(m: Json) {
    m.Obj? && "jsonrpc" in m.members && m.members["jsonrpc"] == Str("2.0")
  }

  predicate IsNotification(m: Json) {
    IsRpc(m) && "id" !in m.members && "method" in m.members && m.members["method"].Str?
  }

  /** A terminal response to the request: its id, and a result or an error but not both. */
  predicate IsAnswer(m: Json, id: int) {
    IsRpc(m) && "id" in m.members && m.members["id"] == Int(id) && ("result" in m.members) != ("error" in m.members)
  }

  /** Among notifications, the one terminal response. */
  ghost predicate IsOnlyAnswer(messages: seq<Json>, id: int, m: Json) {
    exists k :: 0 <= k < |messages| && messages[k] == m && IsAnswer(m, id)
                && forall j :: 0 <= j < |messages| && j != k ==> IsNotification(messages[j])
  }

  /** The second half of `decode_rpc_response`: a value is returned for the one terminal response only. */
  method Answer(messages: seq<Json>, id: int) returns (r: Option<Json>)
    ensures forall m :: r == Some(m) <==> IsOnlyAnswer(messages, id, m)
  {
    var responses := [];
    ghost var at := [];
    for n := 0 to |messages|
      invariant |at| == |responses|
      invariant forall k :: 0 <= k < |at| ==>
                  0 <= at[k] < n && responses[k] == messages[at[k]] && IsAnswer(responses[k], id)
      invariant forall j, k :: 0 <= j < k < |at| ==> at[j] < at[k]
      invariant forall j :: 0 <= j < n && j !in at ==> IsNotification(messages[j])
    {
      var message := messages[n];
      if !message.Obj? || "jsonrpc" !in message.members || message.members["jsonrpc"] != Str("2.0") {
        return None;
      }
      if "id" !in message.members && "method" in message.members && message.members["method"].Str? {
        continue;
      }
      if "id" !in message.members || message.members["id"] != Int(id) {
        return None;
      }
      if ("result" in message.members) == ("error" in message.members) {
        return None;
      }
      responses := responses + [message];
      at := at + [n];
    }
    if |responses| != 1 {
      if |responses| > 1 {
        assert !IsNotification(messages[at[0]]) && !IsNotification(messages[at[1]]);
      }
      return None;
    }
    assert !IsNotification(messages[at[0]]);
    return Some(responses[0]);
  }

  function ParseAll(payloads: seq<string>, parse: Parser): Option<seq<Json>> {
    if payloads == [] then Some([])
    else match parse(payloads[0])
         case None => None
         case Some(first) =>
           match ParseAll(payloads[1..], parse)
           case None => None
           case Some(later) => Some([first] + later)
  }

  /** The messages of an event stream. */
  function Messages(text: string, parse: Parser): Option<seq<Json>> {
    match Decode(text, PYTHON_BREAKS)
    case None => None
    case Some(payloads) => ParseAll(payloads, parse)
  }

  /** What the rest of a stream adds to the messages so far. */
  function Onwards(messages: seq<Json>, lines: seq<string>, pending: seq<string>, parse: Parser): Option<seq<Json>> {
    match Payloads(lines, pending)
    case None => None
    case Some(payloads) =>
      match ParseAll(payloads, parse)
      case None => None
      case Some(later) => Some(messages + later)
  }

  /** The loop of `decode_rpc_response` over the lines of an event stream. */
  method ReadStream(text: string, parse: Parser) returns (r: Option<seq<Json>>)
    ensures r == Messages(text, parse)
  {
    var lines := Lines(text, PYTHON_BREAKS);
    var messages: seq<Json>, dataLines: seq<string> := [], [];
    assert lines[0..] == lines;
    NothingYet(lines, parse);
    for n := 0 to |lines|
      invariant Onwards(messages, lines[n..], dataLines, parse) == Messages(text, parse)
    {
      var line := lines[n];
      assert lines[n..][0] == line && lines[n..][1..] == lines[n + 1..];
      if line == "" {
        if dataLines != [] {
          var parsed := parse(Join(dataLines));
          if parsed.None? {
            return None;
          }
          EventAdds(messages, lines[n + 1..], dataLines, parsed.value, parse);
          messages := messages + [parsed.value];
          dataLines := [];
        }
        continue;
      }
      var value := DataOf(line);
      if value.Some? {
        dataLines := dataLines + [value.value];
      }
    }
    if dataLines != [] {
      return None;
    }
    assert messages + [] == messages;
    return Some(messages);
  }

  lemma NothingYet(lines: seq<string>, parse: Parser)
    ensures Onwards([], lines, [], parse)
         == match Payloads(lines, []) case None => None case Some(payloads) => ParseAll(payloads, parse)
  {
    match Payloads(lines, [])
    case None =>
    case Some(payloads) =>
      match ParseAll(payloads, parse)
      case None =>
      case Some(later) => assert [] + later == later;
  }

  lemma EventAdds(messages: seq<Json>, lines: seq<string>, pending: seq<string>, parsed: Json, parse: Parser)
    requires pending != [] && parse(Join(pending)) == Some(parsed)
    ensures Onwards(messages + [parsed], lines, [], parse) == Onwards(messages, [""] + lines, pending, parse)
  {
    assert ([""] + lines)[1..] == lines;
    match Payloads(lines, [])
    case None =>
    case Some(payloads) =>
      assert ([Join(pending)] + payloads)[1..] == payloads;
      match ParseAll(payloads, parse)
      case None =>
      case Some(later) => assert messages + ([parsed] + later) == messages + [parsed] + later;
  }

  datatype Media = JsonMedia | EventStream | OtherMedia

  const MAX_RESPONSE_BYTES := 131072

  /** The messages of a payload of either type. */
  function AllMessages(media: Media, body: Option<Json>, text: Option<string>, parse: Parser): Option<seq<Json>> {
    match media
    case JsonMedia => if body.Some? then Some([body.value]) else None
    case EventStream => if text.Some? then Messages(text.value, parse) else None
    case OtherMedia => None
  }

  /**
    `decode_rpc_response`. The size is that of the payload in bytes; `body` is the payload parsed as one JSON
    value and `text` the payload as text, where they exist. Every error of the code is the result None.
   */
  method DecodeRpcResponse(size: nat, media: Media, body: Option<Json>, text: Option<string>, parse: Parser, id: int)
    returns (r: Option<Json>)
    ensures forall m :: r == Some(m) <==>
                        && size <= MAX_RESPONSE_BYTES && AllMessages(media, body, text, parse).Some?
                        && IsOnlyAnswer(AllMessages(media, body, text, parse).value, id, m)
  {
    if size > MAX_RESPONSE_BYTES {
      return None;
    }
    var messages := [];
    match media {
      case JsonMedia =>
        if body.None? {
          return None;
        }
        messages := [body.value];
      case EventStream =>
        if text.None? {
          return None;
        }
        var read := ReadStream(text.value, parse);
        if read.None? {
          return None;
        }
        messages := read.value;
      case OtherMedia =>
        return None;
    }
    r := Answer(messages, id);
  }

  // ---------------------------------------------------------------- end to end

  function PrintAll(messages: seq<Json>, printer: Json -> string): seq<string> {
    if messages == [] then [] else [printer(messages[0])] + PrintAll(messages[1..], printer)
  }

  lemma {:induction false} ParseUndoesPrint(messages: seq<Json>, printer: Json -> string, parse: Parser)
    requires forall m :: m in messages ==> parse(printer(m)) == Some(m)
    ensures ParseAll(PrintAll(messages, printer), parse) == Some(messages)
  {
    if messages != [] {
      ParseUndoesPrint(messages[1..], printer, parse);
      assert PrintAll(messages, printer)[1..] == PrintAll(messages[1..], printer);
      assert messages[0] in messages && messages == [messages[0]] + messages[1..];
    }
  }

  lemma {:induction false} PrintedIsClean(messages: seq<Json>, printer: Json -> string)
    requires forall m :: m in messages ==> Clean(printer(m), PYTHON_BREAKS)
    ensures AllClean(PrintAll(messages, printer), PYTHON_BREAKS)
  {
    if messages != [] {
      PrintedIsClean(messages[1..], printer);
    }
  }

  /**
    For a JSON printer that its parser undoes and that leaves no such character in its output (one that
    escapes everything outside ASCII, for instance), the decoder sees exactly the messages that were sent.
   */
  lemma MessagesReadBack(messages: seq<Json>, eol: string, printer: Json -> string, parse: Parser)
    requires IsLineEnd(eol)
    requires forall m :: m in messages ==> parse(printer(m)) == Some(m) && Clean(printer(m), PYTHON_BREAKS)
    ensures Messages(Written(PrintAll(messages, printer), eol), parse) == Some(messages)
  {
    PrintedIsClean(messages, printer);
    WrittenReadsBack(PrintAll(messages, printer), eol, PYTHON_BREAKS);
    ParseUndoesPrint(messages, printer, parse);
  }
}
