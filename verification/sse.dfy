/**
  How a client reads an event stream: sections 9.2.5 and 9.2.6 of the HTML Living
  Standard.
  */
module EventStreamClient {
  import opened Wrappers
  import opened Decimals
  import opened TextLines

  datatype Message = Message(kind: string, data: string, lastId: string)

  /** The data, event type and last event ID buffers, the last event ID string, the
      reconnection time, and the events dispatched. */
  datatype Client = Client(data: string, kind: string, idBuffer: string, lastId: string, retry: Option<nat>, messages: seq<Message>)

  const START := Client("", "", "", "", None, [])

  predicate AllDigits(s: string) {
    s != "" && forall c :: c in s ==> IsDigit(c)
  }

  function ProcessField(c: Client, field: string, value: string): Client {
    if field == "event" then c.(kind := value)
    else if field == "data" then c.(data := c.data + value + "\n")
    else if field == "id" then (if '\0' in value then c else c.(idBuffer := value))
    else if field == "retry" then (if AllDigits(value) then c.(retry := Some(NumberOf(value))) else c)
    else c
  }

  function Dispatch(c: Client): Client {
    if c.data == "" then c.(lastId := c.idBuffer, kind := "")
    else
      var data := if c.data[|c.data| - 1] == '\n' then c.data[..|c.data| - 1] else c.data;
      var message := Message(if c.kind == "" then "message" else c.kind, data, c.idBuffer);
      c.(lastId := c.idBuffer, messages := c.messages + [message], data := "", kind := "")
  }

  /** The characters before the first colon. */
  function BeforeColon(line: string): (n: nat)
    ensures n <= |line|
  {
    if line == "" || line[0] == ':' then 0 else 1 + BeforeColon(line[1..])
  }

  function ProcessLine(c: Client, line: string): Client {
    if line == "" then Dispatch(c)
    else if line[0] == ':' then c
    else
      var n := BeforeColon(line);
      if n == |line| then ProcessField(c, line, "")
      else
        var value := line[n + 1..];
        ProcessField(c, line[..n], if value != "" && value[0] == ' ' then value[1..] else value)
  }

  predicate Breaks(c: char) {
    c == '\n' || c == '\r'
  }

  function BeforeBreak(s: string): (n: nat)
    ensures n <= |s|
  {
    if s == "" || Breaks(s[0]) then 0 else 1 + BeforeBreak(s[1..])
  }

  /** The client after the stream: CRLF, LF and CR all end a line, and what follows
      the last of them is discarded. */
  function Feed(c: Client, s: string): Client
    decreases |s|
  {
    var n := BeforeBreak(s);
    if n == |s| then c
    else
      var width := if s[n] == '\r' && n + 1 < |s| && s[n + 1] == '\n' then 2 else 1;
      Feed(ProcessLine(c, s[..n]), s[n + width..])
  }

  function Hear(c: Client, lines: seq<string>): Client
    decreases lines
  {
    if lines == [] then c else Hear(ProcessLine(c, lines[0]), lines[1..])
  }

  predicate OneLined(line: string) {
    forall c :: c in line ==> !Breaks(c)
  }

  lemma {:induction false} BeforeBreakOf(line: string, rest: string)
    requires OneLined(line)
    ensures BeforeBreak(line + "\n" + rest) == |line|
    decreases |line|
  {
    if line == "" {
      assert line + "\n" + rest == "\n" + rest;
    } else {
      assert (line + "\n" + rest)[1..] == line[1..] + "\n" + rest;
      BeforeBreakOf(line[1..], rest);
    }
  }

  lemma FeedLine(c: Client, line: string, rest: string)
    requires OneLined(line)
    ensures Feed(c, line + "\n" + rest) == Feed(ProcessLine(c, line), rest)
  {
    hide ProcessLine;
    BeforeBreakOf(line, rest);
    var s := line + "\n" + rest;
    assert s[..|line|] == line && s[|line| + 1..] == rest;
  }

  lemma {:induction false} FeedLines(c: Client, lines: seq<string>, rest: string)
    requires forall line :: line in lines ==> OneLined(line)
    ensures Feed(c, Rejoined(lines) + rest) == Feed(Hear(c, lines), rest)
    decreases lines
  {
    hide Feed, ProcessLine, OneLined;
    if lines == [] {
      assert "" + rest == rest;
    } else {
      var tail := Rejoined(lines[1..]);
      assert lines[0] + "\n" + tail + rest == lines[0] + "\n" + (tail + rest);
      FeedLine(c, lines[0], tail + rest);
      FeedLines(ProcessLine(c, lines[0]), lines[1..], rest);
    }
  }

  lemma {:induction false} HearAppend(c: Client, a: seq<string>, b: seq<string>)
    ensures Hear(c, a + b) == Hear(Hear(c, a), b)
    decreases a
  {
    hide ProcessLine;
    if a == [] {
      assert a + b == b;
    } else {
      assert (a + b)[1..] == a[1..] + b;
      HearAppend(ProcessLine(c, a[0]), a[1..], b);
    }
  }

  lemma {:induction false} BeforeColonOf(field: string, value: string)
    requires ':' !in field
    ensures BeforeColon(field + ": " + value) == |field|
    decreases |field|
  {
    if field == "" {
      assert field + ": " + value == ": " + value;
    } else {
      assert (field + ": " + value)[1..] == field[1..] + ": " + value;
      BeforeColonOf(field[1..], value);
    }
  }

  lemma FieldLine(c: Client, field: string, value: string)
    requires field != "" && ':' !in field
    ensures ProcessLine(c, field + ": " + value) == ProcessField(c, field, value)
  {
    hide ProcessField;
    BeforeColonOf(field, value);
    var line := field + ": " + value;
    assert line[..|field|] == field && line[|field| + 1..] == " " + value;
    assert (" " + value)[1..] == value;
  }
}

/** The encoder (sse.go). */
module EventStream {
  import opened Wrappers
  import opened Decimals
  import opened EventStreamClient
  import opened TextLines

  /** `retry` is in nanoseconds. */
  datatype Event = Event(id: string, name: string, data: string, retry: int)

  datatype Error = Closed | Empty | NoData | IdBreaks | NameBreaks | CommentBreaks | NegativeRetry | TinyRetry | NotWritten

  const MILLISECOND := 1_000_000

  /** The checks of Send, in order. */
  function Refused(e: Event): Option<Error> {
    if e.data == "" && e.id == "" && e.name == "" && e.retry == 0 then Some(Empty)
    else if e.data == "" && (e.id != "" || e.name != "") then Some(NoData)
    else if !OneLined(e.id) then Some(IdBreaks)
    else if !OneLined(e.name) then Some(NameBreaks)
    else if e.retry < 0 then Some(NegativeRetry)
    else if 0 < e.retry < MILLISECOND then Some(TinyRetry)
    else None
  }

  function ReplaceCr(s: string): (r: string)
    ensures '\r' !in r
  {
    if s == "" then "" else [if s[0] == '\r' then '\n' else s[0]] + ReplaceCr(s[1..])
  }

  function TrimNewline(s: string): string {
    if s != "" && s[|s| - 1] == '\n' then s[..|s| - 1] else s
  }

  /** The data as it is encoded: both replacements, less one trailing newline. */
  function Encoded(data: string): string {
    TrimNewline(ReplaceCr(ReplaceCrLf(data)))
  }

  function DataLines(lines: seq<string>): (data: seq<string>)
    ensures |data| == |lines|
  {
    seq(|lines|, i requires 0 <= i < |lines| => "data: " + lines[i])
  }

  function Optional(present: bool, line: string): seq<string> {
    if present then [line] else []
  }

  function FrameLines(e: Event): seq<string> {
    Optional(e.id != "", "id: " + e.id)
    + Optional(e.name != "", "event: " + e.name)
    + Optional(e.retry > 0, RetryText(e))
    + (if e.data != "" then DataLines(Lines(Encoded(e.data))) else [])
    + [""]
  }

  /** The retry field, in milliseconds. */
  function RetryText(e: Event): string {
    "retry: " + if e.retry > 0 then Decimal(e.retry / MILLISECOND) else ""
  }

  /** The data as a client is to receive it: each CRLF, CR and LF is one newline. */
  function Normalised(s: string): string {
    if s == "" then ""
    else if s[0] == '\r' then "\n" + Normalised(if |s| > 1 && s[1] == '\n' then s[2..] else s[1..])
    else [s[0]] + Normalised(s[1..])
  }

  lemma {:induction false} EncodedIsNormalised(s: string)
    ensures ReplaceCr(ReplaceCrLf(s)) == Normalised(s)
    decreases |s|
  {
    if s != "" {
      if |s| > 1 && s[0] == '\r' && s[1] == '\n' {
        EncodedIsNormalised(s[2..]);
        assert ("\n" + ReplaceCrLf(s[2..]))[1..] == ReplaceCrLf(s[2..]);
      } else {
        EncodedIsNormalised(s[1..]);
        assert ([s[0]] + ReplaceCrLf(s[1..]))[1..] == ReplaceCrLf(s[1..]);
      }
    }
  }

  // ----- the stream

  function Frame(e: Event): string {
    Rejoined(FrameLines(e))
  }

  function CommentFrame(text: string): string {
    Rejoined([": " + text, ""])
  }

  /** What the response makes of a write: written and flushed, an error, or a panic
      because the handler has returned. `taken` is how much of the frame the response
      took before that, which is all of it when flushing fails. */
  datatype Outcome = Written | Failed(taken: nat) | Panicked(taken: nat)

  function Taken(frame: string, outcome: Outcome): string {
    if outcome == Written || outcome.taken >= |frame| then frame else frame[..outcome.taken]
  }

  datatype Writing = Writing(closed: bool, response: string)

  /** The stream after a call: a closed one and a refused call write nothing, and a panic
      closes the stream. */
  function After(w: Writing, call: Call, outcome: Outcome): Writing {
    if w.closed || !Allowed(call) then w else Writing(outcome.Panicked?, w.response + Taken(FrameOf(call), outcome))
  }

  /** What is not refused. */
  predicate Allowed(call: Call) {
    match call
    case Send(e) => Refused(e).None?
    case Comment(text) => OneLined(text)
  }

  class Stream {
    var closed: bool
    var response: string

    constructor ()
      ensures !closed && response == ""
    {
      closed, response := false, "";
    }

    method Emit(frame: string, outcome: Outcome) returns (err: Option<Error>)
      modifies this
      ensures err.None? <==> outcome == Written
      ensures response == old(response) + Taken(frame, outcome)
      ensures closed == (old(closed) || outcome.Panicked?)
    {
      response := response + Taken(frame, outcome);
      match outcome
      case Written =>
        return None;
      case Failed(_) =>
        return Some(NotWritten);
      case Panicked(_) =>
        closed := true;
        return Some(NotWritten);
    }

    method Send(e: Event, outcome: Outcome) returns (err: Option<Error>)
      modifies this
      ensures old(closed) ==> err == Some(Closed)
      ensures !old(closed) && Refused(e).Some? ==> err == Refused(e)
      ensures !old(closed) && Refused(e).None? ==> (err.None? <==> outcome == Written)
      ensures Writing(closed, response) == After(Writing(old(closed), old(response)), Call.Send(e), outcome)
    {
      if closed {
        return Some(Closed);
      }
      if Refused(e).Some? {
        return Refused(e);
      }
      var frame := BuildFrame(e);
      err := Emit(frame, outcome);
    }

    method Comment(text: string, outcome: Outcome) returns (err: Option<Error>)
      modifies this
      ensures old(closed) ==> err == Some(Closed)
      ensures !old(closed) && !OneLined(text) ==> err == Some(CommentBreaks)
      ensures !old(closed) && OneLined(text) ==> (err.None? <==> outcome == Written)
      ensures Writing(closed, response) == After(Writing(old(closed), old(response)), Call.Comment(text), outcome)
    {
      if closed {
        return Some(Closed);
      }
      if !OneLined(text) {
        return Some(CommentBreaks);
      }
      RejoinedCons(": " + text, [""]);
      RejoinedCons("", []);
      err := Emit(": " + text + "\n\n", outcome);
      assert ": " + text + "\n" + "\n" == ": " + text + "\n\n";
    }

    method Close()
      modifies this
      ensures closed && response == old(response)
    {
      closed := true;
    }
  }

  lemma {:induction false} RejoinedAppend(a: seq<string>, b: seq<string>)
    ensures Rejoined(a + b) == Rejoined(a) + Rejoined(b)
    decreases a
  {
    if a == [] {
      assert a + b == b;
    } else {
      assert (a + b)[1..] == a[1..] + b;
      RejoinedAppend(a[1..], b);
    }
  }

  lemma RejoinedOneMore(lines: seq<string>, line: string)
    ensures Rejoined(lines + [line]) == Rejoined(lines) + line + "\n"
  {
    RejoinedAppend(lines, [line]);
    RejoinedCons(line, []);
    assert [line] + [] == [line];
    assert Rejoined(lines) + (line + "\n" + "") == Rejoined(lines) + line + "\n";
  }

  /** The frame, built piece by piece. */
  method BuildFrame(e: Event) returns (frame: string)
    requires Refused(e).None?
    ensures frame == Frame(e)
  {
    hide Rejoined, Encoded, DataLines, Decimal, Optional;
    frame := EmptyFrame();
    ghost var lines: seq<string> := [];
    frame, lines := AppendLine(frame, lines, e.id != "", "id: " + e.id);
    assert lines == Optional(e.id != "", "id: " + e.id);
    frame, lines := AppendLine(frame, lines, e.name != "", "event: " + e.name);
    frame, lines := AppendLine(frame, lines, e.retry > 0, RetryText(e));
    if e.data != "" {
      frame, lines := BuildData(frame, lines, Lines(Encoded(e.data)));
    } else {
      assert lines + [] == lines;
    }
    RejoinedOneMore(lines, "");
    assert frame + "\n" == frame + "" + "\n";
    frame := frame + "\n";
  }

  method EmptyFrame() returns (frame: string)
    ensures frame == Rejoined([])
  {
    return "";
  }

  method AppendLine(start: string, ghost before: seq<string>, present: bool, line: string)
    returns (frame: string, ghost lines: seq<string>)
    requires start == Rejoined(before)
    ensures lines == before + Optional(present, line) && frame == Rejoined(lines)
  {
    hide Rejoined;
    frame, lines := start, before + Optional(present, line);
    if present {
      RejoinedOneMore(before, line);
      frame := frame + line + "\n";
    } else {
      assert before + [] == before;
    }
  }

  method BuildData(start: string, ghost before: seq<string>, data: seq<string>)
    returns (frame: string, ghost lines: seq<string>)
    requires start == Rejoined(before)
    ensures lines == before + DataLines(data) && frame == Rejoined(lines)
  {
    hide Rejoined;
    frame, lines := start, before;
    var i := 0;
    while i < |data|
      invariant 0 <= i <= |data| && lines == before + DataLines(data)[..i] && frame == Rejoined(lines)
    {
      OneMoreLine(before, DataLines(data), i);
      RejoinedOneMore(lines, "data: " + data[i]);
      frame := frame + ("data: " + data[i]) + "\n";
      lines := lines + ["data: " + data[i]];
      i := i + 1;
    }
    assert DataLines(data)[..|data|] == DataLines(data);
  }

  lemma OneMoreLine(before: seq<string>, lines: seq<string>, i: nat)
    requires i < |lines|
    ensures before + lines[..i + 1] == before + lines[..i] + [lines[i]]
  {
  }

  // ----- the round trip

  /** A client between two events. */
  predicate Settled(c: Client) {
    c.data == "" && c.kind == "" && c.lastId == c.idBuffer
  }

  /** What a settled client is to have after an accepted event: a message exactly if
      the event carries data. */
  function Heard(c: Client, e: Event): Client {
    HeardUnder(c, e, if e.id != "" then e.id else c.lastId)
  }

  /** Data whose last newline, if it ends in one, is not part of it. */
  function Text(data: string): (text: string)
    ensures data == text || data == text + "\n"
    ensures data == text <==> data == "" || data[|data| - 1] != '\n'
  {
    if data != "" && data[|data| - 1] == '\n' then data[..|data| - 1] else data
  }

  function HeardUnder(c: Client, e: Event, id: string): Client {
    var message := Message(if e.name == "" then "message" else e.name, Text(Normalised(e.data)), id);
    Client("", "", id, id,
           if e.retry > 0 then Some(e.retry / 1_000_000) else c.retry,
           if e.data != "" then c.messages + [message] else c.messages)
  }

  lemma {:induction false} HearData(c: Client, lines: seq<string>)
    ensures Hear(c, DataLines(lines)) == c.(data := c.data + Rejoined(lines))
    decreases lines
  {
    hide ProcessLine;
    if lines == [] {
      assert c.data + "" == c.data;
    } else {
      assert DataLines(lines)[1..] == DataLines(lines[1..]);
      DataLine(c, lines[0]);
      var c' := c.(data := c.data + lines[0] + "\n");
      HearData(c', lines[1..]);
      assert c.data + lines[0] + "\n" + Rejoined(lines[1..]) == c.data + Rejoined(lines);
    }
  }

  lemma DataLine(c: Client, line: string)
    ensures ProcessLine(c, "data: " + line) == c.(data := c.data + line + "\n")
  {
    hide ProcessLine;
    assert "data: " + line == "data" + ": " + line;
    FieldLine(c, "data", line);
  }

  lemma HeaderLines(c: Client, e: Event)
    requires Refused(e).None?
    ensures e.id != "" ==> ProcessLine(c, "id: " + e.id) == if '\0' in e.id then c else c.(idBuffer := e.id)
    ensures e.name != "" ==> ProcessLine(c, "event: " + e.name) == c.(kind := e.name)
  {
    hide ProcessLine;
    assert "id: " + e.id == "id" + ": " + e.id && "event: " + e.name == "event" + ": " + e.name;
    FieldLine(c, "id", e.id);
    FieldLine(c, "event", e.name);
  }

  lemma RetryLine(c: Client, ms: nat)
    ensures ProcessLine(c, "retry: " + Decimal(ms)) == c.(retry := Some(ms))
  {
    hide ProcessLine, Decimal, NumberOf;
    assert "retry: " + Decimal(ms) == "retry" + ": " + Decimal(ms);
    FieldLine(c, "retry", Decimal(ms));
    NumberOfDecimal(ms);
  }

  lemma HearOptional(c: Client, present: bool, line: string)
    ensures Hear(c, Optional(present, line)) == if present then ProcessLine(c, line) else c
  {
    hide ProcessLine;
    assert [line][1..] == [];
  }

  /** The lines before the data, as a client takes them. */
  lemma HearHeaders(c: Client, e: Event)
    requires Refused(e).None?
    ensures Hear(c, Optional(e.id != "", "id: " + e.id) + Optional(e.name != "", "event: " + e.name)
                    + Optional(e.retry > 0, RetryText(e)))
         == c.(idBuffer := if e.id != "" && '\0' !in e.id then e.id else c.idBuffer,
               kind := if e.name != "" then e.name else c.kind,
               retry := if e.retry > 0 then Some(e.retry / MILLISECOND) else c.retry)
  {
    hide ProcessLine, Hear, Decimal, Optional;
    var id, name := Optional(e.id != "", "id: " + e.id), Optional(e.name != "", "event: " + e.name);
    HeaderLines(c, e);
    HearOptional(c, e.id != "", "id: " + e.id);
    var c1 := c.(idBuffer := if e.id != "" && '\0' !in e.id then e.id else c.idBuffer);
    HeaderLines(c1, e);
    HearOptional(c1, e.name != "", "event: " + e.name);
    var c2 := c1.(kind := if e.name != "" then e.name else c.kind);
    HearOptional(c2, e.retry > 0, RetryText(e));
    if e.retry > 0 {
      RetryLine(c2, e.retry / MILLISECOND);
    }
    HearAppend(c, id, name);
    HearAppend(c, id + name, Optional(e.retry > 0, RetryText(e)));
  }

  lemma HearBlank(c: Client)
    ensures Hear(c, [""]) == Dispatch(c)
  {
    assert [""][1..] == [];
  }

  lemma EventIsHeard(c: Client, e: Event)
    requires Settled(c) && Refused(e).None?
    ensures Hear(c, FrameLines(e)) == HeardUnder(c, e, if e.id != "" && '\0' !in e.id then e.id else c.lastId)
  {
    hide ProcessLine, Hear, Optional, RetryText, DataLines, Lines, Encoded, Refused;
    var headers := Optional(e.id != "", "id: " + e.id) + Optional(e.name != "", "event: " + e.name)
                   + Optional(e.retry > 0, RetryText(e));
    var data := if e.data != "" then DataLines(Lines(Encoded(e.data))) else [];
    HearAppend(c, headers + data, [""]);
    HearAppend(c, headers, data);
    HearHeaders(c, e);
    var c1 := Hear(c, headers);
    HearBlank(Hear(c1, data));
    if e.data != "" {
      HearData(c1, Lines(Encoded(e.data)));
      RejoinedLines(Encoded(e.data));
      EncodedData(e.data);
      hide Text, Normalised;
      assert "" + (Encoded(e.data) + "\n") == Encoded(e.data) + "\n";
      DispatchData(c1.(data := Encoded(e.data) + "\n"), Encoded(e.data));
    } else {
      HearNothing(c1);
    }
  }

  /** A client ignores an id with a NUL in it, which Send accepts. So an event is
      heard as it was sent exactly when its id has none, or is the last id anyway. */
  lemma HeardAsSentExactly(c: Client, e: Event)
    requires Settled(c) && Refused(e).None?
    ensures Hear(c, FrameLines(e)) == Heard(c, e) <==> '\0' !in e.id || e.id == c.lastId
  {
    hide Hear, FrameLines, Refused;
    EventIsHeard(c, e);
  }

  lemma HearNothing(c: Client)
    ensures Hear(c, []) == c
  {
  }

  lemma EncodedData(data: string)
    ensures Encoded(data) == Text(Normalised(data))
  {
    EncodedIsNormalised(data);
  }

  lemma DispatchData(c: Client, data: string)
    requires c.data == data + "\n"
    ensures Dispatch(c) ==
            c.(lastId := c.idBuffer, data := "", kind := "",
               messages := c.messages + [Message(if c.kind == "" then "message" else c.kind, data, c.idBuffer)])
  {
    assert (data + "\n")[..|data|] == data;
  }

  lemma CommentIsIgnored(c: Client, text: string)
    requires Settled(c)
    ensures Hear(c, [": " + text, ""]) == c
  {
    hide ProcessField;
    assert [": " + text, ""][1..] == [""];
    HearBlank(c);
  }

  /** The lines of a frame hold no line terminator of their own. */
  lemma FrameIsLined(e: Event)
    requires Refused(e).None?
    ensures forall line :: line in FrameLines(e) ==> OneLined(line)
  {
    hide Lines, Decimal, Encoded, OneLined;
    HeadersAreLined(e);
    EncodedHasNoCr(e.data);
    LinesAreLined(Encoded(e.data));
    forall line | line in Lines(Encoded(e.data)) ensures OneLined("data: " + line) {
      PrefixIsLined("data: ", line);
    }
  }

  /** Send refuses exactly what it must: an event with nothing to dispatch that is not
      just a reconnection time, a time that is no whole millisecond or more, and text that
      would put a line terminator into a line of the frame. */
  lemma AcceptedExactly(e: Event)
    ensures Refused(e).None? <==>
            && (e.data != "" || (e.id == "" && e.name == "" && e.retry != 0))
            && (e.retry == 0 || e.retry >= 1_000_000)
            && forall line :: line in FrameLines(e) ==> OneLined(line)
  {
    if Refused(e).None? {
      FrameIsLined(e);
    }
    if e.id != "" && (forall line :: line in FrameLines(e) ==> OneLined(line)) {
      assert "id: " + e.id in FrameLines(e);
      LinedSuffix("id: ", e.id);
    }
    if e.name != "" && (forall line :: line in FrameLines(e) ==> OneLined(line)) {
      assert "event: " + e.name in Optional(e.name != "", "event: " + e.name);
      assert "event: " + e.name in FrameLines(e);
      LinedSuffix("event: ", e.name);
    }
  }

  lemma LinedSuffix(prefix: string, text: string)
    requires OneLined(prefix + text)
    ensures OneLined(text)
  {
    assert forall c :: c in text ==> c in prefix + text;
  }

  lemma HeadersAreLined(e: Event)
    requires Refused(e).None?
    ensures OneLined("") && OneLined("data: ") && OneLined("id: " + e.id) && OneLined("event: " + e.name)
    ensures e.retry > 0 ==> OneLined(RetryText(e))
  {
    hide Decimal;
    if e.retry > 0 {
      assert forall c :: c in Decimal(e.retry / MILLISECOND) ==> IsDigit(c) && !Breaks(c);
    }
  }

  lemma PrefixIsLined(prefix: string, line: string)
    requires OneLined(prefix) && OneLined(line)
    ensures OneLined(prefix + line)
  {
  }

  lemma EncodedHasNoCr(data: string)
    ensures '\r' !in Encoded(data)
  {
  }

  lemma {:induction false} LinesAreLined(content: string)
    requires '\r' !in content
    ensures forall line :: line in Lines(content) ==> OneLined(line)
    decreases |content|
  {
    if content != "" {
      LinesAreLined(content[1..]);
      var rest := Lines(content[1..]);
      if content[0] != '\n' {
        PrefixIsLined([content[0]], rest[0]);
        assert forall line :: line in Lines(content) ==> line == [content[0]] + rest[0] || line in rest[1..];
      } else {
        assert forall line :: line in Lines(content) ==> line == "" || line in rest;
      }
    }
  }

  datatype Call = Send(event: Event) | Comment(text: string)

  predicate Accepted(call: Call) {
    match call
    case Send(e) => Refused(e).None? && '\0' !in e.id
    case Comment(text) => OneLined(text)
  }

  function FrameOf(call: Call): string {
    match call
    case Send(e) => Frame(e)
    case Comment(text) => CommentFrame(text)
  }

  function Sent(calls: seq<Call>): string {
    if calls == [] then "" else FrameOf(calls[0]) + Sent(calls[1..])
  }

  function HeardAll(c: Client, calls: seq<Call>): Client
    decreases calls
  {
    if calls == [] then c
    else HeardAll(if calls[0].Send? then Heard(c, calls[0].event) else c, calls[1..])
  }

  lemma CallIsHeard(c: Client, call: Call, rest: string)
    requires Settled(c) && Accepted(call)
    ensures var c' := if call.Send? then Heard(c, call.event) else c;
            Settled(c') && Feed(c, FrameOf(call) + rest) == Feed(c', rest)
  {
    hide Feed, FrameLines, Hear, Rejoined, Refused, OneLined;
    match call
    case Send(e) =>
      FrameIsLined(e);
      FeedLines(c, FrameLines(e), rest);
      EventIsHeard(c, e);
    case Comment(text) =>
      CommentIsLined(text);
      FeedLines(c, [": " + text, ""], rest);
      CommentIsIgnored(c, text);
  }

  lemma CommentIsLined(text: string)
    requires OneLined(text)
    ensures OneLined(": " + text) && OneLined("")
  {
  }

  /** The round trip: reading what any accepted calls wrote dispatches exactly the
      events that carry data, in order, each with its type, the last id so far and
      its data with every line terminator a newline, less one at the end; and leaves
      the last id and the reconnection time that were sent. */
  lemma {:induction false} StreamRoundTrip(c: Client, calls: seq<Call>)
    requires Settled(c) && forall call :: call in calls ==> Accepted(call)
    ensures Feed(c, Sent(calls)) == HeardAll(c, calls)
    decreases calls
  {
    if calls != [] {
      hide Feed, Heard, FrameOf, Accepted, Settled;
      CallIsHeard(c, calls[0], Sent(calls[1..]));
      StreamRoundTrip(if calls[0].Send? then Heard(c, calls[0].event) else c, calls[1..]);
    }
  }

  // ----- what a stream writes

  function AfterAll(w: Writing, calls: seq<Call>, outcomes: seq<Outcome>): Writing
    requires |outcomes| == |calls|
    decreases calls
  {
    if calls == [] then w else AfterAll(After(w, calls[0], outcomes[0]), calls[1..], outcomes[1..])
  }

  function AllowedOf(calls: seq<Call>): seq<Call> {
    if calls == [] then [] else (if Allowed(calls[0]) then [calls[0]] else []) + AllowedOf(calls[1..])
  }

  lemma SentCons(call: Call, rest: seq<Call>)
    ensures Sent([call] + rest) == FrameOf(call) + Sent(rest)
  {
    assert ([call] + rest)[1..] == rest;
  }

  /** Calls that are all written: the frames of those that are not refused, in order. */
  lemma {:induction false} WrittenIsSent(w: Writing, calls: seq<Call>, outcomes: seq<Outcome>)
    requires !w.closed && |outcomes| == |calls| && forall o :: o in outcomes ==> o == Written
    ensures AfterAll(w, calls, outcomes) == Writing(false, w.response + Sent(AllowedOf(calls)))
    decreases calls
  {
    hide FrameOf, Allowed;
    if calls == [] {
      assert w.response + "" == w.response;
    } else {
      assert outcomes[0] in outcomes && forall o :: o in outcomes[1..] ==> o in outcomes;
      WrittenIsSent(After(w, calls[0], outcomes[0]), calls[1..], outcomes[1..]);
      var rest := AllowedOf(calls[1..]);
      SentCons(calls[0], rest);
      if Allowed(calls[0]) {
        assert w.response + FrameOf(calls[0]) + Sent(rest) == w.response + (FrameOf(calls[0]) + Sent(rest));
      } else {
        assert [] + rest == rest;
      }
    }
  }

  /** A client that reads everything a stream has written, whatever calls were made on it,
      has exactly the events of those that were not refused. */
  lemma ClientHearsStream(c: Client, calls: seq<Call>, outcomes: seq<Outcome>)
    requires Settled(c) && |outcomes| == |calls| && forall o :: o in outcomes ==> o == Written
    requires forall call :: call in calls && call.Send? ==> '\0' !in call.event.id
    ensures Feed(c, AfterAll(Writing(false, ""), calls, outcomes).response) == HeardAll(c, AllowedOf(calls))
  {
    hide Feed, HeardAll, Sent, AfterAll;
    WrittenIsSent(Writing(false, ""), calls, outcomes);
    assert "" + Sent(AllowedOf(calls)) == Sent(AllowedOf(calls));
    AllowedAreAccepted(calls);
    StreamRoundTrip(c, AllowedOf(calls));
  }

  lemma {:induction false} AllowedAreAccepted(calls: seq<Call>)
    requires forall call :: call in calls && call.Send? ==> '\0' !in call.event.id
    ensures forall call :: call in AllowedOf(calls) ==> Accepted(call)
    decreases calls
  {
    hide Refused, OneLined;
    if calls != [] {
      AllowedAreAccepted(calls[1..]);
      assert calls[0] in calls;
    }
  }

  /** A write that goes wrong leaves the first part of its frame, all of it when only what
      follows the write fails; and a panic is the last thing that is written. */
  lemma BrokenWrite(w: Writing, call: Call, outcome: Outcome, calls: seq<Call>, outcomes: seq<Outcome>)
    requires !w.closed && Allowed(call) && outcome != Written && |outcomes| == |calls|
    ensures var broken := After(w, call, outcome);
            && w.response <= broken.response <= w.response + FrameOf(call)
            && |broken.response| - |w.response| == (if outcome.taken < |FrameOf(call)| then outcome.taken else |FrameOf(call)|)
            && (outcome.Panicked? ==> AfterAll(broken, calls, outcomes) == broken)
  {
    hide FrameOf, Allowed;
    if outcome.Panicked? {
      ClosedStays(After(w, call, outcome), calls, outcomes);
    }
  }

  lemma {:induction false} ClosedStays(w: Writing, calls: seq<Call>, outcomes: seq<Outcome>)
    requires w.closed && |outcomes| == |calls|
    ensures AfterAll(w, calls, outcomes) == w
    decreases calls
  {
    if calls != [] {
      ClosedStays(w, calls[1..], outcomes[1..]);
    }
  }
}
