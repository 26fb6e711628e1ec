/** Server-sent events: the frames the MCP stream writes, and what section 9.2.6 of the WHATWG HTML
    standard makes of them on the other side. */
module SseFraming {
  import opened LineBreaks
  import opened Text

  /** An event as the server sends it; an empty type or id is left out of the frame. */
  datatype MessageEvent = MessageEvent(kind: string, id: string, data: string)

  // ---- Writing ----

  /** replace(/\r?\n/g, text) */
  function ReplaceBreaks(s: string, text: string): string
    decreases |s|
  {
    if s == "" then ""
    else if BreakAt(s) then text + ReplaceBreaks(AfterBreak(s), text)
    else [s[0]] + ReplaceBreaks(s[1..], text)
  }

  function HeadLines(event: MessageEvent): seq<string> {
    (if event.kind != "" then ["event: " + event.kind] else [])
    + if event.id != "" then ["id: " + event.id] else []
  }

  function Frame(event: MessageEvent): string {
    Join(HeadLines(event) + ["data: " + ReplaceBreaks(event.data, "\ndata: ")], "\n") + "\n\n"
  }

  method FormatSseEvent(event: MessageEvent) returns (frame: string)
    ensures frame == Frame(event)
  {
    var lines := [];
    if event.kind != "" {
      lines := lines + ["event: " + event.kind];
    }
    if event.id != "" {
      lines := lines + ["id: " + event.id];
    }
    assert lines == HeadLines(event);
    lines := lines + ["data: " + ReplaceBreaks(event.data, "\ndata: ")];
    frame := Join(lines, "\n") + "\n\n";
  }

  function Frames(events: seq<MessageEvent>): string {
    if events == [] then "" else Frame(events[0]) + Frames(events[1..])
  }

  // ---- Reading, by the standard ----

  function LineLength(s: string): (n: nat)
    ensures n <= |s| && forall c <- s[..n] :: !IsLineEnd(c)
    ensures n < |s| ==> IsLineEnd(s[n])
  {
    if s == "" || IsLineEnd(s[0]) then 0 else 1 + LineLength(s[1..])
  }

  /** The lines that a CRLF pair, a lone LF or a lone CR ends; what follows the last is dropped. */
  function StreamLines(s: string): seq<string>
    decreases |s|
  {
    var n := LineLength(s);
    if n == |s| then []
    else [s[..n]] + StreamLines(s[n + if s[n] == '\r' && n + 1 < |s| && s[n + 1] == '\n' then 2 else 1..])
  }

  /** The data buffer, the event type buffer and the last event ID buffer. */
  datatype Buffers = Buffers(data: string, kind: string, id: string)

  datatype Message = Message(kind: string, data: string, lastEventId: string)

  function ColonAt(line: string): (n: nat)
    ensures n <= |line| && ':' !in line[..n]
    ensures n < |line| ==> line[n] == ':'
  {
    if line == "" || line[0] == ':' then 0 else 1 + ColonAt(line[1..])
  }

  function ProcessField(b: Buffers, field: string, value: string): Buffers {
    if field == "event" then b.(kind := value)
    else if field == "data" then b.(data := b.data + value + "\n")
    else if field == "id" && '\0' !in value then b.(id := value)
    else b
  }

  function ProcessLine(b: Buffers, line: string): Buffers {
    var n := ColonAt(line);
    if n == |line| then ProcessField(b, line, "")
    else if n == 0 then b
    else
      var value := line[n + 1..];
      ProcessField(b, line[..n], if value != "" && value[0] == ' ' then value[1..] else value)
  }

  function Dispatched(b: Buffers): seq<Message> {
    if b.data == "" then []
    else
      [Message(if b.kind == "" then "message" else b.kind,
               if b.data[|b.data| - 1] == '\n' then b.data[..|b.data| - 1] else b.data,
               b.id)]
  }

  function Interpret(lines: seq<string>, b: Buffers): seq<Message> {
    if lines == [] then []
    else if lines[0] == "" then Dispatched(b) + Interpret(lines[1..], Buffers("", "", b.id))
    else Interpret(lines[1..], ProcessLine(b, lines[0]))
  }

  /** A byte order mark in front of the stream is ignored. */
  function Parse(stream: string): seq<Message> {
    var s := if stream != "" && stream[0] as int == 0xFEFF then stream[1..] else stream;
    Interpret(StreamLines(s), Buffers("", "", ""))
  }

  // ---- What should arrive ----

  /** The data with every CRLF pair read as LF. */
  function Normalised(s: string): string {
    ReplaceBreaks(s, "\n")
  }

  /** The type, "message" if there is none; the data; and the id, or that of the event before. */
  function Received(events: seq<MessageEvent>, lastId: string): (r: seq<Message>)
    ensures |r| == |events|
  {
    if events == [] then []
    else
      var e := events[0];
      var id := if e.id == "" then lastId else e.id;
      [Message(if e.kind == "" then "message" else e.kind, Normalised(e.data), id)] + Received(events[1..], id)
  }

  predicate Framable(e: MessageEvent) {
    SingleLine(e.kind) && SingleLine(e.id) && '\0' !in e.id && NoLoneCR(e.data)
  }

  // ---- Frames as lines ----

  function Prefixed(prefix: string, lines: seq<string>): (r: seq<string>)
    ensures |r| == |lines| && forall i | 0 <= i < |r| :: r[i] == prefix + lines[i]
  {
    if lines == [] then [] else [prefix + lines[0]] + Prefixed(prefix, lines[1..])
  }

  lemma JoinPrepend(line: string, lines: seq<string>, sep: string)
    requires lines != []
    ensures Join([line] + lines, sep) == line + sep + Join(lines, sep)
  {
    assert ([line] + lines)[1..] == lines;
  }

  lemma JoinPush(c: char, lines: seq<string>, sep: string)
    requires lines != []
    ensures Join([[c] + lines[0]] + lines[1..], sep) == [c] + Join(lines, sep)
  {
    assert ([[c] + lines[0]] + lines[1..])[1..] == lines[1..];
  }

  lemma {:induction false} ReplaceIsJoin(s: string, text: string)
    ensures ReplaceBreaks(s, text) == Join(Lines(s), text)
    decreases |s|
  {
    hide Join;
    JoinOne("", text);
    if s == "" {
    } else if BreakAt(s) {
      ReplaceIsJoin(AfterBreak(s), text);
      JoinPrepend("", Lines(AfterBreak(s)), text);
    } else {
      ReplaceIsJoin(s[1..], text);
      JoinPush(s[0], Lines(s[1..]), text);
    }
  }

  lemma {:induction false} PrefixedJoin(prefix: string, lines: seq<string>, sep: string)
    requires lines != []
    ensures prefix + Join(lines, sep + prefix) == Join(Prefixed(prefix, lines), sep)
  {
    if |lines| > 1 {
      PrefixedJoin(prefix, lines[1..], sep);
      assert Prefixed(prefix, lines)[1..] == Prefixed(prefix, lines[1..]);
    }
  }

  function FrameLines(event: MessageEvent): seq<string> {
    HeadLines(event) + Prefixed("data: ", Lines(event.data)) + [""]
  }

  function Terminated(lines: seq<string>): string {
    if lines == [] then "" else lines[0] + "\n" + Terminated(lines[1..])
  }

  lemma {:induction false} TerminatedIsJoin(lines: seq<string>)
    requires lines != []
    ensures Terminated(lines + [""]) == Join(lines, "\n") + "\n\n"
  {
    assert (lines + [""])[1..] == lines[1..] + [""];
    if |lines| > 1 {
      TerminatedIsJoin(lines[1..]);
    } else {
      assert Terminated([""]) == "\n";
    }
  }

  lemma JoinOne(s: string, sep: string)
    ensures Join([s], sep) == s
  {
  }

  lemma FrameIsLines(event: MessageEvent)
    ensures Frame(event) == Terminated(FrameLines(event))
  {
    hide Join, Terminated, Prefixed, ReplaceBreaks, Lines;
    var heads, datas := HeadLines(event), Prefixed("data: ", Lines(event.data));
    ReplaceIsJoin(event.data, "\ndata: ");
    PrefixedJoin("data: ", Lines(event.data), "\n");
    var whole := "data: " + ReplaceBreaks(event.data, "\ndata: ");
    assert whole == Join(datas, "\n") && Join([whole], "\n") == whole by {
      JoinOne(whole, "\n");
      assert "\n" + "data: " == "\ndata: ";
    }
    if heads == [] {
      assert heads + [whole] == [whole] && heads + datas == datas;
    } else {
      JoinConcat(heads, [whole], "\n");
      JoinConcat(heads, datas, "\n");
    }
    TerminatedIsJoin(heads + datas);
  }

  lemma {:induction false} LineLengthAt(l: string, tail: string)
    requires SingleLine(l)
    ensures LineLength(l + "\n" + tail) == |l|
  {
    var s := l + "\n" + tail;
    if l != "" {
      assert s[0] == l[0] && s[1..] == l[1..] + "\n" + tail;
      LineLengthAt(l[1..], tail);
    }
  }

  lemma StreamLinesStep(l: string, tail: string)
    requires SingleLine(l)
    ensures StreamLines(l + "\n" + tail) == [l] + StreamLines(tail)
  {
    var s := l + "\n" + tail;
    LineLengthAt(l, tail);
    assert s[..|l|] == l && s[|l| + 1..] == tail && s[|l|] == '\n';
  }

  lemma {:induction false} StreamLinesOf(lines: seq<string>, rest: string)
    requires forall l <- lines :: SingleLine(l)
    ensures StreamLines(Terminated(lines) + rest) == lines + StreamLines(rest)
  {
    hide StreamLines, SingleLine;
    if lines == [] {
      assert Terminated(lines) + rest == rest;
    } else {
      var tail := Terminated(lines[1..]) + rest;
      StreamLinesOf(lines[1..], rest);
      StreamLinesStep(lines[0], tail);
      assert Terminated(lines) + rest == lines[0] + "\n" + tail;
      assert lines == [lines[0]] + lines[1..];
    }
  }

  // ---- Lines as messages ----

  lemma {:induction false} ColonAfter(field: string, rest: string)
    requires ':' !in field
    ensures ColonAt(field + ":" + rest) == |field|
  {
    var line := field + ":" + rest;
    if field != "" {
      assert line[0] == field[0] && line[1..] == field[1..] + ":" + rest;
      ColonAfter(field[1..], rest);
    }
  }

  lemma FieldLine(field: string, value: string, b: Buffers)
    requires field != "" && ':' !in field
    ensures ProcessLine(b, field + ": " + value) == ProcessField(b, field, value)
  {
    var line := field + ": " + value;
    assert line == field + ":" + (" " + value);
    ColonAfter(field, " " + value);
    assert line[..|field|] == field && line[|field| + 1..] == [' '] + value;
  }

  lemma InterpretField(line: string, rest: seq<string>, b: Buffers)
    requires line != ""
    ensures Interpret([line] + rest, b) == Interpret(rest, ProcessLine(b, line))
  {
    assert ([line] + rest)[1..] == rest;
  }

  lemma InterpretBlank(data: string, rest: seq<string>, kind: string, id: string)
    ensures Interpret([""] + rest, Buffers(data + "\n", kind, id))
            == [Message(if kind == "" then "message" else kind, data, id)] + Interpret(rest, Buffers("", "", id))
  {
    assert ([""] + rest)[1..] == rest;
    assert (data + "\n")[..|data|] == data;
  }

  lemma {:induction false} InterpretData(lines: seq<string>, b: Buffers, rest: seq<string>)
    requires lines != []
    ensures Interpret(Prefixed("data: ", lines) + ([""] + rest), b)
            == [Message(if b.kind == "" then "message" else b.kind, b.data + Join(lines, "\n"), b.id)]
               + Interpret(rest, Buffers("", "", b.id))
  {
    hide Interpret, ProcessLine;
    var line := "data" + ": " + lines[0];
    var more := Prefixed("data: ", lines[1..]) + ([""] + rest);
    var b' := b.(data := b.data + lines[0] + "\n");
    FieldLine("data", lines[0], b);
    InterpretField(line, more, b);
    assert line == "data: " + lines[0];
    assert Prefixed("data: ", lines) + ([""] + rest) == [line] + more;
    if |lines| > 1 {
      InterpretData(lines[1..], b', rest);
      assert b'.data + Join(lines[1..], "\n") == b.data + Join(lines, "\n");
    } else {
      assert more == [""] + rest;
      InterpretBlank(b.data + lines[0], rest, b.kind, b.id);
    }
  }

  lemma InterpretId(event: MessageEvent, id: string, rest: seq<string>)
    requires '\0' !in event.id
    ensures Interpret((if event.id != "" then ["id: " + event.id] else []) + rest, Buffers("", event.kind, id))
            == Interpret(rest, Buffers("", event.kind, if event.id == "" then id else event.id))
  {
    hide ProcessLine, Interpret;
    if event.id == "" {
      assert [] + rest == rest;
    } else {
      FieldLine("id", event.id, Buffers("", event.kind, id));
      InterpretField("id" + ": " + event.id, rest, Buffers("", event.kind, id));
      assert "id: " == "id" + ": ";
    }
  }

  lemma InterpretKind(event: MessageEvent, id: string, rest: seq<string>)
    ensures Interpret((if event.kind != "" then ["event: " + event.kind] else []) + rest, Buffers("", "", id))
            == Interpret(rest, Buffers("", event.kind, id))
  {
    hide ProcessLine, Interpret;
    if event.kind == "" {
      assert [] + rest == rest;
    } else {
      FieldLine("event", event.kind, Buffers("", "", id));
      InterpretField("event" + ": " + event.kind, rest, Buffers("", "", id));
      assert "event: " == "event" + ": ";
    }
  }

  lemma InterpretFrame(event: MessageEvent, id: string, rest: seq<string>)
    requires '\0' !in event.id
    ensures var id' := if event.id == "" then id else event.id;
            Interpret(FrameLines(event) + rest, Buffers("", "", id))
            == [Message(if event.kind == "" then "message" else event.kind, Normalised(event.data), id')]
               + Interpret(rest, Buffers("", "", id'))
  {
    hide ProcessLine, Prefixed, Lines, Join, ReplaceBreaks, Interpret;
    var datas := Prefixed("data: ", Lines(event.data)) + ([""] + rest);
    var id' := if event.id == "" then id else event.id;
    var idLines := (if event.id != "" then ["id: " + event.id] else []) + datas;
    assert FrameLines(event) + rest == (if event.kind != "" then ["event: " + event.kind] else []) + idLines;
    InterpretKind(event, id, idLines);
    InterpretId(event, id, datas);
    ReplaceIsJoin(event.data, "\n");
    InterpretData(Lines(event.data), Buffers("", event.kind, id'), rest);
    assert "" + Join(Lines(event.data), "\n") == Normalised(event.data);
  }

  lemma {:induction false} InterpretFrames(events: seq<MessageEvent>, id: string)
    requires forall e <- events :: Framable(e)
    ensures Interpret(StreamLines(Frames(events)), Buffers("", "", id)) == Received(events, id)
  {
    hide Frame, FrameLines, Interpret, Normalised;
    if events == [] {
      assert Interpret([], Buffers("", "", id)) == [] by { NoLines(id); }
    } else {
      var e, rest := events[0], Frames(events[1..]);
      FrameIsLines(e);
      FrameLinesAreSingle(e);
      StreamLinesOf(FrameLines(e), rest);
      InterpretFrame(e, id, StreamLines(rest));
      InterpretFrames(events[1..], if e.id == "" then id else e.id);
    }
  }

  lemma NoLines(id: string)
    ensures Interpret([], Buffers("", "", id)) == []
  {
  }

  lemma FrameLinesAreSingle(e: MessageEvent)
    requires Framable(e)
    ensures forall l <- FrameLines(e) :: SingleLine(l)
  {
    LinesHaveNoBreaks(e.data);
    var datas := Prefixed("data: ", Lines(e.data));
    forall l | l in datas ensures SingleLine(l) {
      var i :| 0 <= i < |datas| && datas[i] == l;
      assert Lines(e.data)[i] in Lines(e.data);
    }
  }

  // ---- The converse: what no stream can deliver ----

  /** Whatever the stream: no message has a CR in its data, a line end in its type, or a line end
      or NUL in its last event id. */
  predicate Clean(m: Message) {
    '\r' !in m.data && SingleLine(m.kind) && SingleLine(m.lastEventId) && '\0' !in m.lastEventId
  }

  predicate CleanBuffers(b: Buffers) {
    '\r' !in b.data && SingleLine(b.kind) && SingleLine(b.id) && '\0' !in b.id
  }

  lemma {:induction false} StreamLinesAreSingle(s: string)
    ensures forall l <- StreamLines(s) :: SingleLine(l)
    decreases |s|
  {
    var n := LineLength(s);
    if n < |s| {
      StreamLinesAreSingle(s[n + if s[n] == '\r' && n + 1 < |s| && s[n + 1] == '\n' then 2 else 1..]);
    }
  }

  lemma FieldKeepsClean(b: Buffers, field: string, value: string)
    requires CleanBuffers(b) && SingleLine(value)
    ensures CleanBuffers(ProcessField(b, field, value))
  {
    assert IsLineEnd('\r') && '\r' !in value;
  }

  lemma LineKeepsClean(b: Buffers, line: string)
    requires CleanBuffers(b) && SingleLine(line)
    ensures CleanBuffers(ProcessLine(b, line))
  {
    var n := ColonAt(line);
    if n == |line| {
      FieldKeepsClean(b, line, "");
    } else if n > 0 {
      var value := line[n + 1..];
      assert forall c <- value :: c in line;
      FieldKeepsClean(b, line[..n], if value != "" && value[0] == ' ' then value[1..] else value);
    }
  }

  lemma {:induction false} InterpretIsClean(lines: seq<string>, b: Buffers)
    requires forall l <- lines :: SingleLine(l)
    requires CleanBuffers(b)
    ensures forall m <- Interpret(lines, b) :: Clean(m)
  {
    if lines != [] {
      if lines[0] == "" {
        InterpretIsClean(lines[1..], Buffers("", "", b.id));
      } else {
        LineKeepsClean(b, lines[0]);
        InterpretIsClean(lines[1..], ProcessLine(b, lines[0]));
      }
    }
  }

  lemma {:induction false} LoneCRSurvives(s: string)
    ensures NoLoneCR(s) <==> '\r' !in Normalised(s)
    decreases |s|
  {
    if s != "" {
      var rest := if BreakAt(s) then AfterBreak(s) else s[1..];
      var k := |s| - |rest|;
      LoneCRSurvives(rest);
      assert forall i | 0 <= i < |rest| :: rest[i] == s[k + i];
      assert NoLoneCR(s) <==> NoLoneCR(rest) && (BreakAt(s) || s[0] != '\r') by {
        if NoLoneCR(rest) && (BreakAt(s) || s[0] != '\r') {
          forall i | 0 <= i < |s| && s[i] == '\r' ensures i + 1 < |s| && s[i + 1] == '\n' {
            if i >= k {
              assert rest[i - k] == '\r';
            }
          }
        }
        if NoLoneCR(s) {
          forall i | 0 <= i < |rest| && rest[i] == '\r' ensures i + 1 < |rest| && rest[i + 1] == '\n' {
            assert s[k + i] == '\r';
          }
        }
      }
    }
  }

  lemma {:induction false} CleanIsFramable(events: seq<MessageEvent>, id: string)
    requires forall m <- Received(events, id) :: Clean(m)
    ensures forall e <- events :: Framable(e)
  {
    if events != [] {
      var e := events[0];
      LoneCRSurvives(e.data);
      assert Clean(Received(events, id)[0]);
      CleanIsFramable(events[1..], if e.id == "" then id else e.id);
    }
  }

  /** The concatenated frames of any events give back their types, their data with CRLF read as LF,
      and their ids, exactly if no type or id contains a line end, no id a NUL, and no data a CR
      that is not followed by LF. */
  lemma FramesComeBackIff(events: seq<MessageEvent>)
    ensures Parse(Frames(events)) == Received(events, "") <==> forall e <- events :: Framable(e)
  {
    hide Interpret, StreamLines, Received, Frame;
    var s := Frames(events);
    if events != [] {
      FrameStart(events[0]);
    }
    if forall e <- events :: Framable(e) {
      InterpretFrames(events, "");
    }
    if Parse(s) == Received(events, "") {
      StreamLinesAreSingle(s);
      InterpretIsClean(StreamLines(s), Buffers("", "", ""));
      CleanIsFramable(events, "");
    }
  }

  /** A frame starts with the name of a field, so no byte order mark is read into a stream. */
  lemma FrameStart(event: MessageEvent)
    ensures Frame(event) != "" && Frame(event)[0] in "eid"
  {
    var lines := HeadLines(event) + ["data: " + ReplaceBreaks(event.data, "\ndata: ")];
    assert lines[0][0] in "eid";
    assert Join(lines, "\n")[0] == lines[0][0];
  }
}
