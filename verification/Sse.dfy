/** The text of the event stream: the server's frame printer and the browser client's line parser, which
    reads the text in chunks of any size. */
module Sse {
  import opened Text

  /** What the printer is given; `data` is the payload after JSON encoding. */
  datatype Frame = Frame(event: string, id: string, data: string)

  /** What the client hands on: no data, or the text it gives to the JSON decoder. */
  datatype Data = Null | Json(raw: string)

  datatype Received = Received(event: string, id: string, data: Data)

  // ----- the printer -----

  function Field(name: string, value: string): string {
    name + ": " + value + "\n"
  }

  function DataLines(lines: seq<string>): string {
    if lines == [] then "" else Field("data", lines[0]) + DataLines(lines[1..])
  }

  function IDLine(id: string): string {
    if id != "" then Field("id", id) else ""
  }

  function EventLine(event: string): string {
    if TrimSpace(event) != "" then Field("event", TrimSpace(event)) else ""
  }

  function Print(f: Frame): string {
    IDLine(f.id) + (EventLine(f.event) + (DataLines(Split(f.data, '\n')) + "\n"))
  }

  function Concat(chunks: seq<string>): string {
    if chunks == [] then "" else chunks[0] + Concat(chunks[1..])
  }

  function PrintEach(frames: seq<Frame>): (texts: seq<string>)
    ensures |texts| == |frames| && forall i | 0 <= i < |frames| :: texts[i] == Print(frames[i])
  {
    if frames == [] then [] else [Print(frames[0])] + PrintEach(frames[1..])
  }

  /** The stream that carries these frames. */
  function PrintAll(frames: seq<Frame>): string {
    Concat(PrintEach(frames))
  }

  lemma Assoc(a: string, b: string, c: string)
    ensures a + b + c == a + (b + c)
  {
  }

  method WriteSSEEvent(w: string, eventType: string, eventID: string, raw: string) returns (out: string)
    ensures out == w + Print(Frame(eventType, eventID, raw))
  {
    out := w;
    if eventID != "" {
      out := out + Field("id", eventID);
    }
    assert out == w + IDLine(eventID);
    if TrimSpace(eventType) != "" {
      out := out + Field("event", TrimSpace(eventType));
    }
    assert out == w + IDLine(eventID) + EventLine(eventType);
    out := WriteDataLines(out, Split(raw, '\n'));
    out := out + "\n";
    var data := DataLines(Split(raw, '\n'));
    Assoc(w + IDLine(eventID) + EventLine(eventType), data, "\n");
    Assoc(w + IDLine(eventID), EventLine(eventType), data + "\n");
    Assoc(w, IDLine(eventID), EventLine(eventType) + (data + "\n"));
  }

  method WriteDataLines(w: string, lines: seq<string>) returns (out: string)
    ensures out == w + DataLines(lines)
  {
    out := w;
    for i := 0 to |lines|
      invariant out + DataLines(lines[i..]) == w + DataLines(lines)
    {
      assert lines[i..][0] == lines[i] && lines[i..][1..] == lines[i + 1..];
      Assoc(out, Field("data", lines[i]), DataLines(lines[i + 1..]));
      out := out + Field("data", lines[i]);
    }
    assert lines[|lines|..] == [] && out + "" == out;
  }

  // ----- the parser -----

  datatype Parser = Parser(eventType: string, eventID: string, dataLines: seq<string>, frames: seq<Received>)

  /** Between two frames. */
  function Ready(frames: seq<Received>): Parser {
    Parser("message", "", [], frames)
  }

  function Decode(raw: string): Data {
    if JsTrim(raw) == "" then Null else Json(raw)
  }

  function Emit(p: Parser): Parser {
    if p.dataLines == [] && p.eventID == "" && p.eventType == "message" then p
    else
      Ready(p.frames + [Received(if p.eventType == "" then "message" else p.eventType, p.eventID,
                                 Decode(Join(p.dataLines, "\n")))])
  }

  function ConsumeLine(p: Parser, line: string): Parser {
    if line == "" then Emit(p)
    else if line[0] == ':' then p
    else
      var separator := IndexOf(line, ':');
      var field := line[..separator];
      var value := if separator < |line| then DropSpace(line[separator + 1..]) else "";
      if field == "event" then p.(eventType := if value == "" then "message" else value)
      else if field == "id" then p.(eventID := value)
      else if field == "data" then p.(dataLines := p.dataLines + [value])
      else p
  }

  function DropSpace(value: string): string {
    if value != "" && value[0] == ' ' then value[1..] else value
  }

  predicate EndsInReturn(line: string) {
    line != "" && line[|line| - 1] == '\r'
  }

  function StripReturn(line: string): string {
    if EndsInReturn(line) then line[..|line| - 1] else line
  }

  /** A parser in the middle of a line. */
  datatype Reader = Reader(parser: Parser, line: string)

  function Take(r: Reader, c: char): Reader {
    if c == '\n' then Reader(ConsumeLine(r.parser, StripReturn(r.line)), "") else r.(line := r.line + [c])
  }

  /** Reads a text: every line is consumed once it is complete. */
  function TakeAll(r: Reader, text: string): Reader
    decreases |text|
  {
    if text == [] then r else TakeAll(Take(r, text[0]), text[1..])
  }

  function Feed(r: Reader, chunks: seq<string>): Reader
    decreases |chunks|
  {
    if chunks == [] then r else Feed(TakeAll(r, chunks[0]), chunks[1..])
  }

  function Finish(r: Reader): Parser {
    Emit(if r.line != "" then ConsumeLine(r.parser, StripReturn(r.line)) else r.parser)
  }

  /** The frames a client emits for a stream that arrives in these chunks. */
  function FramesOf(chunks: seq<string>): seq<Received> {
    Finish(Feed(Reader(Ready([]), ""), chunks)).frames
  }

  lemma {:induction false} TakeConcat(r: Reader, a: string, b: string)
    ensures TakeAll(r, a + b) == TakeAll(TakeAll(r, a), b)
    decreases |a|
  {
    if a == [] {
      assert a + b == b;
    } else {
      assert (a + b)[1..] == a[1..] + b;
      TakeConcat(Take(r, a[0]), a[1..], b);
    }
  }

  /** Within a line the text only piles up. */
  lemma {:induction false} TakePlain(r: Reader, text: string)
    requires '\n' !in text
    ensures TakeAll(r, text) == r.(line := r.line + text)
    decreases |text|
  {
    if text == [] {
      assert r.line + text == r.line;
    } else {
      TakePlain(Take(r, text[0]), text[1..]);
      assert r.line + [text[0]] + text[1..] == r.line + text;
    }
  }

  lemma TakeLine(p: Parser, line: string)
    requires '\n' !in line
    ensures TakeAll(Reader(p, ""), line + "\n") == Reader(ConsumeLine(p, StripReturn(line)), "")
  {
    TakePlain(Reader(p, ""), line);
    assert "" + line == line;
    TakeConcat(Reader(p, ""), line, "\n");
    assert "\n"[1..] == "";
  }

  class SseReader {
    var buffer: string
    var eventType: string
    var eventID: string
    var dataLines: seq<string>
    var frames: seq<Received>

    ghost function State(): Parser
      reads this
    {
      Parser(eventType, eventID, dataLines, frames)
    }

    /** The reader that stands where the next character comes. */
    ghost function At(): Reader
      reads this
    {
      Reader(State(), buffer)
    }

    constructor ()
      ensures State() == Ready([]) && buffer == ""
    {
      buffer, eventType, eventID, dataLines, frames := "", "message", "", [], [];
    }

    method EmitFrame()
      modifies this
      ensures State() == Emit(old(State())) && buffer == old(buffer)
    {
      if |dataLines| == 0 && eventID == "" && eventType == "message" {
        return;
      }
      var rawData := Join(dataLines, "\n");
      var parsed := if JsTrim(rawData) != "" then Json(rawData) else Null;
      frames := frames + [Received(if eventType == "" then "message" else eventType, eventID, parsed)];
      eventType := "message";
      eventID := "";
      dataLines := [];
    }

    method Consume(line: string)
      modifies this
      ensures State() == ConsumeLine(old(State()), line) && buffer == old(buffer)
    {
      if line == "" {
        EmitFrame();
        return;
      }
      if line[0] == ':' {
        return;
      }
      var separator := IndexOf(line, ':');
      var field, value := line, "";
      if separator < |line| {
        field := line[..separator];
        value := line[separator + 1..];
        if value != "" && value[0] == ' ' {
          value := value[1..];
        }
      }
      assert field == line[..separator];
      if field == "event" {
        eventType := if value == "" then "message" else value;
      } else if field == "id" {
        eventID := value;
      } else if field == "data" {
        dataLines := dataLines + [value];
      }
    }

    /** Consumes the first complete line of the buffer. */
    method ConsumeFirst(index: nat)
      requires index == IndexOf(buffer, '\n') < |buffer|
      modifies this
      ensures buffer == old(buffer)[index + 1..]
      ensures TakeAll(Reader(State(), ""), buffer) == old(TakeAll(Reader(State(), ""), buffer))
    {
      ghost var p, first, rest := State(), buffer[..index], buffer[index + 1..];
      TakeLine(p, first);
      TakeConcat(Reader(p, ""), first + "\n", rest);
      assert buffer == first + "\n" + rest;
      var line := buffer[..index];
      if line != "" && line[|line| - 1] == '\r' {
        line := line[..|line| - 1];
      }
      Consume(line);
      buffer := buffer[index + 1..];
    }

    method ReadChunk(chunk: string)
      requires '\n' !in buffer
      modifies this
      ensures '\n' !in buffer && At() == TakeAll(old(At()), chunk)
    {
      ghost var start := State();
      TakePlain(Reader(start, ""), buffer);
      TakeConcat(Reader(start, ""), buffer, chunk);
      assert "" + buffer == buffer;
      buffer := buffer + chunk;
      var index := IndexOf(buffer, '\n');
      while index < |buffer|
        invariant index == IndexOf(buffer, '\n')
        invariant TakeAll(Reader(State(), ""), buffer) == TakeAll(old(At()), chunk)
        decreases |buffer|
      {
        ConsumeFirst(index);
        index := IndexOf(buffer, '\n');
      }
      assert buffer[..|buffer|] == buffer && "" + buffer == buffer;
      TakePlain(Reader(State(), ""), buffer);
    }

    method ReadAll(chunks: seq<string>)
      requires '\n' !in buffer
      modifies this
      ensures State() == Finish(Feed(old(At()), chunks))
    {
      for i := 0 to |chunks|
        invariant '\n' !in buffer && Feed(At(), chunks[i..]) == Feed(old(At()), chunks)
      {
        assert chunks[i..][0] == chunks[i] && chunks[i..][1..] == chunks[i + 1..];
        ReadChunk(chunks[i]);
      }
      ReadEnd();
    }

    /** A last line without a break, and a last frame. */
    method ReadEnd()
      modifies this
      ensures State() == Finish(old(At()))
    {
      if |buffer| > 0 {
        var tail := buffer;
        if tail[|tail| - 1] == '\r' {
          tail := tail[..|tail| - 1];
        }
        Consume(tail);
      }
      EmitFrame();
    }
  }

  // ----- chunking -----

  lemma {:induction false} FeedIsTake(r: Reader, chunks: seq<string>)
    ensures Feed(r, chunks) == TakeAll(r, Concat(chunks))
    decreases |chunks|
  {
    if chunks != [] {
      FeedIsTake(TakeAll(r, chunks[0]), chunks[1..]);
      TakeConcat(r, chunks[0], Concat(chunks[1..]));
    }
  }

  /** For arbitrary input the emitted frames do not depend on where the stream was cut into chunks. */
  lemma ChunkingDoesNotMatter(chunks: seq<string>, chunks': seq<string>)
    requires Concat(chunks) == Concat(chunks')
    ensures FramesOf(chunks) == FramesOf(chunks')
  {
    FeedIsTake(Reader(Ready([]), ""), chunks);
    FeedIsTake(Reader(Ready([]), ""), chunks');
  }

  // ----- the round trip -----

  /** What a client should receive for a printed frame. */
  function Expected(f: Frame): Received {
    Received(KindOf(f.event), f.id, Decode(f.data))
  }

  function ExpectedAll(frames: seq<Frame>): seq<Received> {
    seq(|frames|, i requires 0 <= i < |frames| => Expected(frames[i]))
  }

  /** The frames that survive the text form: single-line event type, single-line id not ending in a
      carriage return, and data that is blank or has no line ending in a carriage return. */
  predicate Printable(f: Frame) {
    && SingleLine(f)
    && !EndsInReturn(f.id)
    && (JsTrim(f.data) == "" || StripAll(Split(f.data, '\n')) == Split(f.data, '\n'))
  }

  predicate SingleLine(f: Frame) {
    '\n' !in TrimSpace(f.event) && '\n' !in f.id
  }

  function StripAll(lines: seq<string>): seq<string> {
    if lines == [] then [] else [StripReturn(lines[0])] + StripAll(lines[1..])
  }

  /** Reading `text` takes the parser from `p` to `q`, from line start to line start. */
  ghost predicate Leads(p: Parser, text: string, q: Parser) {
    TakeAll(Reader(p, ""), text) == Reader(q, "")
  }

  lemma Compose(p: Parser, a: string, q: Parser, b: string, r: Parser)
    requires Leads(p, a, q) && Leads(q, b, r)
    ensures Leads(p, a + b, r)
  {
    TakeConcat(Reader(p, ""), a, b);
  }

  lemma LeadsNowhere(p: Parser)
    ensures Leads(p, "", p)
  {
  }

  /** One complete line. */
  lemma LeadsLine(p: Parser, line: string)
    requires '\n' !in line
    ensures Leads(p, line + "\n", ConsumeLine(p, StripReturn(line)))
  {
    TakeLine(p, line);
  }

  lemma StripAfter(front: string, value: string)
    requires front != "" && front[|front| - 1] != '\r'
    ensures StripReturn(front + value) == front + StripReturn(value)
  {
  }

  /** How a `name: value` line is taken apart. */
  lemma FieldParts(name: string, value: string)
    requires name != "" && ':' !in name
    ensures var line := name + ": " + value;
            && IndexOf(line, ':') == |name| && line[..|name|] == name
            && DropSpace(line[|name| + 1..]) == value
            && StripReturn(line) == name + ": " + StripReturn(value)
  {
    var line := name + ": " + value;
    assert line == name + [':'] + (" " + value);
    IndexOfAfter(name, ':', " " + value);
    assert line[|name| + 1..] == " " + value;
    StripAfter(name + ": ", value);
  }

  lemma ConsumeData(p: Parser, value: string)
    ensures ConsumeLine(p, "data: " + value) == WithData(p, [value])
  {
    FieldParts("data", value);
    assert "data" + ": " == "data: ";
  }

  lemma ConsumeID(p: Parser, value: string)
    ensures ConsumeLine(p, "id: " + value) == p.(eventID := value)
  {
    FieldParts("id", value);
    assert "id" + ": " == "id: ";
  }

  lemma ConsumeEvent(p: Parser, value: string)
    requires value != ""
    ensures ConsumeLine(p, "event: " + value) == p.(eventType := value)
  {
    FieldParts("event", value);
    assert "event" + ": " == "event: ";
  }

  /** One complete printed field. */
  lemma LeadsField(p: Parser, name: string, value: string)
    requires '\n' !in name && '\n' !in value
    ensures Leads(p, Field(name, value), ConsumeLine(p, name + ": " + StripReturn(value)))
  {
    LeadsLine(p, name + ": " + value);
    StripAfter(name + ": ", value);
  }

  lemma LeadsData(p: Parser, value: string)
    requires '\n' !in value
    ensures Leads(p, Field("data", value), WithData(p, [StripReturn(value)]))
  {
    LeadsField(p, "data", value);
    assert "data" + ": " == "data: ";
    ConsumeData(p, StripReturn(value));
  }

  lemma LeadsID(frames: seq<Received>, id: string)
    requires '\n' !in id
    ensures Leads(Ready(frames), IDLine(id), Ready(frames).(eventID := StripReturn(id)))
  {
    if id != "" {
      LeadsField(Ready(frames), "id", id);
      assert "id" + ": " == "id: ";
      ConsumeID(Ready(frames), StripReturn(id));
    } else {
      LeadsNowhere(Ready(frames));
    }
  }

  function KindOf(event: string): string {
    if TrimSpace(event) == "" then "message" else TrimSpace(event)
  }

  lemma LeadsEvent(frames: seq<Received>, id: string, event: string)
    requires '\n' !in TrimSpace(event)
    ensures Leads(Ready(frames).(eventID := id), EventLine(event), Parser(KindOf(event), id, [], frames))
  {
    var kind, p := TrimSpace(event), Ready(frames).(eventID := id);
    if kind != "" {
      assert StripReturn(kind) == kind;
      LeadsField(p, "event", kind);
      assert "event" + ": " == "event: ";
      ConsumeEvent(p, kind);
    } else {
      LeadsNowhere(p);
    }
  }

  predicate AllSingleLine(lines: seq<string>) {
    lines == [] || ('\n' !in lines[0] && AllSingleLine(lines[1..]))
  }

  lemma {:induction false} SplitIsSingleLine(s: string)
    ensures AllSingleLine(Split(s, '\n'))
  {
    if s != [] {
      SplitIsSingleLine(s[1..]);
      var rest := Split(s[1..], '\n');
      assert Split(s, '\n')[1..] == if s[0] == '\n' then rest else rest[1..];
    }
  }

  function WithData(p: Parser, lines: seq<string>): Parser {
    p.(dataLines := p.dataLines + lines)
  }

  lemma WithDataTwice(p: Parser, a: seq<string>, b: seq<string>)
    ensures WithData(WithData(p, a), b) == WithData(p, a + b)
  {
  }

  lemma {:induction false} LeadsDataLines(p: Parser, lines: seq<string>)
    requires AllSingleLine(lines)
    ensures Leads(p, DataLines(lines), WithData(p, StripAll(lines)))
    decreases |lines|
  {
    if lines == [] {
      LeadsNowhere(p);
      assert p.dataLines + [] == p.dataLines;
    } else {
      var q := WithData(p, [StripReturn(lines[0])]);
      LeadsData(p, lines[0]);
      LeadsDataLines(q, lines[1..]);
      WithDataTwice(p, [StripReturn(lines[0])], StripAll(lines[1..]));
      Compose(p, Field("data", lines[0]), q, DataLines(lines[1..]), WithData(p, StripAll(lines)));
    }
  }

  lemma {:induction false} StripAllLength(lines: seq<string>)
    ensures |StripAll(lines)| == |lines|
  {
    if lines != [] { StripAllLength(lines[1..]); }
  }

  function ReceivedFor(f: Frame): Received {
    Received(KindOf(f.event), StripReturn(f.id), Decode(Join(StripAll(Split(f.data, '\n')), "\n")))
  }

  lemma LeadsEmit(kind: string, id: string, lines: seq<string>, frames: seq<Received>)
    requires kind != "" && lines != []
    ensures Leads(WithData(Parser(kind, id, [], frames), StripAll(lines)), "\n",
                  Ready(frames + [Received(kind, id, Decode(Join(StripAll(lines), "\n")))]))
  {
    StripAllLength(lines);
    assert [] + StripAll(lines) == StripAll(lines);
    assert "" + "\n" == "\n";
    LeadsLine(WithData(Parser(kind, id, [], frames), StripAll(lines)), "");
  }

  /** What the client makes of one printed frame, whatever follows it. */
  lemma LeadsFrame(frames: seq<Received>, f: Frame)
    requires SingleLine(f)
    ensures Leads(Ready(frames), Print(f), Ready(frames + [ReceivedFor(f)]))
  {
    var id, kind, lines := StripReturn(f.id), KindOf(f.event), Split(f.data, '\n');
    var afterID := Ready(frames).(eventID := id);
    var afterEvent := Parser(kind, id, [], frames);
    var afterData := WithData(afterEvent, StripAll(lines));
    var done := Ready(frames + [ReceivedFor(f)]);
    SplitIsSingleLine(f.data);
    LeadsDataLines(afterEvent, lines);
    LeadsEmit(kind, id, lines, frames);
    Compose(afterEvent, DataLines(lines), afterData, "\n", done);
    LeadsEvent(frames, id, f.event);
    Compose(afterID, EventLine(f.event), afterEvent, DataLines(lines) + "\n", done);
    LeadsID(frames, f.id);
    Compose(Ready(frames), IDLine(f.id), afterID, EventLine(f.event) + (DataLines(lines) + "\n"), done);
  }

  lemma {:induction false} StripAllJoin(lines: seq<string>)
    requires lines != []
    ensures |Join(StripAll(lines), "\n")| <= |Join(lines, "\n")|
    ensures |Join(StripAll(lines), "\n")| == |Join(lines, "\n")| ==> StripAll(lines) == lines
  {
    StripAllLength(lines);
    if |lines| > 1 {
      StripAllJoin(lines[1..]);
      assert StripAll(lines)[1..] == StripAll(lines[1..]);
    } else {
      assert StripAll(lines)[0] == StripReturn(lines[0]);
      assert lines == [lines[0]] && StripAll(lines) == [StripAll(lines)[0]];
    }
  }

  ghost predicate Blank(s: string) {
    forall i | 0 <= i < |s| :: IsJsSpace(s[i])
  }

  lemma {:induction false} JsTrimIsEmptyWhenBlank(s: string)
    ensures JsTrim(s) == "" <==> Blank(s)
    decreases |s|
  {
    if s != "" && IsJsSpace(s[0]) {
      JsTrimIsEmptyWhenBlank(s[1..]);
      assert Blank(s[1..]) ==> forall i | 0 < i < |s| :: s[i] == s[1..][i - 1];
      assert Blank(s) ==> Blank(s[1..]);
    } else if s != "" && IsJsSpace(s[|s| - 1]) {
      JsTrimIsEmptyWhenBlank(s[..|s| - 1]);
    }
  }

  lemma BlankConcat(a: string, b: string)
    ensures Blank(a + b) <==> Blank(a) && Blank(b)
  {
    var s := a + b;
    assert forall i | 0 <= i < |a| :: s[i] == a[i];
    assert forall i | 0 <= i < |b| :: s[|a| + i] == b[i];
  }

  lemma BlankStrip(line: string)
    ensures Blank(StripReturn(line)) <==> Blank(line)
  {
  }

  lemma {:induction false} StripKeepsBlank(lines: seq<string>)
    ensures Blank(Join(StripAll(lines), "\n")) <==> Blank(Join(lines, "\n"))
  {
    if lines != [] {
      StripAllLength(lines);
      BlankStrip(lines[0]);
      if |lines| > 1 {
        var a, b := Join(StripAll(lines[1..]), "\n"), Join(lines[1..], "\n");
        StripKeepsBlank(lines[1..]);
        assert StripAll(lines)[1..] == StripAll(lines[1..]);
        BlankConcat(StripReturn(lines[0]) + "\n", a);
        BlankConcat(StripReturn(lines[0]), "\n");
        BlankConcat(lines[0] + "\n", b);
        BlankConcat(lines[0], "\n");
      }
    }
  }

  /** For a single-line frame, the received copy is the expected one exactly under the remaining
      conditions. */
  lemma ReceivedAsExpected(f: Frame)
    requires SingleLine(f)
    ensures ReceivedFor(f) == Expected(f) <==> Printable(f)
  {
    var lines := Split(f.data, '\n');
    var stripped := Join(StripAll(lines), "\n");
    JoinSplit(f.data, '\n');
    StripAllJoin(lines);
    StripKeepsBlank(lines);
    JsTrimIsEmptyWhenBlank(f.data);
    JsTrimIsEmptyWhenBlank(stripped);
  }

  /** No received type or id contains a line break. */
  predicate NoBreaks(p: Parser) {
    && '\n' !in p.eventType && '\n' !in p.eventID
    && forall i | 0 <= i < |p.frames| :: '\n' !in p.frames[i].event && '\n' !in p.frames[i].id
  }

  lemma EmitKeepsNoBreaks(p: Parser)
    requires NoBreaks(p)
    ensures NoBreaks(Emit(p))
  {
  }

  lemma SliceHasNoBreak(line: string, from: nat)
    requires '\n' !in line && from <= |line|
    ensures '\n' !in line[from..] && '\n' !in DropSpace(line[from..])
  {
  }

  lemma ConsumeKeepsNoBreaks(p: Parser, line: string)
    requires NoBreaks(p) && '\n' !in line
    ensures NoBreaks(ConsumeLine(p, line))
  {
    if line == "" {
      EmitKeepsNoBreaks(p);
    } else {
      var separator := IndexOf(line, ':');
      if separator < |line| { SliceHasNoBreak(line, separator + 1); }
    }
  }

  lemma {:induction false} TakeAllKeepsNoBreaks(r: Reader, text: string)
    requires NoBreaks(r.parser) && '\n' !in r.line
    ensures NoBreaks(TakeAll(r, text).parser)
    decreases |text|
  {
    if text != [] {
      if text[0] == '\n' { ConsumeKeepsNoBreaks(r.parser, StripReturn(r.line)); }
      TakeAllKeepsNoBreaks(Take(r, text[0]), text[1..]);
    }
  }

  /** A frame survives printing and parsing exactly when it is printable. */
  lemma SurvivesExactlyWhenPrintable(f: Frame)
    ensures TakeAll(Reader(Ready([]), ""), Print(f)) == Reader(Ready([Expected(f)]), "") <==> Printable(f)
  {
    if SingleLine(f) {
      LeadsFrame([], f);
      assert [] + [ReceivedFor(f)] == [ReceivedFor(f)];
      ReceivedAsExpected(f);
      assert [ReceivedFor(f)] == [Expected(f)] ==> [ReceivedFor(f)][0] == [Expected(f)][0];
    } else {
      TakeAllKeepsNoBreaks(Reader(Ready([]), ""), Print(f));
      assert Ready([Expected(f)]).frames[0] == Expected(f);
    }
  }

  lemma LeadsPrintable(before: seq<Received>, f: Frame)
    requires Printable(f)
    ensures Leads(Ready(before), Print(f), Ready(before + [Expected(f)]))
  {
    LeadsFrame(before, f);
    ReceivedAsExpected(f);
  }

  lemma PrintAllFront(frames: seq<Frame>)
    requires frames != []
    ensures PrintAll(frames) == Print(frames[0]) + PrintAll(frames[1..])
  {
    assert PrintEach(frames)[1..] == PrintEach(frames[1..]);
  }

  lemma ExpectedFront(before: seq<Received>, frames: seq<Frame>)
    requires frames != []
    ensures before + [Expected(frames[0])] + ExpectedAll(frames[1..]) == before + ExpectedAll(frames)
  {
  }

  lemma {:induction false} LeadsAll(before: seq<Received>, frames: seq<Frame>)
    requires forall i | 0 <= i < |frames| :: Printable(frames[i])
    ensures Leads(Ready(before), PrintAll(frames), Ready(before + ExpectedAll(frames)))
    decreases |frames|
  {
    if frames == [] {
      LeadsNowhere(Ready(before));
      assert before + ExpectedAll(frames) == before;
    } else {
      var first := before + [Expected(frames[0])];
      LeadsPrintable(before, frames[0]);
      LeadsAll(first, frames[1..]);
      ExpectedFront(before, frames);
      PrintAllFront(frames);
      Compose(Ready(before), Print(frames[0]), Ready(first), PrintAll(frames[1..]),
              Ready(before + ExpectedAll(frames)));
    }
  }

  /** Printer and parser undo each other: however the printed frames are cut into chunks, the client
      emits exactly these frames, in order, and nothing at the end of the stream. */
  lemma RoundTrip(frames: seq<Frame>, chunks: seq<string>)
    requires forall i | 0 <= i < |frames| :: Printable(frames[i])
    requires Concat(chunks) == PrintAll(frames)
    ensures FramesOf(chunks) == ExpectedAll(frames)
  {
    FeedIsTake(Reader(Ready([]), ""), chunks);
    LeadsAll([], frames);
    assert [] + ExpectedAll(frames) == ExpectedAll(frames);
  }
}
