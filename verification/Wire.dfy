/** The stream end to end: the frames a handler writes, as text, cut into chunks on the way and parsed by
    the browser client, or scanned line by line and audited by the soak client. */
module Wire {
  import opened Wrappers
  import opened Text
  import opened Decimal
  import opened Stream
  import Soak
  import Sse

  /** A JSON encoder of payloads: its output has no line break and is not blank. */
  ghost predicate OneLine(encode: Frame -> string) {
    forall f: Frame :: '\n' !in encode(f) && '\r' !in encode(f) && JsTrim(encode(f)) != ""
  }

  function Written(f: Frame, encode: Frame -> string): Sse.Frame {
    Sse.Frame(Shown(f).event, Shown(f).id, encode(f))
  }

  function WrittenAll(wire: seq<Frame>, encode: Frame -> string): seq<Sse.Frame> {
    seq(|wire|, i requires 0 <= i < |wire| => Written(wire[i], encode))
  }

  /** The numbers of the events among the received frames. */
  function Numbers(received: seq<Sse.Received>): seq<Option<int>> {
    if received == [] then []
    else if received[0].event == "session.event" then [ParseInt(received[0].id)] + Numbers(received[1..])
    else Numbers(received[1..])
  }

  lemma NumberIsOneLine(n: int)
    ensures '\n' !in FormatInt(n) && '\r' !in FormatInt(n)
  {
  }

  predicate Named(event: string) {
    event != "" && '\n' !in event && IsTrimmed(event)
  }

  lemma EventNamesAreNamed()
    ensures Named("session.event") && Named("session.ready") && Named("heartbeat") && Named("session.reset")
  {
  }

  lemma ShownIsNamed(f: Frame)
    ensures Named(Shown(f).event) && '\n' !in Shown(f).id && '\r' !in Shown(f).id
  {
    EventNamesAreNamed();
    if f.EventFrame? { NumberIsOneLine(f.event.seqNo); }
  }

  lemma OneLineIsPrintable(event: string, id: string, data: string)
    requires Named(event) && '\n' !in id && '\r' !in id
    requires '\n' !in data && '\r' !in data && JsTrim(data) != ""
    ensures Sse.Printable(Sse.Frame(event, id, data))
    ensures Sse.Expected(Sse.Frame(event, id, data)) == Sse.Received(event, id, Sse.Json(data))
  {
    SplitNone(data, '\n');
    assert Sse.StripAll([data]) == [data];
  }

  lemma WrittenIsPrintable(f: Frame, encode: Frame -> string)
    requires OneLine(encode)
    ensures Sse.Printable(Written(f, encode))
    ensures Sse.Expected(Written(f, encode)) == Sse.Received(Shown(f).event, Shown(f).id, Sse.Json(encode(f)))
  {
    ShownIsNamed(f);
    OneLineIsPrintable(Shown(f).event, Shown(f).id, encode(f));
  }

  /** Gap-free event frames have numbers that count up. */
  lemma {:induction false} NumbersCountUp(wire: seq<Frame>, received: seq<Sse.Received>, cursor: int)
    requires Consecutive(wire, cursor) && 0 <= cursor && CursorAfter(wire, cursor) <= MAX_INT64
    requires |received| == |wire|
    requires forall i | 0 <= i < |wire| ::
               received[i].event == Shown(wire[i]).event && received[i].id == Shown(wire[i]).id
    ensures forall i | 0 <= i < |Numbers(received)| :: Numbers(received)[i] == Some(cursor + 1 + i)
    decreases |wire|
  {
    if wire != [] {
      var next := if wire[0].EventFrame? then cursor + 1 else cursor;
      NumbersCountUp(wire[1..], received[1..], next);
      if wire[0].EventFrame? {
        ConsecutivePrefix(wire[1..], next, 0);
        ParseFormat(next);
      }
    }
  }

  lemma TextCarriesFrames(wire: seq<Frame>, encode: Frame -> string, chunks: seq<string>)
    requires OneLine(encode)
    requires Sse.Concat(chunks) == Sse.PrintAll(WrittenAll(wire, encode))
    ensures var received := Sse.FramesOf(chunks);
            && |received| == |wire|
            && (forall i | 0 <= i < |received| ::
                  received[i] == Sse.Received(Shown(wire[i]).event, Shown(wire[i]).id, Sse.Json(encode(wire[i]))))
  {
    var frames := WrittenAll(wire, encode);
    forall i | 0 <= i < |frames|
      ensures Sse.Printable(frames[i])
      ensures Sse.Expected(frames[i]) == Sse.Received(Shown(wire[i]).event, Shown(wire[i]).id,
                                                      Sse.Json(encode(wire[i])))
    {
      WrittenIsPrintable(wire[i], encode);
    }
    Sse.RoundTrip(frames, chunks);
  }

  /** The received frames are those on the wire with their payloads, and the numbers of the events among
      them count up from the one right above the cursor. */
  ghost predicate InOrder(received: seq<Sse.Received>, wire: seq<Frame>, encode: Frame -> string, cursor: int) {
    && |received| == |wire|
    && (forall i | 0 <= i < |received| ::
          received[i] == Sse.Received(Shown(wire[i]).event, Shown(wire[i]).id, Sse.Json(encode(wire[i]))))
    && forall i | 0 <= i < |Numbers(received)| :: Numbers(received)[i] == Some(cursor + 1 + i)
  }

  lemma ConsecutiveInOrder(wire: seq<Frame>, encode: Frame -> string, cursor: int, chunks: seq<string>)
    requires OneLine(encode) && Sse.Concat(chunks) == Sse.PrintAll(WrittenAll(wire, encode))
    requires Consecutive(wire, cursor) && 0 <= cursor && CursorAfter(wire, cursor) <= MAX_INT64
    ensures InOrder(Sse.FramesOf(chunks), wire, encode, cursor)
  {
    TextCarriesFrames(wire, encode, chunks);
    NumbersCountUp(wire, Sse.FramesOf(chunks), cursor);
  }

  /** Whatever is on the wire of a connection in any run, and however its text is cut into chunks, the
      client parses out exactly these frames, in order. */
  lemma TextDeliversInOrder(s: System, steps: seq<Step>, k: nat, encode: Frame -> string, chunks: seq<string>)
    requires Synced(s) && OrderlyRun(s, steps) && k in Run(s, steps).clients && OneLine(encode)
    requires Sse.Concat(chunks) == Sse.PrintAll(WrittenAll(Run(s, steps).clients[k].wire, encode))
    ensures var c := Run(s, steps).clients[k];
            InOrder(Sse.FramesOf(chunks), c.wire, encode, c.report.lastSeq)
  {
    RunKeepsSynced(s, steps);
    var c := Run(s, steps).clients[k];
    ConsecutiveInOrder(c.wire, encode, c.report.lastSeq, chunks);
  }

  // ----- the soak client's reader -----

  /** The lines of one written frame. */
  function LinesOf(f: Sse.Frame): seq<string> {
    (if f.id != "" then ["id: " + f.id] else []) + ["event: " + f.event, "data: " + f.data, ""]
  }

  function AllLines(frames: seq<Sse.Frame>): seq<string> {
    if frames == [] then [] else LinesOf(frames[0]) + AllLines(frames[1..])
  }

  predicate Plain(f: Sse.Frame) {
    && Named(f.event) && '\r' !in f.event
    && '\n' !in f.id && '\r' !in f.id && IsTrimmed(f.id)
    && '\n' !in f.data && '\r' !in f.data
  }

  lemma WrittenIsPlain(f: Frame, encode: Frame -> string)
    requires OneLine(encode)
    ensures Plain(Written(f, encode))
  {
    ShownIsNamed(f);
    if f.EventFrame? { FormatIsTrimmed(f.event.seqNo); }
  }

  lemma SplitField(name: string, value: string, rest: string)
    requires '\n' !in name && '\n' !in value
    ensures Split(Sse.Field(name, value) + rest, '\n') == [name + ": " + value] + Split(rest, '\n')
  {
    assert Sse.Field(name, value) + rest == (name + ": " + value) + ("\n" + rest);
    SplitPiece(name + ": " + value, '\n', rest);
  }

  lemma SplitDataEnd(data: string, rest: string)
    requires '\n' !in data
    ensures Split(Sse.Field("data", data) + ("\n" + rest), '\n') == ["data: " + data] + ([""] + Split(rest, '\n'))
  {
    SplitPiece("", '\n', rest);
    assert "" + ("\n" + rest) == "\n" + rest;
    SplitField("data", data, "\n" + rest);
    assert "data" + ": " == "data: ";
  }

  lemma SplitEventLine(event: string, rest: string)
    requires '\n' !in event
    ensures Split(Sse.Field("event", event) + rest, '\n') == ["event: " + event] + Split(rest, '\n')
  {
    SplitField("event", event, rest);
    assert "event" + ": " == "event: ";
  }

  lemma SplitIDLine(id: string, rest: string)
    requires '\n' !in id
    ensures Split(Sse.IDLine(id) + rest, '\n') == (if id != "" then ["id: " + id] else []) + Split(rest, '\n')
  {
    if id != "" {
      SplitField("id", id, rest);
      assert "id" + ": " == "id: ";
    } else {
      assert "" + rest == rest;
      assert [] + Split(rest, '\n') == Split(rest, '\n');
    }
  }

  lemma PrintParts(f: Sse.Frame, rest: string)
    requires Plain(f)
    ensures Sse.Print(f) + rest ==
            Sse.IDLine(f.id) + (Sse.Field("event", f.event) + (Sse.Field("data", f.data) + ("\n" + rest)))
  {
    SplitNone(f.data, '\n');
    assert [f.data][1..] == [];
    assert Sse.DataLines([f.data]) == Sse.Field("data", f.data) + "" == Sse.Field("data", f.data);
  }

  lemma SplitPrint(f: Sse.Frame, rest: string)
    requires Plain(f)
    ensures Split(Sse.Print(f) + rest, '\n') == LinesOf(f) + Split(rest, '\n')
  {
    PrintParts(f, rest);
    SplitDataEnd(f.data, rest);
    var data := Sse.Field("data", f.data) + ("\n" + rest);
    SplitEventLine(f.event, data);
    SplitIDLine(f.id, Sse.Field("event", f.event) + data);
    LinesJoin(f, Split(rest, '\n'));
  }

  lemma LinesJoin(f: Sse.Frame, tail: seq<string>)
    ensures (if f.id != "" then ["id: " + f.id] else []) +
            (["event: " + f.event] + (["data: " + f.data] + ([""] + tail))) ==
            LinesOf(f) + tail
  {
  }

  lemma LinesFront(frames: seq<Sse.Frame>)
    requires frames != []
    ensures LinesOf(frames[0]) + (AllLines(frames[1..]) + [""]) == AllLines(frames) + [""]
  {
  }

  lemma {:induction false} SplitAll(frames: seq<Sse.Frame>)
    requires forall i | 0 <= i < |frames| :: Plain(frames[i])
    ensures Split(Sse.PrintAll(frames), '\n') == AllLines(frames) + [""]
    decreases |frames|
  {
    if frames != [] {
      SplitAll(frames[1..]);
      Sse.PrintAllFront(frames);
      SplitPrint(frames[0], Sse.PrintAll(frames[1..]));
      LinesFront(frames);
    }
  }

  lemma KeepsReturns(line: string)
    requires line == "" || line[|line| - 1] != '\r'
    ensures Soak.DropReturns(line) == line
  {
  }

  /** What the soak client makes of a written frame. */
  function Scanned(f: Sse.Frame): Soak.Frame {
    Soak.Frame(f.id, f.event, TrimSpace(f.data))
  }

  lemma TrimFront(value: string)
    ensures TrimSpace(" " + value) == TrimSpace(value)
  {
    assert (" " + value)[1..] == value;
  }

  lemma TakeEvent(frame: Soak.Frame, event: string)
    requires Named(event)
    ensures Soak.TakeLine(frame, "event: " + event) == frame.(event := event)
  {
    var line := "event: " + event;
    assert line[0] == 'e' && line[6..] == " " + event && "event:" <= line;
    TrimFront(event);
  }

  lemma TakeData(frame: Soak.Frame, data: string)
    requires frame.data == ""
    ensures Soak.TakeLine(frame, "data: " + data) == frame.(data := TrimSpace(data))
  {
    var line := "data: " + data;
    assert line[0] == 'd' && line[5..] == " " + data && "data:" <= line;
    TrimFront(data);
  }

  lemma TakeID(frame: Soak.Frame, id: string)
    requires IsTrimmed(id)
    ensures Soak.TakeLine(frame, "id: " + id) == frame.(id := id)
  {
    var line := "id: " + id;
    assert line[0] == 'i' && line[3..] == " " + id && "id:" <= line;
    TrimFront(id);
  }

  lemma FramesStep(frame: Soak.Frame, line: string, rest: seq<string>)
    requires line != "" && line[|line| - 1] != '\r'
    ensures Soak.Frames(frame, [line] + rest) == Soak.Frames(Soak.TakeLine(frame, line), rest)
  {
    KeepsReturns(line);
    assert ([line] + rest)[1..] == rest;
  }

  lemma FramesEnd(frame: Soak.Frame, rest: seq<string>)
    requires frame != Soak.NO_FRAME
    ensures Soak.Frames(frame, [""] + rest) == [frame] + Soak.Frames(Soak.NO_FRAME, rest)
  {
    KeepsReturns("");
    assert ([""] + rest)[1..] == rest;
  }

  /** The lines of a written frame complete exactly that frame. */
  lemma FramesOne(f: Sse.Frame, rest: seq<string>)
    requires Plain(f)
    ensures Soak.Frames(Soak.NO_FRAME, LinesOf(f) + rest) == [Scanned(f)] + Soak.Frames(Soak.NO_FRAME, rest)
  {
    var end := [""] + rest;
    var data := ["data: " + f.data] + end;
    var event := ["event: " + f.event] + data;
    var started := Soak.NO_FRAME.(id := f.id);
    if f.id != "" {
      assert LinesOf(f) + rest == ["id: " + f.id] + event;
      FramesStep(Soak.NO_FRAME, "id: " + f.id, event);
      TakeID(Soak.NO_FRAME, f.id);
    } else {
      assert LinesOf(f) + rest == event;
    }
    FramesStep(started, "event: " + f.event, data);
    TakeEvent(started, f.event);
    FramesStep(started.(event := f.event), "data: " + f.data, end);
    TakeData(started.(event := f.event), f.data);
    FramesEnd(Scanned(f), rest);
  }

  function ScannedAll(frames: seq<Sse.Frame>): (out: seq<Soak.Frame>)
    ensures |out| == |frames| && forall i | 0 <= i < |frames| :: out[i] == Scanned(frames[i])
  {
    if frames == [] then [] else [Scanned(frames[0])] + ScannedAll(frames[1..])
  }

  lemma {:induction false} FramesAll(frames: seq<Sse.Frame>)
    requires forall i | 0 <= i < |frames| :: Plain(frames[i])
    ensures Soak.Frames(Soak.NO_FRAME, AllLines(frames)) == ScannedAll(frames)
    decreases |frames|
  {
    if frames != [] {
      FramesOne(frames[0], AllLines(frames[1..]));
      FramesAll(frames[1..]);
    }
  }

  /** The soak client scans exactly the frames that were written. */
  lemma SoakReadsFrames(wire: seq<Frame>, encode: Frame -> string)
    requires OneLine(encode)
    ensures var frames := Soak.Frames(Soak.NO_FRAME, Soak.ScanLines(Sse.PrintAll(WrittenAll(wire, encode))));
            && |frames| == |wire|
            && forall i | 0 <= i < |wire| ::
                 frames[i] == Soak.Frame(Shown(wire[i]).id, Shown(wire[i]).event, TrimSpace(encode(wire[i])))
  {
    var written := WrittenAll(wire, encode);
    forall i | 0 <= i < |written| ensures Plain(written[i]) { WrittenIsPlain(wire[i], encode); }
    SplitAll(written);
    assert (AllLines(written) + [""])[..|AllLines(written)|] == AllLines(written);
    FramesAll(written);
  }

  /** The handler's client, once it has read all that is on its wire frame by frame. */
  function ReadOut(report: Soak.Report, wire: seq<Frame>): Soak.Report
    decreases |wire|
  {
    if wire == [] then report else ReadOut(Soak.Apply(report, Shown(wire[0])), wire[1..])
  }

  /** The payload plays no part in the audit. */
  lemma {:induction false} AuditIgnoresData(report: Soak.Report, frames: seq<Soak.Frame>, wire: seq<Frame>)
    requires |frames| == |wire|
    requires forall i | 0 <= i < |wire| :: frames[i].id == Shown(wire[i]).id && frames[i].event == Shown(wire[i]).event
    ensures Soak.ApplyAll(report, frames) == ReadOut(report, wire)
    decreases |wire|
  {
    if wire != [] {
      assert Soak.Apply(report, frames[0]) == Soak.Apply(report, Shown(wire[0]));
      AuditIgnoresData(Soak.Apply(report, frames[0]), frames[1..], wire[1..]);
    }
  }

  lemma {:induction false} ReadOutIsQuiet(report: Soak.Report, wire: seq<Frame>)
    requires 0 <= report.lastSeq && Consecutive(wire, report.lastSeq) && CursorAfter(wire, report.lastSeq) <= MAX_INT64
    ensures Soak.Anomalies(ReadOut(report, wire)) == Soak.Anomalies(report)
    ensures ReadOut(report, wire).lastSeq == CursorAfter(wire, report.lastSeq)
    decreases |wire|
  {
    if wire != [] {
      if wire[0].EventFrame? {
        ConsecutivePrefix(wire[1..], report.lastSeq + 1, 0);
        AuditNext(report, wire[0].event);
      }
      ReadOutIsQuiet(Soak.Apply(report, Shown(wire[0])), wire[1..]);
    }
  }

  /** What the soak client makes of a text. */
  function Audited(report: Soak.Report, text: string): Soak.Report {
    Soak.ApplyAll(report, Soak.Frames(Soak.NO_FRAME, Soak.ScanLines(text)))
  }

  lemma ConsecutiveAudit(report: Soak.Report, wire: seq<Frame>, encode: Frame -> string)
    requires OneLine(encode) && 0 <= report.lastSeq
    requires Consecutive(wire, report.lastSeq) && CursorAfter(wire, report.lastSeq) <= MAX_INT64
    ensures var after := Audited(report, Sse.PrintAll(WrittenAll(wire, encode)));
            && after == ReadOut(report, wire)
            && Soak.Anomalies(after) == Soak.Anomalies(report)
            && after.lastSeq == CursorAfter(wire, report.lastSeq)
  {
    SoakReadsFrames(wire, encode);
    var frames := Soak.Frames(Soak.NO_FRAME, Soak.ScanLines(Sse.PrintAll(WrittenAll(wire, encode))));
    AuditIgnoresData(report, frames, wire);
    ReadOutIsQuiet(report, wire);
  }

  /** In every run, what the soak client makes of the text on a connection is what reading its frames one by
      one makes of them: no anomaly, and the cursor at the last number sent. */
  lemma SoakAuditsTheTextQuietly(s: System, steps: seq<Step>, k: nat, encode: Frame -> string)
    requires Synced(s) && OrderlyRun(s, steps) && k in Run(s, steps).clients && OneLine(encode)
    ensures var c := Run(s, steps).clients[k];
            var after := Audited(c.report, Sse.PrintAll(WrittenAll(c.wire, encode)));
            && after == ReadOut(c.report, c.wire)
            && Soak.Anomalies(after) == Soak.Anomalies(c.report) == 0
            && after.lastSeq == CursorAfter(c.wire, c.report.lastSeq)
  {
    RunKeepsSynced(s, steps);
    var c := Run(s, steps).clients[k];
    ConsecutiveAudit(c.report, c.wire, encode);
  }

  /** The client itself, on that text. */
  method ConsumeText(client: Soak.SoakClient, wire: seq<Frame>, encode: Frame -> string, lines: seq<string>)
    requires OneLine(encode) && lines == Soak.ScanLines(Sse.PrintAll(WrittenAll(wire, encode)))
    requires 0 <= client.report.lastSeq && Consecutive(wire, client.report.lastSeq)
    requires CursorAfter(wire, client.report.lastSeq) <= MAX_INT64
    modifies client
    ensures client.report == ReadOut(old(client.report), wire)
    ensures Soak.Anomalies(client.report) == Soak.Anomalies(old(client.report))
    ensures client.report.lastSeq == CursorAfter(wire, old(client.report.lastSeq))
  {
    ConsecutiveAudit(client.report, wire, encode);
    client.ConsumeSSE(lines);
  }
}
